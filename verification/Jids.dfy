/** C strings (octets as `char`, no NUL inside) and the JID arithmetic that
    xmpp_session.c, xmpp_message.c and server.c do on them. */
module Jids {

  type Jid = string

  const JID_BUF_SIZE: nat := 3073
  const DOMAIN_BUF_SIZE: nat := 1024

  /** What fits in a `bound_jid` buffer with its terminator. */
  type FullJid = s: string | |s| < JID_BUF_SIZE

  /** `strchr`: the first position of `c`, or |s| when there is none. */
  function Find(s: string, c: char): (i: nat)
    ensures i <= |s|
    ensures forall k :: 0 <= k < i ==> s[k] != c
    ensures i < |s| ==> s[i] == c
    ensures i < |s| <==> c in s
  {
    if s == [] || s[0] == c then 0 else Find(s[1..], c) + 1
  }

  /** What a bounded copy into a buffer of `cap` octets keeps. */
  function Cut(s: string, cap: nat): (r: string)
    requires cap > 0
    ensures |r| < cap && r <= s
    ensures |s| < cap ==> r == s
    ensures |s| >= cap ==> |r| == cap - 1
  {
    if |s| < cap then s else s[..cap - 1]
  }

  /** The bare JID: everything before the first '/', cut to the buffer. */
  function Bare(full: string): (bare: Jid)
    ensures |bare| <= 3072 && bare <= full
    ensures '/' !in bare
  {
    Cut(full[..Find(full, '/')], JID_BUF_SIZE)
  }

  predicate HasResource(full: string) {
    Find(full, '/') < |full|
  }

  /** The domain part: after the first '@' if any, up to the next '/'. */
  function Domain(jid: string): (d: string)
    ensures |d| <= 1023 && '/' !in d
  {
    var at := Find(jid, '@');
    var rest := if at < |jid| then jid[at + 1..] else jid;
    Cut(rest[..Find(rest, '/')], DOMAIN_BUF_SIZE)
  }

  lemma FindInConcat(a: string, c: char, b: string)
    requires c !in a
    ensures Find(a + [c] + b, c) == |a|
  {
    var s := a + [c] + b;
    assert s[|a|] == c;
    assert forall k :: 0 <= k < |a| ==> s[k] == a[k];
  }

  /** Which part of an address is its domain: what stands behind the first '@'
      and in front of the next '/', cut to 1023 octets. */
  lemma DomainIs(local: string, domain: string, rest: string)
    requires '@' !in local && '/' !in domain && (rest == "" || rest[0] == '/')
    ensures Domain(local + "@" + domain + rest) == if |domain| <= 1023 then domain else domain[..1023]
  {
    var jid, after := local + "@" + domain + rest, domain + rest;
    assert jid == local + ['@'] + after;
    FindInConcat(local, '@', after);
    assert jid[|local| + 1..] == after;
    FirstPart(domain, rest);
    hide Find;
  }

  lemma FirstPart(head: string, rest: string)
    requires '/' !in head && (rest == "" || rest[0] == '/')
    ensures Find(head + rest, '/') == |head| && (head + rest)[..|head|] == head
  {
    if rest == "" {
      assert head + rest == head;
    } else {
      assert head + rest == head + ['/'] + rest[1..];
      FindInConcat(head, '/', rest[1..]);
    }
  }

  /** The same for an address without '@'. */
  lemma DomainOfHost(host: string, rest: string)
    requires '@' !in host && '/' !in host && '@' !in rest && (rest == "" || rest[0] == '/')
    ensures Domain(host + rest) == if |host| <= 1023 then host else host[..1023]
  {
    FirstPart(host, rest);
    hide Find;
    assert '@' !in host + rest;
  }

  /** A resource is whatever stands behind the first '/', an empty one included. */
  lemma HasResourceIff(full: string)
    ensures HasResource(full) <==> '/' in full
  {
  }

  /** Stripping is a projection: a bare JID is its own bare JID. */
  lemma BareIsProjection(full: string)
    ensures Bare(Bare(full)) == Bare(full)
  {
    var b := Bare(full);
    assert Find(b, '/') == |b|;
    assert b[..|b|] == b;
  }

  /** For `local@domain/resource` the strip gives back `local@domain`
      exactly when the domain holds no '/'. */
  lemma BareOfBoundJid(local: string, domain: string, resource: string)
    requires '/' !in local && |local| < 1024 && |domain| < DOMAIN_BUF_SIZE
    ensures Bare(local + "@" + domain + "/" + resource) == local + "@" + domain
            <==> '/' !in domain
  {
    var account := local + "@" + domain;
    var full := account + "/" + resource;
    if '/' !in domain {
      assert '/' !in account;
      FindInConcat(account, '/', resource);
      assert full == account + ['/'] + resource;
      assert full[..|account|] == account;
    } else {
      assert '/' in account by {
        var k :| 0 <= k < |domain| && domain[k] == '/';
        assert account[|local| + 1 + k] == '/';
      }
      assert '/' !in Bare(full);
    }
  }
}
