/** SASL PLAIN (section 2 of RFC 4616): handle_sasl_plain of xmpp_sasl.c. */
module SaslPlain {
  import opened Options
  import opened Jids
  import opened Base64

  const AUTHCID_BUF_SIZE: nat := 1024
  const BARE_JID_BUF_SIZE: nat := 2048

  /** A row of the users table. */
  datatype User = User(password: Option<seq<Octet>>, disabled: bool)

  type Users = map<Jid, User>

  datatype Verdict = Granted | Retry | Terminal

  /** The return code, and the value written to ctx->authcid if any. */
  datatype Outcome = Outcome(verdict: Verdict, authcid: Option<string>)

  const FORBIDDEN: string := "\"&'/:;<>@"

  predicate HasForbidden(s: string) {
    exists i :: 0 <= i < |s| && s[i] in FORBIDDEN
  }

  function Text(o: seq<Octet>): (s: string)
    ensures |s| == |o| && forall i :: 0 <= i < |o| ==> s[i] == o[i] as char
  {
    seq(|o|, i requires 0 <= i < |o| => o[i] as char)
  }

  /** The first NUL, or |o|. */
  function FirstNul(o: seq<Octet>): (i: nat)
    ensures i <= |o| && (i < |o| ==> o[i] == 0)
    ensures forall k :: 0 <= k < i ==> o[k] != 0
  {
    if o == [] || o[0] == 0 then 0 else FirstNul(o[1..]) + 1
  }

  function AccountJid(authcid: seq<Octet>, domain: string): Jid {
    Text(authcid) + "@" + domain
  }

  /** The decision once the message is split. */
  function Decide(users: Users, domain: string, authzid: seq<Octet>, authcid: seq<Octet>, passwd: seq<Octet>): Outcome {
    var jid := AccountJid(authcid, domain);
    var kept := Some(Cut(Text(authcid), AUTHCID_BUF_SIZE));
    if authcid == [] || HasForbidden(Text(authcid)) then Outcome(Terminal, None)
    else if |jid| >= BARE_JID_BUF_SIZE then Outcome(Terminal, kept)
    else if jid !in users then Outcome(Retry, kept)
    else if users[jid].disabled then Outcome(Terminal, kept)
    else if users[jid].password != Some(passwd) then Outcome(Retry, kept)
    else if authzid != [] && Cut(Text(authzid), BARE_JID_BUF_SIZE) != jid then Outcome(Terminal, kept)
    else Outcome(Granted, kept)
  }

  /** handle_sasl_plain on the decoded octets. */
  function PlainOutcome(users: Users, domain: string, data: seq<Octet>): Outcome {
    var z := FirstNul(data);
    if z == |data| then Outcome(Terminal, None) else
      var rest := data[z + 1..];
      var y := FirstNul(rest);
      if y == |rest| || y + 1 == |rest| then Outcome(Terminal, None)
      else Decide(users, domain, data[..z], rest[..y], rest[y + 1..])
  }

  // ------------------------------------------------------ what it means

  /** data = authzid NUL authcid NUL passwd. */
  ghost predicate Splits(data: seq<Octet>, authzid: seq<Octet>, authcid: seq<Octet>, passwd: seq<Octet>) {
    data == authzid + [0] + (authcid + [0] + passwd) && 0 !in authzid && 0 !in authcid
  }

  lemma {:induction false} FirstNulIs(a: seq<Octet>, b: seq<Octet>)
    requires 0 !in a
    ensures FirstNul(a + [0] + b) == |a|
  {
    var s := a + [0] + b;
    assert s[|a|] == 0;
    assert forall k :: 0 <= k < |a| ==> s[k] == a[k];
  }

  /** The split is unique and is the one the two scans find. */
  lemma {:induction false} OutcomeOfSplit(users: Users, domain: string, data: seq<Octet>,
                                          authzid: seq<Octet>, authcid: seq<Octet>, passwd: seq<Octet>)
    requires Splits(data, authzid, authcid, passwd)
    ensures PlainOutcome(users, domain, data)
            == if passwd == [] then Outcome(Terminal, None) else Decide(users, domain, authzid, authcid, passwd)
  {
    hide Decide;
    var rest := authcid + [0] + passwd;
    FirstNulIs(authzid, rest);
    FirstNulIs(authcid, passwd);
    assert data[..|authzid|] == authzid && data[|authzid| + 1..] == rest;
    assert rest[..|authcid|] == authcid && rest[|authcid| + 1..] == passwd;
  }

  /** A message that splits, or one with fewer than two NULs. */
  lemma {:induction false} SplitExists(data: seq<Octet>)
    returns (splits: bool, authzid: seq<Octet>, authcid: seq<Octet>, passwd: seq<Octet>)
    ensures splits ==> Splits(data, authzid, authcid, passwd)
    ensures !splits ==> forall users, domain :: PlainOutcome(users, domain, data) == Outcome(Terminal, None)
  {
    hide Decide;
    splits, authzid, authcid, passwd := false, [], [], [];
    var z := FirstNul(data);
    if z < |data| {
      var rest := data[z + 1..];
      var y := FirstNul(rest);
      if y < |rest| {
        splits, authzid, authcid, passwd := true, data[..z], rest[..y], rest[y + 1..];
        assert rest == authcid + [0] + passwd;
        assert data == authzid + [0] + rest;
      }
    }
  }

  /** Well formed: an account with an acceptable name and length is named. */
  ghost predicate Names(domain: string, authcid: seq<Octet>, passwd: seq<Octet>) {
    && authcid != [] && passwd != [] && |authcid| + 1 + |domain| <= 2047
    && forall i :: 0 <= i < |authcid| ==>
         authcid[i] as char !in {'"', '&', '\'', '/', ':', ';', '<', '>', '@'}
  }

  /** The characters a localpart must not hold. */
  lemma {:induction false} ForbiddenIff(s: string)
    ensures HasForbidden(s) <==>
              exists i :: 0 <= i < |s| && s[i] in {'"', '&', '\'', '/', ':', ';', '<', '>', '@'}
  {
    forall i | 0 <= i < |s|
      ensures s[i] in FORBIDDEN <==> s[i] in {'"', '&', '\'', '/', ':', ';', '<', '>', '@'}
    {
      ForbiddenChar(s[i]);
    }
  }

  lemma {:induction false} ForbiddenChar(c: char)
    ensures c in FORBIDDEN <==> c in {'"', '&', '\'', '/', ':', ';', '<', '>', '@'}
  {
    assert FORBIDDEN == ['"', '&', '\'', '/', ':', ';', '<', '>', '@'];
  }

  /** The account JID is the 2047-octet prefix of a longer authzid. */
  ghost predicate CutMatch(authzid: string, jid: Jid) {
    |authzid| > 2047 && |jid| == 2047 && jid <= authzid
  }

  ghost predicate Admits(users: Users, domain: string, authzid: seq<Octet>, authcid: seq<Octet>, passwd: seq<Octet>) {
    var jid := Text(authcid) + "@" + domain;
    && Names(domain, authcid, passwd)
    && jid in users && !users[jid].disabled && users[jid].password == Some(passwd)
    && (authzid == [] || Text(authzid) == jid || CutMatch(Text(authzid), jid))
  }

  ghost predicate Refuses(users: Users, domain: string, authcid: seq<Octet>, passwd: seq<Octet>) {
    var jid := Text(authcid) + "@" + domain;
    && Names(domain, authcid, passwd)
    && (jid !in users || (!users[jid].disabled && users[jid].password != Some(passwd)))
  }

  lemma {:induction false} DecideMeans(users: Users, domain: string, authzid: seq<Octet>, authcid: seq<Octet>,
                                       passwd: seq<Octet>)
    requires passwd != []
    ensures Decide(users, domain, authzid, authcid, passwd).verdict == Granted
            <==> Admits(users, domain, authzid, authcid, passwd)
    ensures Decide(users, domain, authzid, authcid, passwd).verdict == Retry
            <==> Refuses(users, domain, authcid, passwd)
    ensures Admits(users, domain, authzid, authcid, passwd) ==>
              Decide(users, domain, authzid, authcid, passwd).authcid == Some(Cut(Text(authcid), AUTHCID_BUF_SIZE))
  {
    ForbiddenIff(Text(authcid));
    assert forall i :: 0 <= i < |authcid| ==> Text(authcid)[i] == authcid[i] as char;
    hide Text, HasForbidden, Cut;
    if |AccountJid(authcid, domain)| < BARE_JID_BUF_SIZE {
      AuthzidTest(Text(authzid), AccountJid(authcid, domain));
    }
  }

  lemma {:induction false} OutcomeMeans(users: Users, domain: string, data: seq<Octet>,
                                        authzid: seq<Octet>, authcid: seq<Octet>, passwd: seq<Octet>)
    requires Splits(data, authzid, authcid, passwd)
    ensures PlainOutcome(users, domain, data).verdict == Granted <==> Admits(users, domain, authzid, authcid, passwd)
    ensures PlainOutcome(users, domain, data).verdict == Retry <==> Refuses(users, domain, authcid, passwd)
    ensures Admits(users, domain, authzid, authcid, passwd) ==>
              PlainOutcome(users, domain, data).authcid == Some(Cut(Text(authcid), AUTHCID_BUF_SIZE))
  {
    OutcomeOfSplit(users, domain, data, authzid, authcid, passwd);
    hide PlainOutcome, Decide, Splits, Text, HasForbidden, Cut;
    if passwd != [] {
      DecideMeans(users, domain, authzid, authcid, passwd);
    }
  }

  /** Success, exactly: some split of the message names a known, enabled
      account with exactly that password, and the authzid is empty, equal to the
      account JID, or longer than 2047 octets with the JID as its cut. The kept
      authcid is then that of the split, cut to its buffer. */
  lemma {:induction false} GrantedIff(users: Users, domain: string, data: seq<Octet>)
    ensures PlainOutcome(users, domain, data).verdict == Granted <==>
              exists authzid, authcid, passwd ::
                Splits(data, authzid, authcid, passwd) && Admits(users, domain, authzid, authcid, passwd)
    ensures forall authzid, authcid, passwd ::
              Splits(data, authzid, authcid, passwd) && PlainOutcome(users, domain, data).verdict == Granted
              ==> PlainOutcome(users, domain, data).authcid == Some(Cut(Text(authcid), AUTHCID_BUF_SIZE))
  {
    hide PlainOutcome, Splits, Admits, Refuses, Text, Cut;
    forall authzid, authcid, passwd | Splits(data, authzid, authcid, passwd)
      ensures PlainOutcome(users, domain, data).verdict == Granted <==> Admits(users, domain, authzid, authcid, passwd)
      ensures Admits(users, domain, authzid, authcid, passwd) ==>
                PlainOutcome(users, domain, data).authcid == Some(Cut(Text(authcid), AUTHCID_BUF_SIZE))
    {
      OutcomeMeans(users, domain, data, authzid, authcid, passwd);
    }
    var splits, authzid, authcid, passwd := SplitExists(data);
  }

  /** A retryable failure, exactly: an unknown account, or a wrong password for
      an enabled one. Everything else that is not success is terminal. */
  lemma {:induction false} RetryIff(users: Users, domain: string, data: seq<Octet>)
    ensures PlainOutcome(users, domain, data).verdict == Retry <==>
              exists authzid, authcid, passwd ::
                Splits(data, authzid, authcid, passwd) && Refuses(users, domain, authcid, passwd)
  {
    hide PlainOutcome, Splits, Admits, Refuses, Text, Cut;
    forall authzid, authcid, passwd | Splits(data, authzid, authcid, passwd)
      ensures PlainOutcome(users, domain, data).verdict == Retry <==> Refuses(users, domain, authcid, passwd)
    {
      OutcomeMeans(users, domain, data, authzid, authcid, passwd);
    }
    var splits, authzid, authcid, passwd := SplitExists(data);
  }

  /** The authzid test compares a copy cut to 2047 octets. It means equality
      with the account JID exactly unless the authzid is longer than that and
      the JID is its 2047-octet prefix. */
  lemma AuthzidTest(authzid: string, jid: Jid)
    requires |jid| < BARE_JID_BUF_SIZE
    ensures (Cut(authzid, BARE_JID_BUF_SIZE) == jid <==> authzid == jid) <==> !CutMatch(authzid, jid)
    ensures Cut(authzid, BARE_JID_BUF_SIZE) == jid <==> authzid == jid || CutMatch(authzid, jid)
  {
    if |authzid| > 2047 {
      assert Cut(authzid, BARE_JID_BUF_SIZE) == authzid[..2047];
    }
  }

  /** It happens: an authzid that only begins with the account JID is accepted
      when the JID has 2047 octets. */
  lemma {:induction false} LongAuthzidIsGranted()
    ensures exists users, domain, data, authzid, authcid, passwd ::
              && Splits(data, authzid, authcid, passwd) && PlainOutcome(users, domain, data).verdict == Granted
              && authzid != [] && Text(authzid) != AccountJid(authcid, domain)
  {
    var authcid: seq<Octet>, passwd: seq<Octet> := seq(1023, _ => 97), [1];
    var domain, rest: seq<Octet> := seq(1023, _ => 'd'), seq(1024, _ => 100);
    var authzid := authcid + [64] + rest;
    LongerText(authcid, rest, domain);
    assert 0 !in authzid;
    hide PlainOutcome, Splits, Text, AccountJid;
    var users: Users := map[AccountJid(authcid, domain) := User(Some(passwd), false)];
    LongAuthzid(users, domain, authzid, authcid, passwd);
  }

  /** An authzid that begins with the account JID. */
  lemma {:induction false} LongerText(authcid: seq<Octet>, rest: seq<Octet>, domain: string)
    requires |domain| <= |rest| && forall i :: 0 <= i < |domain| ==> rest[i] as char == domain[i]
    ensures var jid, text := AccountJid(authcid, domain), Text(authcid + [64] + rest);
            && |jid| == |authcid| + 1 + |domain| && |text| == |authcid| + 1 + |rest|
            && forall i :: 0 <= i < |jid| ==> text[i] == jid[i]
  {
    var all, jid, n := authcid + [64] + rest, AccountJid(authcid, domain), |authcid|;
    forall i | 0 <= i < |jid| ensures Text(all)[i] == jid[i] {
      assert all[i] == if i < n then authcid[i] else if i == n then 64 else rest[i - n - 1];
      assert jid[i] == if i < n then Text(authcid)[i] else if i == n then '@' else domain[i - n - 1];
    }
  }

  lemma {:induction false} LongAuthzid(users: Users, domain: string, authzid: seq<Octet>, authcid: seq<Octet>,
                                       passwd: seq<Octet>)
    requires var jid := AccountJid(authcid, domain);
             && |jid| == 2047 && |authzid| == 2048 && jid in users && users[jid] == User(Some(passwd), false)
             && forall i :: 0 <= i < 2047 ==> Text(authzid)[i] == jid[i]
    requires 0 !in authzid && passwd != [] && forall i :: 0 <= i < |authcid| ==> authcid[i] == 97
    requires authcid != []
    ensures var data := authzid + [0] + (authcid + [0] + passwd);
            && Splits(data, authzid, authcid, passwd) && PlainOutcome(users, domain, data).verdict == Granted
            && authzid != [] && Text(authzid) != AccountJid(authcid, domain)
  {
    var jid, data := AccountJid(authcid, domain), authzid + [0] + (authcid + [0] + passwd);
    assert !HasForbidden(Text(authcid)) by {
      assert 'a' !in FORBIDDEN && forall i :: 0 <= i < |authcid| ==> Text(authcid)[i] == 'a';
    }
    assert CutMatch(Text(authzid), jid);
    assert Admits(users, domain, authzid, authcid, passwd);
    hide PlainOutcome, Admits, Text;
    OutcomeMeans(users, domain, data, authzid, authcid, passwd);
  }

  /** Whatever the call answers, an authcid it leaves behind fits its buffer and
      holds no forbidden character. */
  lemma {:induction false} KeptAuthcidIsClean(users: Users, domain: string, data: seq<Octet>)
    ensures var kept := PlainOutcome(users, domain, data).authcid;
            kept.Some? ==> |kept.value| < AUTHCID_BUF_SIZE && !HasForbidden(kept.value)
    ensures PlainOutcome(users, domain, data).verdict != Terminal ==> PlainOutcome(users, domain, data).authcid.Some?
  {
  }

  /** The session keeps the authcid that was authenticated exactly when it has
      at most 1023 octets; a longer one is kept cut. */
  lemma {:induction false} KeptAuthcidIff(users: Users, domain: string, data: seq<Octet>,
                                          authzid: seq<Octet>, authcid: seq<Octet>, passwd: seq<Octet>)
    requires Splits(data, authzid, authcid, passwd) && PlainOutcome(users, domain, data).verdict == Granted
    ensures PlainOutcome(users, domain, data).authcid == Some(Text(authcid)) <==> |authcid| <= 1023
  {
    hide PlainOutcome, Splits, Admits;
    OutcomeMeans(users, domain, data, authzid, authcid, passwd);
  }

  /** That happens: an account whose name has 1024 octets logs in with its own
      password, and the session goes on under the first 1023 of them. */
  lemma {:induction false} LongAuthcidIsCut()
    ensures exists users, domain, data, authzid, authcid, passwd ::
              && Splits(data, authzid, authcid, passwd) && PlainOutcome(users, domain, data).verdict == Granted
              && |authcid| == 1024
              && PlainOutcome(users, domain, data).authcid == Some(Text(authcid)[..1023])
  {
    var authzid: seq<Octet>, authcid: seq<Octet>, passwd: seq<Octet> := [], seq(1024, _ => 97), [1];
    var jid := AccountJid(authcid, "x");
    var users: Users := map[jid := User(Some(passwd), false)];
    var data := authzid + [0] + (authcid + [0] + passwd);
    assert |jid| == 1026;
    assert !HasForbidden(Text(authcid)) by {
      assert 'a' !in FORBIDDEN && forall i :: 0 <= i < 1024 ==> Text(authcid)[i] == 'a';
    }
    assert Splits(data, authzid, authcid, passwd);
    assert Admits(users, "x", authzid, authcid, passwd);
    OutcomeMeans(users, "x", data, authzid, authcid, passwd);
    assert Cut(Text(authcid), AUTHCID_BUF_SIZE) == Text(authcid)[..1023];
    hide PlainOutcome, Splits, Admits, Text, Cut;
    assert PlainOutcome(users, "x", data).verdict == Granted;
  }

  /** End to end: credentials encoded by the base64 encoder are understood as
      exactly those three fields, wherever noise is inserted into the text. */
  lemma {:induction false} EncodedCredentials(users: Users, domain: string, authzid: seq<Octet>, authcid: seq<Octet>,
                                              passwd: seq<Octet>,
                                              front: string, noise: string, back: string)
    requires 0 !in authzid && 0 !in authcid && passwd != []
    requires front + back == Encode(authzid + [0] + (authcid + [0] + passwd))
    requires forall c :: c in noise ==> Value(c) == None
    ensures PlainOutcome(users, domain, Decode(front + noise + back))
            == Decide(users, domain, authzid, authcid, passwd)
  {
    hide Encode, Decode, Decide, PlainOutcome, Value;
    var data := authzid + [0] + (authcid + [0] + passwd);
    NoiseIgnored(front, noise, back);
    RoundTrip(data);
    OutcomeOfSplit(users, domain, data, authzid, authcid, passwd);
  }

  // ------------------------------------------------------------- imperative

  /** Bitwise exclusive or, bit by bit. */
  function Xor(x: nat, y: nat): nat
    decreases x + y
  {
    if x == 0 && y == 0 then 0 else 2 * Xor(x / 2, y / 2) + if x % 2 == y % 2 then 0 else 1
  }

  /** Bitwise or, bit by bit. */
  function Or(x: nat, y: nat): nat
    decreases x + y
  {
    if x == 0 && y == 0 then 0 else 2 * Or(x / 2, y / 2) + if x % 2 == 0 && y % 2 == 0 then 0 else 1
  }

  lemma {:induction false} XorZero(x: nat, y: nat)
    ensures Xor(x, y) == 0 <==> x == y
    decreases x + y
  {
    if x != 0 || y != 0 {
      XorZero(x / 2, y / 2);
    }
  }

  lemma {:induction false} OrZero(x: nat, y: nat)
    ensures Or(x, y) == 0 <==> x == 0 && y == 0
    decreases x + y
  {
    if x != 0 || y != 0 {
      OrZero(x / 2, y / 2);
    }
  }

  /** ct_memeq: accumulates differences without an early exit. */
  method ConstantTimeEqual(a: seq<Octet>, b: seq<Octet>, len: nat) returns (equal: bool)
    requires len <= |a| && len <= |b|
    ensures equal <==> a[..len] == b[..len]
  {
    var diff := 0;
    for i := 0 to len
      invariant diff == 0 <==> forall k :: 0 <= k < i ==> a[k] == b[k]
      invariant diff >= 0
    {
      XorZero(a[i], b[i]);
      OrZero(diff, Xor(a[i], b[i]));
      diff := Or(diff, Xor(a[i], b[i]));
    }
    equal := diff == 0;
  }

  /** jid_localpart_has_forbidden. */
  method LocalpartHasForbidden(s: string) returns (found: bool)
    ensures found <==> HasForbidden(s)
  {
    for i := 0 to |s|
      invariant forall k :: 0 <= k < i ==> s[k] !in FORBIDDEN
    {
      if s[i] in FORBIDDEN {
        return true;
      }
    }
    return false;
  }

  /** One of the two scans for a NUL from `from`: the position behind it. */
  method ScanNul(data: array<Octet>, len: nat, from: nat) returns (p: Option<nat>)
    requires from <= len <= data.Length
    ensures var y := FirstNul(data[from..len]);
            p == if y == len - from then None else Some(from + y + 1)
  {
    for i := from to len
      invariant forall k :: from <= k < i ==> data[k] != 0
    {
      if data[i] == 0 {
        ghost var rest := data[from..len];
        assert rest[i - from] == 0;
        assert forall k :: 0 <= k < i - from ==> rest[k] == data[from + k];
        return Some(i + 1);
      }
    }
    ghost var rest := data[from..len];
    assert forall k :: 0 <= k < |rest| ==> rest[k] == data[from + k];
    return None;
  }

  /** The second half of the handler, on the three fields. */
  method CheckAccount(users: Users, domain: string, authzid: seq<Octet>, authcid: seq<Octet>, passwd: seq<Octet>)
    returns (r: Outcome)
    ensures r == Decide(users, domain, authzid, authcid, passwd)
  {
    if |authcid| == 0 {
      return Outcome(Terminal, None);
    }
    var bad := LocalpartHasForbidden(Text(authcid));
    if bad {
      return Outcome(Terminal, None);
    }
    hide HasForbidden, Text;
    var kept := Some(Cut(Text(authcid), AUTHCID_BUF_SIZE));
    var jid := Text(authcid) + "@" + domain;
    if |jid| >= BARE_JID_BUF_SIZE {
      return Outcome(Terminal, kept);
    }
    if jid !in users {
      return Outcome(Retry, kept);
    }
    if users[jid].disabled {
      return Outcome(Terminal, kept);
    }
    var stored := users[jid].password;
    if stored.None? || |stored.value| != |passwd| {
      return Outcome(Retry, kept);
    }
    var same := ConstantTimeEqual(stored.value, passwd, |passwd|);
    assert stored.value[..|passwd|] == stored.value && passwd[..|passwd|] == passwd;
    if !same {
      return Outcome(Retry, kept);
    }
    if |authzid| > 0 {
      if Cut(Text(authzid), BARE_JID_BUF_SIZE) != jid {
        return Outcome(Terminal, kept);
      }
    }
    return Outcome(Granted, kept);
  }

  /** handle_sasl_plain. */
  method HandleSaslPlain(users: Users, domain: string, b64: string) returns (r: Outcome)
    requires '\0' !in b64
    ensures r == PlainOutcome(users, domain, Decode(b64))
  {
    hide Decide, Decode;
    var decoded, len := Base64Decode(b64);
    var data := decoded[..len];
    assert decoded[0..len] == data;
    var p := ScanNul(decoded, len, 0);
    if p.None? {
      return Outcome(Terminal, None);
    }
    var start := p.value;
    var rest := data[start..];
    assert decoded[start..len] == rest;
    var q := ScanNul(decoded, len, start);
    if q.None? || q.value == len {
      return Outcome(Terminal, None);
    }
    r := CheckAccount(users, domain, data[..start - 1], rest[..q.value - 1 - start], rest[q.value - start..]);
  }
}
