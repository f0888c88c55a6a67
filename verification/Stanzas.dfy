/** Bounded stanza building: `iq_append` of xmpp_iq_buf.h, and the texts that
    xmpp_message.c, xep-0160-offline-messages.c and xep-0184-receipts.c build with it. */
module Stanzas {
  import opened Options
  import opened Jids

  const IQ_BUF_SIZE: nat := 65536

  /** A caller's buffer with the length it has filled so far. */
  class Buffer {
    const data: array<char>
    var len: nat

    ghost predicate Valid()
      reads this
    {
      len < data.Length
    }

    ghost function Contents(): string
      requires Valid()
      reads this, data
    {
      data[..len]
    }

    constructor (cap: nat)
      requires cap > 0
      ensures Valid() && fresh(data) && data.Length == cap && Contents() == ""
    {
      data := new char[cap](_ => '\0');
      len := 0;
    }

    /** All or nothing: the length moves only when the whole text and its
        terminator fit; a text that does not fit is still written truncated
        behind the length, never outside the buffer. */
    method Append(text: string) returns (ok: bool)
      requires Valid()
      modifies this`len, data
      ensures Valid()
      ensures ok <==> old(len) + |text| < data.Length
      ensures Contents() == old(Contents()) + if ok then text else ""
    {
      var room := data.Length - len;
      var kept := if |text| < room then |text| else room - 1;
      var k := 0;
      while k < kept
        invariant k <= kept && len == old(len)
        invariant data[..len] == old(data[..len])
        invariant data[len..len + k] == text[..k]
      {
        data[len + k] := text[k];
        k := k + 1;
      }
      data[len + kept] := '\0';
      if |text| >= room {
        return false;
      }
      assert data[..len + |text|] == data[..len] + data[len..len + |text|];
      len := len + |text|;
      return true;
    }
  }

  function Attribute(name: string, value: Option<string>): string {
    match value
    case None => ""
    case Some(v) => " " + name + "='" + v + "'"
  }

  function Tag(from: string, to: string, kind: Option<string>, id: Option<string>): string {
    Attribute("from", Some(from)) + (Attribute("to", Some(to)) + (Attribute("type", kind) + Attribute("id", id)))
  }

  function Opening(from: string, to: string, kind: Option<string>, id: Option<string>): string {
    "<message" + Tag(from, to, kind, id) + ">"
  }

  function BodyElement(body: Option<string>): string {
    if body.Some? && body.value != "" then "<body>" + body.value + "</body>" else ""
  }

  /** The forwarded stanza. */
  function MessageText(from: string, to: string, kind: Option<string>, id: Option<string>,
                       body: Option<string>): string {
    Opening(from, to, kind, id) + BodyElement(body) + "</message>"
  }

  /** What build_message yields in a 65536-octet buffer. */
  function Built(from: string, to: string, kind: Option<string>, id: Option<string>,
                 body: Option<string>): (r: Option<string>)
    ensures r.Some? ==> |r.value| < IQ_BUF_SIZE
  {
    var text := MessageText(from, to, kind, id, body);
    if |text| < IQ_BUF_SIZE then Some(text) else None
  }

  /** build_message appends piece by piece and gives up at the first piece
      that does not fit: it succeeds exactly when the whole text fits, and then
      the buffer holds that text. */
  method AppendPieces(head: string, body: string, tail: string) returns (r: Option<string>)
    ensures r == if |head + body + tail| <= 65535 then Some(head + body + tail) else None
  {
    var buf := new Buffer(IQ_BUF_SIZE);
    var ok := buf.Append(head);
    if !ok {
      return None;
    }
    if body != "" {
      ok := buf.Append(body);
      if !ok {
        return None;
      }
    }
    assert buf.Contents() == head + body;
    ok := buf.Append(tail);
    if !ok {
      return None;
    }
    r := Some(buf.data[..buf.len]);
  }

  method BuildMessage(from: string, to: string, kind: Option<string>, id: Option<string>,
                      body: Option<string>)
    returns (r: Option<string>)
    ensures r == Built(from, to, kind, id, body)
    ensures var text := MessageText(from, to, kind, id, body); r == if |text| <= 65535 then Some(text) else None
  {
    r := AppendPieces(Opening(from, to, kind, id), BodyElement(body), "</message>");
  }

  const STANZAS_NS := "urn:ietf:params:xml:ns:xmpp-stanzas"

  /** send_message_error into its 512-octet buffer; None when it does not fit. */
  function ErrorText(id: Option<string>, to: string, errorType: string, condition: string): Option<string> {
    var text := "<message" + ErrorTag(id, to) + "><error" + Attribute("type", Some(errorType)) + "><"
                + condition + Attribute("xmlns", Some(STANZAS_NS)) + "/></error></message>";
    if |text| < 512 then Some(text) else None
  }

  function ErrorTag(id: Option<string>, to: string): string {
    Attribute("type", Some("error")) + (Attribute("id", id) + Attribute("to", Some(to)))
  }

  /** xep0184_send_receipt into its 1024-octet buffer. */
  function ReceiptText(from: string, to: string, id: string): Option<string> {
    var text := "<message" + Pair("from", from, "to", to) + "><received"
                + Pair("xmlns", "urn:xmpp:receipts", "id", id) + "/></message>";
    if |text| < 1024 then Some(text) else None
  }

  function Pair(n: string, v: string, m: string, w: string): string {
    Attribute(n, Some(v)) + Attribute(m, Some(w))
  }

  // -------------------------------------------------- reading a stanza back

  /** The attributes a reader finds behind a tag name: name and value, in order. */
  function Attributes(s: string): seq<(string, string)>
    decreases |s|
  {
    var eq := Find(s, '=');
    if s == "" || s[0] != ' ' || eq == 0 || eq + 2 > |s| then [] else
      var rest := s[eq + 2..];
      var quote := Find(rest, '\'');
      if quote == |rest| then [] else [(s[1..eq], rest[..quote])] + Attributes(rest[quote + 1..])
  }

  /** One attribute in single quotes is read as its name and its value. */
  lemma {:induction false} AttributeRead(name: string, value: string, tail: string)
    requires '=' !in name && '\'' !in value
    ensures Attributes(" " + name + "='" + value + "'" + tail) == [(name, value)] + Attributes(tail)
  {
    hide Attributes, Find;
    var rest := value + "'" + tail;
    var s := " " + name + "='" + rest;
    NameEnds(name, rest);
    ValueEnds(value, tail);
    AttributesStep(s, |name| + 1, |value|);
    assert Attributes(s) == [(name, value)] + Attributes(tail);
    assert " " + name + "='" + value + "'" + tail == s by { Regrouped(" " + name + "='", value, "'", tail); }
  }

  lemma {:induction false} Regrouped(a: string, b: string, c: string, d: string)
    ensures a + b + c + d == a + (b + c + d)
  {
  }

  lemma {:induction false} NameEnds(name: string, rest: string)
    requires '=' !in name
    ensures var s := " " + name + "='" + rest;
            && s != "" && s[0] == ' ' && Find(s, '=') == |name| + 1 && |name| + 3 <= |s|
            && s[1..|name| + 1] == name && s[|name| + 3..] == rest
  {
    var s, head := " " + name + "='" + rest, " " + name;
    assert s == head + ['='] + ("'" + rest);
    FindInConcat(head, '=', "'" + rest);
  }

  lemma {:induction false} ValueEnds(value: string, tail: string)
    requires '\'' !in value
    ensures var s := value + "'" + tail;
            && |value| < |s| && Find(s, '\'') == |value| && s[..|value|] == value && s[|value| + 1..] == tail
  {
    assert value + "'" + tail == value + ['\''] + tail;
    FindInConcat(value, '\'', tail);
  }

  lemma {:induction false} AttributesStep(s: string, eq: nat, quote: nat)
    requires s != "" && s[0] == ' ' && 0 < eq == Find(s, '=') && eq + 2 <= |s|
    requires quote == Find(s[eq + 2..], '\'') < |s[eq + 2..]|
    ensures Attributes(s) == [(s[1..eq], s[eq + 2..][..quote])] + Attributes(s[eq + 2..][quote + 1..])
  {
    hide Find;
  }

  /** A quote inside the value ends it early. */
  lemma {:induction false} AttributeCut(name: string, value: string, tail: string)
    requires '=' !in name && '\'' in value
    ensures var found := Attributes(" " + name + "='" + value + "'" + tail);
            found != [] && found[0] != (name, value)
  {
    hide Attributes, Find;
    var rest, quote := value + "'" + tail, Find(value, '\'');
    var s := " " + name + "='" + rest;
    NameEnds(name, rest);
    assert rest == value + ("'" + tail);
    FirstQuote(value, "'" + tail);
    AttributesStep(s, |name| + 1, quote);
    assert " " + name + "='" + value + "'" + tail == s by { Regrouped(" " + name + "='", value, "'", tail); }
  }

  lemma {:induction false} FirstQuote(value: string, more: string)
    requires '\'' in value
    ensures Find(value + more, '\'') == Find(value, '\'') < |value|
  {
    var quote := Find(value, '\'');
    assert value + more == value[..quote] + ['\''] + (value[quote + 1..] + more);
    FindInConcat(value[..quote], '\'', value[quote + 1..] + more);
  }

  lemma {:induction false} AttributesEnd(tail: string)
    requires tail == "" || tail[0] != ' '
    ensures Attributes(tail) == []
  {
  }

  function Given(name: string, value: Option<string>): seq<(string, string)> {
    match value case None => [] case Some(v) => [(name, v)]
  }

  predicate Quotable(value: Option<string>) {
    value.Some? ==> '\'' !in value.value
  }

  /** An attribute is read back if and only if its value holds no quote. */
  lemma {:induction false} OptionRead(name: string, value: Option<string>, tail: string,
                                      more: seq<(string, string)>)
    requires '=' !in name
    ensures Attributes(Attribute(name, value) + tail) == Given(name, value) + more
            <==> Quotable(value) && Attributes(tail) == more
  {
    hide Attributes;
    match value
    case None =>
      assert "" + tail == tail && [] + more == more;
    case Some(v) =>
      if '\'' in v {
        AttributeCut(name, v, tail);
      } else {
        AttributeRead(name, v, tail);
        assert ([(name, v)] + more)[1..] == more && ([(name, v)] + Attributes(tail))[1..] == Attributes(tail);
      }
  }

  lemma {:induction false} LastRead(name: string, value: Option<string>)
    requires '=' !in name
    ensures Attributes(Attribute(name, value)) == Given(name, value) <==> Quotable(value)
  {
    hide Attributes, Attribute, Given;
    AttributesEnd("");
    OptionRead(name, value, "", []);
    assert Attribute(name, value) + "" == Attribute(name, value);
    assert Given(name, value) + [] == Given(name, value);
  }

  /** A forwarded message holds the body, unless that is missing or empty, behind
      its tag. Reading the tag back gives its sender, its recipient, its type and
      its id under their names, in this order, if and only if no value holds a
      quote. */
  lemma {:induction false} MessageRead(from: string, to: string, kind: Option<string>, id: Option<string>,
                                       body: Option<string>)
    ensures var content := if body == None || body == Some("") then "" else "<body>" + body.value + "</body>";
            MessageText(from, to, kind, id, body)
            == "<message" + Tag(from, to, kind, id) + ">" + content + "</message>"
    ensures Attributes(Tag(from, to, kind, id)) == [("from", from), ("to", to)] + Given("type", kind) + Given("id", id)
            <==> '\'' !in from && '\'' !in to && Quotable(kind) && Quotable(id)
  {
    hide Attributes, Tag, Given;
    TagRead(from, to, kind, id);
  }

  lemma {:induction false} TagRead(from: string, to: string, kind: Option<string>, id: Option<string>)
    ensures Attributes(Tag(from, to, kind, id)) == [("from", from), ("to", to)] + Given("type", kind) + Given("id", id)
            <==> '\'' !in from && '\'' !in to && Quotable(kind) && Quotable(id)
  {
    hide Attributes, Attribute;
    var fourth := Attribute("id", id);
    var third := Attribute("type", kind) + fourth;
    var rest := Given("type", kind) + Given("id", id);
    LastRead("id", id);
    OptionRead("type", kind, fourth, Given("id", id));
    OptionRead("to", Some(to), third, rest);
    OptionRead("from", Some(from), Attribute("to", Some(to)) + third, [("to", to)] + rest);
    assert [("from", from), ("to", to)] + Given("type", kind) + Given("id", id)
        == [("from", from)] + ([("to", to)] + rest);
  }

  /** An error is sent exactly if it is shorter than 512 octets, and carries the
      condition in its namespace. Reading it back gives the id of the message and
      the addressee, and the error type, if and only if they hold no quote. */
  lemma {:induction false} ErrorRead(id: Option<string>, to: string, errorType: string, condition: string)
    ensures var tag, inner := ErrorTag(id, to), Attribute("type", Some(errorType));
            var ns := Attribute("xmlns", Some("urn:ietf:params:xml:ns:xmpp-stanzas"));
            var text := "<message" + tag + "><error" + inner + "><" + condition + ns + "/></error></message>";
            && ErrorText(id, to, errorType, condition) == (if |text| < 512 then Some(text) else None)
            && (Attributes(tag) == [("type", "error")] + Given("id", id) + [("to", to)]
                <==> Quotable(id) && '\'' !in to)
            && (Attributes(inner) == [("type", errorType)] <==> '\'' !in errorType)
            && Attributes(ns) == [("xmlns", "urn:ietf:params:xml:ns:xmpp-stanzas")]
  {
    hide Attributes, Attribute, ErrorTag;
    ErrorTagRead(id, to);
    LastRead("type", Some(errorType));
    LastRead("xmlns", Some(STANZAS_NS));
  }

  lemma {:induction false} ErrorTagRead(id: Option<string>, to: string)
    ensures Attributes(ErrorTag(id, to)) == [("type", "error")] + Given("id", id) + [("to", to)]
            <==> Quotable(id) && '\'' !in to
  {
    hide Attributes, Attribute;
    var last := Attribute("to", Some(to));
    LastRead("to", Some(to));
    OptionRead("id", id, last, [("to", to)]);
    OptionRead("type", Some("error"), Attribute("id", id) + last, Given("id", id) + [("to", to)]);
    assert [("type", "error")] + Given("id", id) + [("to", to)]
        == [("type", "error")] + (Given("id", id) + [("to", to)]);
  }

  /** A receipt is sent exactly if it is shorter than 1024 octets. Reading it back
      gives the session's JID, the sender named in the message, and the id of the
      message in the namespace of receipts, if and only if they hold no quote. */
  lemma {:induction false} ReceiptRead(from: string, to: string, id: string)
    ensures var tag, inner := Pair("from", from, "to", to), Pair("xmlns", "urn:xmpp:receipts", "id", id);
            var text := "<message" + tag + "><received" + inner + "/></message>";
            && ReceiptText(from, to, id) == (if |text| < 1024 then Some(text) else None)
            && (Attributes(tag) == [("from", from), ("to", to)] <==> '\'' !in from && '\'' !in to)
            && (Attributes(inner) == [("xmlns", "urn:xmpp:receipts"), ("id", id)] <==> '\'' !in id)
  {
    hide Attributes, Pair;
    PairRead("from", from, "to", to);
    PairRead("xmlns", "urn:xmpp:receipts", "id", id);
  }

  lemma {:induction false} PairRead(n: string, v: string, m: string, w: string)
    requires '=' !in n && '=' !in m
    ensures Attributes(Pair(n, v, m, w)) == [(n, v), (m, w)] <==> '\'' !in v && '\'' !in w
  {
    hide Attributes, Attribute;
    LastRead(m, Some(w));
    OptionRead(n, Some(v), Attribute(m, Some(w)), [(m, w)]);
    assert [(n, v), (m, w)] == [(n, v)] + [(m, w)];
  }
}
