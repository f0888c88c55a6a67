/** The offline store of storage/db_offline.c: quota, listing order, drain,
    and the splice of the delay element. */
module Offline {
  import opened Options
  import opened Jids
  import opened Stanzas

  const OFFLINE_MAX_MESSAGES: nat := 100
  const OFFLINE_MAX_BYTES: nat := 1048576
  const DELAYED_BUF_SIZE: nat := 65536

  /** A row of offline_messages; bytes_size is |xml|. */
  datatype Row = Row(recipient: Jid, sender: Jid, xml: string, receivedAt: int)

  /** WHERE recipient_jid = r, in insertion order. */
  function Pending(rows: seq<Row>, r: Jid): seq<Row> {
    if rows == [] then [] else
      Pending(rows[..|rows| - 1], r)
      + if rows[|rows| - 1].recipient == r then [rows[|rows| - 1]] else []
  }

  /** SUM(bytes_size). */
  function Bytes(rows: seq<Row>): nat {
    if rows == [] then 0 else Bytes(rows[..|rows| - 1]) + |rows[|rows| - 1].xml|
  }

  predicate Capped(rows: seq<Row>, r: Jid) {
    |Pending(rows, r)| >= OFFLINE_MAX_MESSAGES || Bytes(Pending(rows, r)) >= OFFLINE_MAX_BYTES
  }

  /** DELETE WHERE recipient_jid = r. */
  function Without(rows: seq<Row>, r: Jid): seq<Row> {
    if rows == [] then [] else
      Without(rows[..|rows| - 1], r)
      + if rows[|rows| - 1].recipient != r then [rows[|rows| - 1]] else []
  }

  lemma {:induction false} PendingConcat(a: seq<Row>, b: seq<Row>, r: Jid)
    ensures Pending(a + b, r) == Pending(a, r) + Pending(b, r)
  {
    if b == [] {
      assert a + b == a;
    } else {
      assert (a + b)[..|a + b| - 1] == a + b[..|b| - 1];
      PendingConcat(a, b[..|b| - 1], r);
    }
  }

  lemma {:induction false} PendingOne(x: Row, r: Jid)
    ensures Pending([x], r) == if x.recipient == r then [x] else []
  {
    assert [x][..0] == [];
  }

  lemma {:induction false} PendingMember(rows: seq<Row>, r: Jid, x: Row)
    ensures x in Pending(rows, r) <==> x in rows && x.recipient == r
  {
    if rows != [] {
      assert rows == rows[..|rows| - 1] + [rows[|rows| - 1]];
      PendingMember(rows[..|rows| - 1], r, x);
    }
  }

  lemma {:induction false} WithoutMember(rows: seq<Row>, r: Jid, x: Row)
    ensures x in Without(rows, r) <==> x in rows && x.recipient != r
  {
    if rows != [] {
      assert rows == rows[..|rows| - 1] + [rows[|rows| - 1]];
      WithoutMember(rows[..|rows| - 1], r, x);
    }
  }

  /** Deleting one recipient's rows leaves every other queue as it was. */
  lemma {:induction false} PendingWithout(rows: seq<Row>, r: Jid, q: Jid)
    ensures Pending(Without(rows, r), q) == if q == r then [] else Pending(rows, q)
  {
    if rows != [] {
      var front, last := rows[..|rows| - 1], rows[|rows| - 1];
      PendingWithout(front, r, q);
      if last.recipient == r {
        assert Without(rows, r) == Without(front, r);
      } else {
        assert Without(rows, r) == Without(front, r) + [last];
        PendingConcat(Without(front, r), [last], q);
        PendingOne(last, q);
      }
    }
  }

  lemma {:induction false} PendingAll(rows: seq<Row>, r: Jid, q: Jid)
    requires forall x :: x in rows ==> x.recipient == r
    ensures Pending(rows, q) == if q == r then rows else []
  {
    if rows != [] {
      assert rows == rows[..|rows| - 1] + [rows[|rows| - 1]];
      PendingAll(rows[..|rows| - 1], r, q);
    }
  }

  lemma {:induction false} BytesAppend(rows: seq<Row>, x: Row)
    ensures Bytes(rows + [x]) == Bytes(rows) + |x.xml|
  {
    assert (rows + [x])[..|rows|] == rows;
  }

  /** The cap is compared before the insert, so an accepted message keeps the
      queue within it exactly when there is room for the whole message. */
  lemma {:induction false} StoreWithinCapIff(rows: seq<Row>, x: Row)
    ensures Bytes(Pending(rows + [x], x.recipient)) <= OFFLINE_MAX_BYTES
            <==> Bytes(Pending(rows, x.recipient)) + |x.xml| <= OFFLINE_MAX_BYTES
  {
    PendingConcat(rows, [x], x.recipient);
    PendingOne(x, x.recipient);
    BytesAppend(Pending(rows, x.recipient), x);
  }

  // ---------------------------------------------------- ORDER BY received_at

  ghost predicate InTimeOrder(rows: seq<Row>) {
    forall i, j :: 0 <= i < j < |rows| ==> rows[i].receivedAt <= rows[j].receivedAt
  }

  function Insert(rows: seq<Row>, x: Row): seq<Row> {
    if rows == [] || rows[|rows| - 1].receivedAt <= x.receivedAt then rows + [x]
    else Insert(rows[..|rows| - 1], x) + [rows[|rows| - 1]]
  }

  /** The listing: by time, equal times in insertion order. */
  function ByTime(rows: seq<Row>): seq<Row> {
    if rows == [] then [] else Insert(ByTime(rows[..|rows| - 1]), rows[|rows| - 1])
  }

  lemma {:induction false} InsertFacts(rows: seq<Row>, x: Row)
    ensures multiset(Insert(rows, x)) == multiset(rows) + multiset{x}
    ensures |Insert(rows, x)| == |rows| + 1
  {
    if rows != [] && rows[|rows| - 1].receivedAt > x.receivedAt {
      assert rows == rows[..|rows| - 1] + [rows[|rows| - 1]];
      InsertFacts(rows[..|rows| - 1], x);
    }
  }

  lemma {:induction false} InsertMember(rows: seq<Row>, x: Row, i: nat)
    requires i < |Insert(rows, x)|
    ensures Insert(rows, x)[i] in rows || Insert(rows, x)[i] == x
  {
    InsertFacts(rows, x);
    assert Insert(rows, x)[i] in multiset(Insert(rows, x));
  }

  lemma {:induction false} InsertKeeps(rows: seq<Row>, x: Row)
    requires InTimeOrder(rows)
    ensures InTimeOrder(Insert(rows, x))
  {
    if rows != [] && rows[|rows| - 1].receivedAt > x.receivedAt {
      var front, last := rows[..|rows| - 1], rows[|rows| - 1];
      InsertKeeps(front, x);
      forall i | 0 <= i < |Insert(front, x)|
        ensures Insert(front, x)[i].receivedAt <= last.receivedAt
      {
        InsertMember(front, x, i);
      }
    }
  }

  /** The listing is in time order and holds exactly the selected rows. */
  lemma {:induction false} ByTimeSorts(rows: seq<Row>)
    ensures InTimeOrder(ByTime(rows))
    ensures multiset(ByTime(rows)) == multiset(rows)
    ensures |ByTime(rows)| == |rows|
  {
    if rows != [] {
      assert rows == rows[..|rows| - 1] + [rows[|rows| - 1]];
      ByTimeSorts(rows[..|rows| - 1]);
      InsertKeeps(ByTime(rows[..|rows| - 1]), rows[|rows| - 1]);
      InsertFacts(ByTime(rows[..|rows| - 1]), rows[|rows| - 1]);
    }
  }

  lemma {:induction false} ByTimeOfOrdered(rows: seq<Row>)
    requires InTimeOrder(rows)
    ensures ByTime(rows) == rows
  {
    if rows != [] {
      var front, last := rows[..|rows| - 1], rows[|rows| - 1];
      assert rows == front + [last];
      ByTimeOfOrdered(front);
      assert Insert(front, last) == front + [last];
    }
  }

  // ------------------------------------------------------- the delay element

  function DelayElement(stamp: string, recipient: Jid): string {
    "<delay" + DelayTag(stamp, recipient) + "/>"
  }

  function DelayTag(stamp: string, recipient: Jid): string {
    Attribute("xmlns", Some("urn:xmpp:delay")) + Pair("stamp", stamp, "from", recipient)
  }

  /** Reading a delay element back gives its namespace, the time the message was
      stored and the recipient's bare JID, if and only if they hold no quote. */
  lemma {:induction false} DelayRead(stamp: string, recipient: Jid)
    ensures DelayElement(stamp, recipient) == "<delay" + DelayTag(stamp, recipient) + "/>"
    ensures Attributes(DelayTag(stamp, recipient))
            == [("xmlns", "urn:xmpp:delay"), ("stamp", stamp), ("from", recipient)]
            <==> '\'' !in stamp && '\'' !in recipient
  {
    hide Attributes, Attribute, Pair;
    var more := [("stamp", stamp), ("from", recipient)];
    PairRead("stamp", stamp, "from", recipient);
    OptionRead("xmlns", Some("urn:xmpp:delay"), Pair("stamp", stamp, "from", recipient), more);
    assert [("xmlns", "urn:xmpp:delay"), ("stamp", stamp), ("from", recipient)] == [("xmlns", "urn:xmpp:delay")] + more;
  }

  /** What drain_cb hands to the writer. */
  function Delayed(xml: string, delay: string): (out: string)
  {
    var gt := Find(xml, '>');
    if gt < |xml| && |xml| + |delay| < DELAYED_BUF_SIZE
    then xml[..gt + 1] + delay + xml[gt + 1..]
    else xml
  }

  /** The splice sits right behind the first '>' and can always be undone. */
  lemma DelayedUndone(xml: string, delay: string)
    ensures '>' in xml && |xml| + |delay| <= 65535 ==>
              exists k :: && 0 < k <= |xml| && xml[k - 1] == '>' && '>' !in xml[..k - 1]
                          && Delayed(xml, delay)[k..][..|delay|] == delay
                          && Delayed(xml, delay)[..k] + Delayed(xml, delay)[k..][|delay|..] == xml
    ensures '>' !in xml || |xml| + |delay| >= 65536 ==> Delayed(xml, delay) == xml
  {
    if '>' in xml && |xml| + |delay| < DELAYED_BUF_SIZE {
      var k := Find(xml, '>') + 1;
      var out := Delayed(xml, delay);
      assert out[..k] == xml[..k];
      assert out[k..] == delay + xml[k..];
      assert out[k..][|delay|..] == xml[k..];
      assert out[k..][..|delay|] == delay;
      assert xml[..k] + xml[k..] == xml;
    }
  }

  /** Copies `text` into `buf` at `at`: memcpy, in bounds. */
  method CopyInto(buf: array<char>, at: nat, text: string)
    requires at + |text| <= buf.Length
    modifies buf
    ensures buf[..at] == old(buf[..at])
    ensures buf[at..at + |text|] == text
  {
    var k := 0;
    while k < |text|
      invariant k <= |text|
      invariant buf[..at] == old(buf[..at])
      invariant buf[at..at + k] == text[..k]
    {
      buf[at + k] := text[k];
      k := k + 1;
    }
  }

  /** drain_cb: fills its 65536-octet buffer step by step, falling back to the
      stored text at each of its three size checks. */
  method DrainCallback(xml: string, delay: string) returns (out: string)
    ensures out == Delayed(xml, delay)
  {
    var delayed := new char[DELAYED_BUF_SIZE];
    var gt := Find(xml, '>');
    if gt == |xml| {
      return xml;
    }
    var openingLen := gt + 1;
    if openingLen >= DELAYED_BUF_SIZE {
      return xml;
    }
    CopyInto(delayed, 0, xml[..openingLen]);
    if |delay| >= DELAYED_BUF_SIZE - openingLen {
      return xml;
    }
    CopyInto(delayed, openingLen, delay);
    var len := openingLen + |delay|;
    assert delayed[..len] == xml[..openingLen] + delay by {
      assert delayed[..len] == delayed[..openingLen] + delayed[openingLen..len];
    }
    var tailLen := |xml| - openingLen;
    if len + tailLen >= DELAYED_BUF_SIZE {
      return xml;
    }
    CopyInto(delayed, len, xml[openingLen..]);
    assert delayed[..len + tailLen] == delayed[..len] + delayed[len..len + tailLen];
    delayed[len + tailLen] := '\0';
    out := delayed[..len + tailLen];
  }

  // ------------------------------------------------------------- the table

  /** The table, with the history of what it accepted and handed out. */
  class OfflineStore {
    var rows: seq<Row>
    ghost var accepted: seq<Row>
    ghost var handed: seq<Row>
    const stamp: int -> string

    constructor (stamp: int -> string)
      ensures rows == [] && accepted == [] && handed == [] && this.stamp == stamp
    {
      rows, accepted, handed := [], [], [];
      this.stamp := stamp;
    }

    /** offline_store: false is the source's -2, the recipient is at its cap. */
    method Store(recipient: Jid, sender: Jid, xml: string, now: int) returns (ok: bool)
      modifies this
      ensures ok <==> !Capped(old(rows), recipient)
      ensures ok <==> |Pending(old(rows), recipient)| <= 99 && Bytes(Pending(old(rows), recipient)) <= 1048575
      ensures rows == old(rows) + if ok then [Row(recipient, sender, xml, now)] else []
      ensures accepted == old(accepted) + if ok then [Row(recipient, sender, xml, now)] else []
      ensures handed == old(handed)
      ensures ok ==> (Bytes(Pending(rows, recipient)) <= OFFLINE_MAX_BYTES
                      <==> Bytes(Pending(old(rows), recipient)) + |xml| <= OFFLINE_MAX_BYTES)
    {
      StoreWithinCapIff(rows, Row(recipient, sender, xml, now));
      hide Pending, Bytes;
      var mine := Pending(rows, recipient);
      if |mine| >= OFFLINE_MAX_MESSAGES || Bytes(mine) >= OFFLINE_MAX_BYTES {
        return false;
      }
      rows := rows + [Row(recipient, sender, xml, now)];
      accepted := accepted + [Row(recipient, sender, xml, now)];
      return true;
    }

    /** offline_drain up to the writer: `out` is what the writer is handed. */
    method Drain(recipient: Jid) returns (out: seq<string>)
      modifies this
      ensures rows == Without(old(rows), recipient)
      ensures handed == old(handed) + ByTime(Pending(old(rows), recipient))
      ensures accepted == old(accepted)
      ensures out == Replays(ByTime(Pending(old(rows), recipient)), recipient, stamp)
    {
      hide Delayed, DelayElement, Replays;
      var list := ByTime(Pending(rows, recipient));
      ReplaysNone(recipient, stamp);
      assert list[..0] == [];
      out := [];
      var i := 0;
      while i < |list|
        invariant i <= |list|
        invariant out == Replays(list[..i], recipient, stamp)
        invariant handed == old(handed) + list[..i]
        invariant rows == old(rows) && accepted == old(accepted)
      {
        var text := DrainCallback(list[i].xml, DelayElement(stamp(list[i].receivedAt), recipient));
        ReplaysStep(list, i, recipient, stamp);
        assert list[..i + 1] == list[..i] + [list[i]];
        out := out + [text];
        handed := handed + [list[i]];
        i := i + 1;
      }
      assert list[..i] == list;
      rows := Without(rows, recipient);
    }
  }

  ghost function Replays(list: seq<Row>, recipient: Jid, stamp: int -> string): seq<string> {
    if list == [] then [] else
      var x := list[|list| - 1];
      Replays(list[..|list| - 1], recipient, stamp)
      + [Delayed(x.xml, DelayElement(stamp(x.receivedAt), recipient))]
  }

  lemma {:induction false} ReplaysNone(recipient: Jid, stamp: int -> string)
    ensures Replays([], recipient, stamp) == []
  {
  }

  lemma {:induction false} ReplaysStep(list: seq<Row>, i: nat, recipient: Jid, stamp: int -> string)
    requires i < |list|
    ensures Replays(list[..i + 1], recipient, stamp)
            == Replays(list[..i], recipient, stamp)
               + [Delayed(list[i].xml, DelayElement(stamp(list[i].receivedAt), recipient))]
  {
    hide Delayed, DelayElement;
    assert list[..i + 1][..i] == list[..i];
  }
}
