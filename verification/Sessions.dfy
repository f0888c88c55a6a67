/** The session table of xmpp_session.c and xep-0280-carbons.c: a compact
    array with swap-with-last removal, and its view as a finite map. */
module Sessions {
  import opened Options
  import opened Jids

  /** A transport (write_fn/write_ud pair). */
  type Sink = nat

  const SESSION_TABLE_CAP: nat := 256

  datatype Entry = Entry(jid: Jid, sink: Sink, lastActive: nat, priority: int, carbons: bool)

  datatype Direction = Sent | Received

  datatype Packet =
    | Forwarded(xml: string)
    | Carbon(dir: Direction, owner: Jid, from: Jid, to: string,
             kind: Option<string>, id: Option<string>, body: Option<string>)
    | Notice(xml: string)
    | Replayed(xml: string)
    | PresenceFrom(full: Jid, kind: Option<string>)
    | Subscription(verb: string, from: Jid, to: Jid)
    | RosterPush(contact: Jid, name: string, subscription: string, ask: bool)

  /** A successful write: to a registered session, or straight back to the
      connection whose stanza is being handled. */
  datatype Write =
    | ToSession(jid: Jid, sink: Sink, packet: Packet)
    | ToSender(sink: Sink, packet: Packet)

  // ---------------------------------------------------------------- the map

  ghost predicate Distinct(s: seq<Entry>) {
    forall i, j :: 0 <= i < j < |s| ==> s[i].jid != s[j].jid
  }

  ghost function AsMap(s: seq<Entry>): map<Jid, Entry> {
    if s == [] then map[] else AsMap(s[..|s| - 1])[s[|s| - 1].jid := s[|s| - 1]]
  }

  lemma {:induction false} AsMapFacts(s: seq<Entry>)
    requires Distinct(s)
    ensures forall i :: 0 <= i < |s| ==> s[i].jid in AsMap(s) && AsMap(s)[s[i].jid] == s[i]
    ensures forall k :: k in AsMap(s) ==> exists i :: 0 <= i < |s| && s[i].jid == k
  {
    if s != [] {
      var front := s[..|s| - 1];
      AsMapFacts(front);
      forall k | k in AsMap(s)
        ensures exists i :: 0 <= i < |s| && s[i].jid == k
      {
        if k != s[|s| - 1].jid {
          assert k in AsMap(front);
          var i :| 0 <= i < |front| && front[i].jid == k;
          assert s[i].jid == k;
        }
      }
      forall i | 0 <= i < |s|
        ensures s[i].jid in AsMap(s) && AsMap(s)[s[i].jid] == s[i]
      {
        if i < |s| - 1 {
          assert front[i] == s[i];
        }
      }
    }
  }

  /** The map view is the only map with these entries. */
  lemma {:induction false} AsMapUnique(s: seq<Entry>, m: map<Jid, Entry>)
    requires Distinct(s)
    requires forall i :: 0 <= i < |s| ==> s[i].jid in m && m[s[i].jid] == s[i]
    requires forall k :: k in m ==> exists i :: 0 <= i < |s| && s[i].jid == k
    ensures AsMap(s) == m
  {
    AsMapFacts(s);
    forall k | k in AsMap(s)
      ensures k in m && AsMap(s)[k] == m[k]
    {
      var i :| 0 <= i < |s| && s[i].jid == k;
    }
    forall k | k in m
      ensures k in AsMap(s)
    {
      var i :| 0 <= i < |s| && s[i].jid == k;
    }
  }

  /** Updating a slot in place changes that key and no other. */
  lemma {:induction false} UpdateRefines(s: seq<Entry>, i: nat, e: Entry)
    requires Distinct(s) && i < |s| && e.jid == s[i].jid
    ensures Distinct(s[i := e])
    ensures AsMap(s[i := e]) == AsMap(s)[e.jid := e]
  {
    var t, m := s[i := e], AsMap(s)[e.jid := e];
    AsMapFacts(s);
    forall k | k in m
      ensures exists j :: 0 <= j < |t| && t[j].jid == k
    {
      var j :| 0 <= j < |s| && s[j].jid == k;
      assert t[j].jid == k;
    }
    AsMapUnique(t, m);
  }

  /** Removal by moving the last slot into the hole. */
  function SwapRemove(s: seq<Entry>, i: nat): (r: seq<Entry>)
    requires i < |s|
    ensures |r| == |s| - 1
    ensures forall j :: 0 <= j < |r| ==> r[j] == if j == i then s[|s| - 1] else s[j]
  {
    s[i := s[|s| - 1]][..|s| - 1]
  }

  /** Swap-removal deletes exactly the key of slot `i`. */
  lemma {:induction false} SwapRemoveRefines(s: seq<Entry>, i: nat)
    requires Distinct(s) && i < |s|
    ensures Distinct(SwapRemove(s, i))
    ensures AsMap(SwapRemove(s, i)) == AsMap(s) - {s[i].jid}
  {
    var t, m := SwapRemove(s, i), AsMap(s) - {s[i].jid};
    AsMapFacts(s);
    forall k | k in m
      ensures exists j :: 0 <= j < |t| && t[j].jid == k
    {
      var j :| 0 <= j < |s| && s[j].jid == k;
      var j' := if j == |s| - 1 then i else j;
      assert t[j'].jid == k;
    }
    AsMapUnique(t, m);
  }

  /** The slot of a full JID, or |s|. */
  function SlotOf(s: seq<Entry>, jid: Jid): (i: nat)
    ensures i <= |s|
    ensures forall k :: 0 <= k < i ==> s[k].jid != jid
    ensures i < |s| ==> s[i].jid == jid
  {
    if s == [] || s[0].jid == jid then 0 else SlotOf(s[1..], jid) + 1
  }

  /** Being in the table and being a key of the map are the same. */
  lemma {:induction false} SlotOfMap(s: seq<Entry>, jid: Jid)
    requires Distinct(s)
    ensures SlotOf(s, jid) < |s| <==> jid in AsMap(s)
    ensures jid in AsMap(s) ==> AsMap(s)[jid] == s[SlotOf(s, jid)]
  {
    AsMapFacts(s);
  }

  // ---------------------------------------------------------- best resource

  /** Strictly preferred: higher priority, then more recent activity. */
  predicate Better(a: Entry, b: Entry) {
    a.priority > b.priority || (a.priority == b.priority && a.lastActive > b.lastActive)
  }

  /** A resource of `bare` whose priority no other resource exceeds, and no other
      of that priority was active later. */
  ghost predicate IsBest(m: map<Jid, Entry>, bare: Jid, jid: Jid) {
    && jid in m && Bare(jid) == bare
    && forall k :: k in m && Bare(k) == bare ==>
         m[k].priority < m[jid].priority || (m[k].priority == m[jid].priority && m[k].lastActive <= m[jid].lastActive)
  }

  /** The slot the scan settles on: the first of the preferred ones. */
  ghost function BestSlot(s: seq<Entry>, bare: Jid): (best: int)
    ensures -1 <= best < |s|
  {
    if s == [] then -1 else
      var best := BestSlot(s[..|s| - 1], bare);
      var e := s[|s| - 1];
      if Bare(e.jid) == bare && (best < 0 || Better(e, s[best])) then |s| - 1 else best
  }

  lemma {:induction false} BestSlotFacts(s: seq<Entry>, bare: Jid)
    ensures BestSlot(s, bare) >= 0 ==> Bare(s[BestSlot(s, bare)].jid) == bare
    ensures forall i :: 0 <= i < |s| && Bare(s[i].jid) == bare
                        ==> BestSlot(s, bare) >= 0 && !Better(s[i], s[BestSlot(s, bare)])
  {
    if s != [] {
      var front, best := s[..|s| - 1], BestSlot(s, bare);
      BestSlotFacts(front, bare);
      forall i | 0 <= i < |s| && Bare(s[i].jid) == bare
        ensures best >= 0 && !Better(s[i], s[best])
      {
        if i < |s| - 1 {
          assert front[i] == s[i];
        }
      }
    }
  }

  /** The scan finds a maximum by (priority, last_active) over the map, and
      fails exactly when no key has that bare JID. */
  lemma {:induction false} BestSlotRefines(s: seq<Entry>, bare: Jid)
    requires Distinct(s)
    ensures BestSlot(s, bare) >= 0 ==> IsBest(AsMap(s), bare, s[BestSlot(s, bare)].jid)
    ensures BestSlot(s, bare) < 0 <==> forall k :: k in AsMap(s) ==> Bare(k) != bare
  {
    AsMapFacts(s);
    BestSlotFacts(s, bare);
    if BestSlot(s, bare) >= 0 {
      assert s[BestSlot(s, bare)].jid in AsMap(s);
      forall k | k in AsMap(s) && Bare(k) == bare
        ensures !Better(AsMap(s)[k], s[BestSlot(s, bare)])
      {
        var i :| 0 <= i < |s| && s[i].jid == k;
      }
    }
  }

  /** The first slot among the resources of highest priority and, of those, of
      latest activity. */
  ghost predicate IsFirstBest(s: seq<Entry>, bare: Jid, i: int) {
    && 0 <= i < |s| && Bare(s[i].jid) == bare
    && (forall k :: 0 <= k < |s| && Bare(s[k].jid) == bare ==>
          s[k].priority < s[i].priority || (s[k].priority == s[i].priority && s[k].lastActive <= s[i].lastActive))
    && (forall k :: 0 <= k < i && Bare(s[k].jid) == bare ==>
          s[k].priority < s[i].priority || (s[k].priority == s[i].priority && s[k].lastActive < s[i].lastActive))
  }

  lemma {:induction false} BestSlotIsFirst(s: seq<Entry>, bare: Jid)
    ensures BestSlot(s, bare) >= 0 ==> IsFirstBest(s, bare, BestSlot(s, bare))
  {
    if s != [] {
      var front, best := s[..|s| - 1], BestSlot(s, bare);
      BestSlotIsFirst(front, bare);
      BestSlotFacts(front, bare);
      BestSlotFacts(s, bare);
      hide Bare;
      assert forall k :: 0 <= k < |front| ==> front[k] == s[k];
    }
  }

  /** The scan settles on a slot exactly when that is the first best one. */
  lemma {:induction false} BestSlotIff(s: seq<Entry>, bare: Jid, i: nat)
    ensures BestSlot(s, bare) == i <==> IsFirstBest(s, bare, i)
    ensures BestSlot(s, bare) == -1 <==> forall k :: 0 <= k < |s| ==> Bare(s[k].jid) != bare
  {
    hide Bare, BestSlot;
    BestSlotIsFirst(s, bare);
    BestSlotFacts(s, bare);
  }

  ghost predicate DistinctRanks(m: map<Jid, Entry>, bare: Jid) {
    forall a, b :: a in m && b in m && a != b && Bare(a) == bare && Bare(b) == bare
                   ==> m[a].priority != m[b].priority || m[a].lastActive != m[b].lastActive
  }

  /** With pairwise different (priority, last_active) pairs the choice does
      not depend on the slot order: any two tables with the same map agree. */
  lemma {:induction false} BestIndependentOfSlots(s: seq<Entry>, t: seq<Entry>, bare: Jid)
    requires Distinct(s) && Distinct(t) && AsMap(s) == AsMap(t)
    requires DistinctRanks(AsMap(s), bare)
    ensures BestSlot(s, bare) < 0 <==> BestSlot(t, bare) < 0
    ensures BestSlot(s, bare) >= 0 ==>
              s[BestSlot(s, bare)] == t[BestSlot(t, bare)]
  {
    BestSlotRefines(s, bare);
    BestSlotRefines(t, bare);
    AsMapFacts(s);
    AsMapFacts(t);
    if BestSlot(s, bare) >= 0 {
      var a := s[BestSlot(s, bare)].jid;
      var b := t[BestSlot(t, bare)].jid;
      assert IsBest(AsMap(s), bare, a) && IsBest(AsMap(s), bare, b);
    }
  }

  // ----------------------------------------------------------------- fanout

  /** Which sessions an iteration of the table selects. */
  datatype Audience = Audience(bare: Jid, exclude: Option<Jid>, carbonsOnly: bool)

  predicate Hears(a: Audience, e: Entry) {
    && a.exclude != Some(e.jid)
    && Bare(e.jid) == a.bare
    && (a.carbonsOnly ==> e.carbons)
  }

  /** The writes of one pass over the table that succeed. */
  ghost function Fanout(s: seq<Entry>, a: Audience, p: Packet, down: set<Sink>): seq<Write> {
    if s == [] then [] else
      var e := s[|s| - 1];
      Fanout(s[..|s| - 1], a, p, down)
      + Emit(a, e, p, down)
  }

  /** What the session `jid` got out of a log, in order. */
  ghost function Inbox(w: seq<Write>, jid: Jid): seq<Packet> {
    if w == [] then [] else
      var x := w[|w| - 1];
      Inbox(w[..|w| - 1], jid) + if x.ToSession? && x.jid == jid then [x.packet] else []
  }

  /** What was written straight back to the connection being served. */
  ghost function Replies(w: seq<Write>): seq<Packet> {
    if w == [] then [] else
      var x := w[|w| - 1];
      Replies(w[..|w| - 1]) + if x.ToSender? then [x.packet] else []
  }

  lemma {:induction false} InboxConcat(v: seq<Write>, w: seq<Write>, jid: Jid)
    ensures Inbox(v + w, jid) == Inbox(v, jid) + Inbox(w, jid)
  {
    if w == [] {
      assert v + w == v;
    } else {
      assert (v + w)[..|v + w| - 1] == v + w[..|w| - 1];
      InboxConcat(v, w[..|w| - 1], jid);
    }
  }

  lemma {:induction false} RepliesConcat(v: seq<Write>, w: seq<Write>)
    ensures Replies(v + w) == Replies(v) + Replies(w)
  {
    if w == [] {
      assert v + w == v;
    } else {
      assert (v + w)[..|v + w| - 1] == v + w[..|w| - 1];
      RepliesConcat(v, w[..|w| - 1]);
    }
  }

  lemma {:induction false} FanoutStep(s: seq<Entry>, e: Entry, a: Audience, p: Packet, down: set<Sink>)
    ensures Fanout([], a, p, down) == []
    ensures Fanout(s + [e], a, p, down) == Fanout(s, a, p, down) + Emit(a, e, p, down)
  {
    assert (s + [e])[..|s|] == s;
  }

  /** What one pass hands to the session `jid`. */
  ghost function Share(m: map<Jid, Entry>, jid: Jid, a: Audience, p: Packet, down: set<Sink>): seq<Packet> {
    if jid in m && Hears(a, m[jid]) && m[jid].sink !in down then [p] else []
  }

  ghost function Emit(a: Audience, e: Entry, p: Packet, down: set<Sink>): seq<Write> {
    if Hears(a, e) && e.sink !in down then [ToSession(e.jid, e.sink, p)] else []
  }

  lemma {:induction false} EmitInbox(a: Audience, e: Entry, p: Packet, down: set<Sink>, jid: Jid)
    ensures Inbox(Emit(a, e, p, down), jid)
            == if jid == e.jid && Hears(a, e) && e.sink !in down then [p] else []
    ensures Replies(Emit(a, e, p, down)) == []
  {
  }

  /** One pass writes exactly one packet to each selected live session and
      nothing to any other. */
  lemma {:induction false} FanoutInbox(s: seq<Entry>, a: Audience, p: Packet, down: set<Sink>, jid: Jid)
    requires Distinct(s)
    ensures Inbox(Fanout(s, a, p, down), jid) == Share(AsMap(s), jid, a, p, down)
    ensures Replies(Fanout(s, a, p, down)) == []
  {
    if s != [] {
      var front, e := s[..|s| - 1], s[|s| - 1];
      FanoutInbox(front, a, p, down, jid);
      InboxConcat(Fanout(front, a, p, down), Emit(a, e, p, down), jid);
      RepliesConcat(Fanout(front, a, p, down), Emit(a, e, p, down));
      EmitInbox(a, e, p, down, jid);
      if jid == e.jid {
        assert jid !in AsMap(front) by { AsMapFacts(front); }
      }
    }
  }

  // ------------------------------------------------------------- imperative

  class SessionTable {
    const slots: array<Entry>
    var count: nat
    var wire: seq<Write>

    ghost predicate Valid()
      reads this, slots
    {
      slots.Length == SESSION_TABLE_CAP && count <= SESSION_TABLE_CAP && Distinct(slots[..count])
    }

    ghost function Table(): seq<Entry>
      requires Valid()
      reads this, slots
    {
      slots[..count]
    }

    constructor ()
      ensures Valid() && fresh(slots) && Table() == [] && wire == []
    {
      slots := new Entry[SESSION_TABLE_CAP](_ => Entry("", 0, 0, 0, false));
      count := 0;
      wire := [];
    }

    /** The `strcmp` scan every operation starts with. */
    method FindSlot(jid: Jid) returns (i: nat)
      requires Valid()
      ensures i == SlotOf(Table(), jid)
    {
      i := 0;
      while i < count && slots[i].jid != jid
        invariant i <= count
        invariant forall k :: 0 <= k < i ==> slots[k].jid != jid
      {
        i := i + 1;
      }
      ghost var j := SlotOf(Table(), jid);
      assert forall k :: 0 <= k < count ==> Table()[k] == slots[k];
    }

    /** The two table branches of xmpp_session_table_register: refresh the
        entry of a re-bind, or claim a new slot; `claimed` asks the caller to
        drain the offline store. */
    method Claim(jid: FullJid, sink: Sink, carbons: bool, now: nat) returns (claimed: bool)
      requires Valid()
      modifies this`count, slots
      ensures Valid() && wire == old(wire)
      ensures Table() == Registered(old(Table()), jid, sink, carbons, now)
      ensures claimed <==> Claims(old(Table()), jid)
    {
      if jid == "" {
        return false;
      }
      var i := FindSlot(jid);
      if i < count {
        UpdateRefines(Table(), i, slots[i].(sink := sink, lastActive := now, carbons := carbons));
        slots[i] := slots[i].(sink := sink, lastActive := now, carbons := carbons);
        assert slots[..count] == old(slots[..count])[i := slots[i]];
        return false;
      }
      if count >= SESSION_TABLE_CAP {
        return false;
      }
      slots[count] := Entry(jid, sink, now, 0, carbons);
      count := count + 1;
      assert slots[..count] == old(slots[..count]) + [slots[count - 1]];
      return true;
    }

    method Unregister(jid: Jid)
      requires Valid()
      modifies this`count, slots
      ensures Valid() && wire == old(wire)
      ensures Table() == Unregistered(old(Table()), jid)
      ensures AsMap(Table()) == AsMap(old(Table())) - {jid}
    {
      ghost var was := Table();
      SlotOfMap(was, jid);
      var i := FindSlot(jid);
      if i < count {
        SwapRemoveRefines(was, i);
        slots[i] := slots[count - 1];
        count := count - 1;
        assert slots[..count] == SwapRemove(was, i);
      } else {
        assert AsMap(was) - {jid} == AsMap(was);
      }
    }

    method UpdatePriority(jid: Jid, priority: int)
      requires Valid()
      modifies slots
      ensures Valid()
      ensures Table() == WithPriority(old(Table()), jid, priority)
    {
      var i := FindSlot(jid);
      if i < count {
        UpdateRefines(Table(), i, slots[i].(priority := priority));
        slots[i] := slots[i].(priority := priority);
        assert slots[..count] == old(slots[..count])[i := slots[i]];
      }
    }

    method Touch(jid: Jid, now: nat)
      requires Valid()
      modifies slots
      ensures Valid()
      ensures Table() == Touched(old(Table()), jid, now)
    {
      var i := FindSlot(jid);
      if i < count {
        UpdateRefines(Table(), i, slots[i].(lastActive := now));
        slots[i] := slots[i].(lastActive := now);
        assert slots[..count] == old(slots[..count])[i := slots[i]];
      }
    }

    method UpdateCarbons(jid: Jid, enabled: bool)
      requires Valid()
      modifies slots
      ensures Valid()
      ensures Table() == WithCarbons(old(Table()), jid, enabled)
    {
      var i := FindSlot(jid);
      if i < count {
        UpdateRefines(Table(), i, slots[i].(carbons := enabled));
        slots[i] := slots[i].(carbons := enabled);
        assert slots[..count] == old(slots[..count])[i := slots[i]];
      }
    }

    /** xmpp_session_table_best_resource. */
    method BestResource(bare: Jid) returns (best: Option<Jid>)
      requires Valid()
      ensures best.None? <==> forall k :: k in AsMap(Table()) ==> Bare(k) != bare
      ensures best.Some? ==>
                var m, jid := AsMap(Table()), best.value;
                && jid in m && Bare(jid) == bare
                && forall k :: k in m && Bare(k) == bare ==>
                     || m[k].priority < m[jid].priority
                     || (m[k].priority == m[jid].priority && m[k].lastActive <= m[jid].lastActive)
      ensures best == BestJid(Table(), bare)
    {
      var b := -1;
      var i := 0;
      while i < count
        invariant i <= count
        invariant b == BestSlot(slots[..i], bare)
      {
        assert slots[..i + 1][..i] == slots[..i];
        if Bare(slots[i].jid) == bare {
          if b < 0 || Better(slots[i], slots[b]) {
            b := i;
          }
        }
        i := i + 1;
      }
      BestSlotRefines(Table(), bare);
      best := if b < 0 then None else Some(slots[b].jid);
    }

    /** xmpp_session_table_write: false is the source's -1. */
    method WriteTo(jid: Jid, p: Packet, down: set<Sink>) returns (ok: bool)
      requires Valid()
      modifies this`wire
      ensures Valid() && Table() == old(Table())
      ensures ok <==> Reachable(AsMap(Table()), jid, down)
      ensures wire == old(wire) + if ok then [ToSession(jid, AsMap(Table())[jid].sink, p)] else []
    {
      SlotOfMap(Table(), jid);
      var i := FindSlot(jid);
      ok := i < count && slots[i].sink !in down;
      if ok {
        wire := wire + [ToSession(jid, slots[i].sink, p)];
      }
    }

    /** The body shared by broadcast_to_bare, broadcast_except,
        for_each_resource and for_each_carbon_resource. */
    method Broadcast(a: Audience, p: Packet, down: set<Sink>)
      requires Valid()
      modifies this`wire
      ensures Valid() && Table() == old(Table())
      ensures wire == old(wire) + Fanout(Table(), a, p, down)
    {
      hide Find, Bare, Fanout;
      assert slots[..0] == [];
      FanoutStep([], Entry("", 0, 0, 0, false), a, p, down);
      var i := 0;
      while i < count
        invariant i <= count
        invariant wire == old(wire) + Fanout(slots[..i], a, p, down)
      {
        ghost var was, done := wire, Fanout(slots[..i], a, p, down);
        if a.exclude != Some(slots[i].jid) && Bare(slots[i].jid) == a.bare {
          if (a.carbonsOnly ==> slots[i].carbons) && slots[i].sink !in down {
            wire := wire + [ToSession(slots[i].jid, slots[i].sink, p)];
          }
        }
        assert wire == old(wire) + (done + Emit(a, slots[i], p, down)) by {
          assert wire == was + Emit(a, slots[i], p, down);
        }
        assert slots[..i + 1] == slots[..i] + [slots[i]];
        FanoutStep(slots[..i], slots[i], a, p, down);
        i := i + 1;
      }
    }

    /** A write on the connection being served. */
    method Reply(sink: Sink, p: Packet, down: set<Sink>)
      requires Valid()
      modifies this`wire
      ensures Valid() && Table() == old(Table())
      ensures wire == old(wire) + Replied(sink, p, down)
    {
      if sink !in down {
        wire := wire + [ToSender(sink, p)];
      }
    }
  }

  // ------------------------------------------- the operations on the slots

  ghost predicate Claims(s: seq<Entry>, jid: Jid) {
    jid != "" && SlotOf(s, jid) == |s| && |s| < SESSION_TABLE_CAP
  }

  ghost function Registered(s: seq<Entry>, jid: Jid, sink: Sink, carbons: bool, now: nat): seq<Entry> {
    var i := SlotOf(s, jid);
    if jid == "" then s
    else if i < |s| then s[i := s[i].(sink := sink, lastActive := now, carbons := carbons)]
    else if Claims(s, jid) then s + [Entry(jid, sink, now, 0, carbons)]
    else s
  }

  ghost function Unregistered(s: seq<Entry>, jid: Jid): seq<Entry> {
    var i := SlotOf(s, jid);
    if i < |s| then SwapRemove(s, i) else s
  }

  ghost function WithPriority(s: seq<Entry>, jid: Jid, priority: int): seq<Entry> {
    var i := SlotOf(s, jid);
    if i < |s| then s[i := s[i].(priority := priority)] else s
  }

  ghost function Touched(s: seq<Entry>, jid: Jid, now: nat): seq<Entry> {
    var i := SlotOf(s, jid);
    if i < |s| then s[i := s[i].(lastActive := now)] else s
  }

  ghost function WithCarbons(s: seq<Entry>, jid: Jid, on: bool): seq<Entry> {
    var i := SlotOf(s, jid);
    if i < |s| then s[i := s[i].(carbons := on)] else s
  }

  ghost function BestJid(s: seq<Entry>, bare: Jid): Option<Jid> {
    var b := BestSlot(s, bare);
    if b < 0 then None else Some(s[b].jid)
  }

  /** Every update of an entry is the expected map update: it changes the
      entry of its own key and no other key. */
  lemma {:induction false} UpdatesRefineMap(s: seq<Entry>, jid: Jid, carbons: bool, now: nat, priority: int)
    requires Distinct(s)
    ensures var m, r := AsMap(s), WithPriority(s, jid, priority);
            && Distinct(r) && |r| == |s|
            && AsMap(r) == if jid in m then m[jid := m[jid].(priority := priority)] else m
    ensures var m, r := AsMap(s), Touched(s, jid, now);
            && Distinct(r) && |r| == |s|
            && AsMap(r) == if jid in m then m[jid := m[jid].(lastActive := now)] else m
    ensures var m, r := AsMap(s), WithCarbons(s, jid, carbons);
            && Distinct(r) && |r| == |s|
            && AsMap(r) == if jid in m then m[jid := m[jid].(carbons := carbons)] else m
  {
    SlotOfMap(s, jid);
    hide SlotOf, AsMap;
    var i := SlotOf(s, jid);
    if i < |s| {
      UpdateRefines(s, i, s[i].(priority := priority));
      UpdateRefines(s, i, s[i].(lastActive := now));
      UpdateRefines(s, i, s[i].(carbons := carbons));
    }
  }

  /** Registering and unregistering insert and delete exactly one key, and the
      table stays within its capacity. */
  lemma {:induction false} MembershipRefinesMap(s: seq<Entry>, jid: Jid, sink: Sink, carbons: bool, now: nat)
    requires Distinct(s) && |s| <= SESSION_TABLE_CAP
    ensures var m, r := AsMap(s), Registered(s, jid, sink, carbons, now);
            && Distinct(r) && |r| <= 256
            && AsMap(r) == if jid == "" || (jid !in m && |s| == 256) then m
                           else m[jid := Entry(jid, sink, now, if jid in m then m[jid].priority else 0, carbons)]
    ensures var m, r := AsMap(s), Unregistered(s, jid);
            Distinct(r) && |r| <= |s| && AsMap(r) == m - {jid}
  {
    SlotOfMap(s, jid);
    hide SlotOf, AsMap;
    var i := SlotOf(s, jid);
    if i < |s| {
      UpdateRefines(s, i, s[i].(sink := sink, lastActive := now, carbons := carbons));
      SwapRemoveRefines(s, i);
    } else {
      assert AsMap(s) - {jid} == AsMap(s);
      AppendRefines(s, Entry(jid, sink, now, 0, carbons));
    }
  }

  /** A new slot behind the others inserts its key. */
  lemma {:induction false} AppendRefines(s: seq<Entry>, e: Entry)
    requires Distinct(s) && SlotOf(s, e.jid) == |s|
    ensures Distinct(s + [e]) && AsMap(s + [e]) == AsMap(s)[e.jid := e]
  {
    hide SlotOf;
    assert (s + [e])[..|s|] == s;
  }

  predicate Reachable(m: map<Jid, Entry>, jid: Jid, down: set<Sink>) {
    jid in m && m[jid].sink !in down
  }

  ghost function Replied(sink: Sink, p: Packet, down: set<Sink>): seq<Write> {
    if sink in down then [] else [ToSender(sink, p)]
  }
}
