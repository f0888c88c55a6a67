/** What every run of registrations, table updates and messages keeps. */
module RoutingRuns {
  import opened Options
  import opened Jids
  import opened Stanzas
  import opened Sessions
  import opened Offline
  import opened Routing

  ghost predicate TableOk(n: Net) {
    Distinct(n.slots) && |n.slots| <= 256
  }

  /** No bare JID has both a registered session and a stored message. */
  ghost predicate OnlineOrStored(n: Net) {
    forall e, x :: e in n.slots && x in n.rows ==> Bare(e.jid) != x.recipient
  }

  /** At most 100 messages a recipient, and one stanza over the byte cap. */
  ghost predicate WithinQuota(rows: seq<Row>, r: Jid) {
    && |Pending(rows, r)| <= 100
    && Bytes(Pending(rows, r)) <= 1048575 + 65535
  }

  /** Every accepted message is either still pending or was handed out once. */
  ghost predicate Conserved(n: Net, r: Jid) {
    multiset(Pending(n.accepted, r)) == multiset(Pending(n.rows, r)) + multiset(Pending(n.handed, r))
  }

  ghost predicate Inv(n: Net) {
    && TableOk(n)
    && OnlineOrStored(n)
    && (forall r :: WithinQuota(n.rows, r))
    && (forall r :: Conserved(n, r))
  }

  /** An operation brings in no full JID but the one it registers. */
  lemma {:induction false} SlotsFrom(s: seq<Entry>, jid: Jid, sink: Sink, carbons: bool, now: nat, priority: int,
                                     e: Entry)
    requires Distinct(s) && |s| <= SESSION_TABLE_CAP
    requires || e in Unregistered(s, jid) || e in WithPriority(s, jid, priority)
             || e in Touched(s, jid, now) || e in WithCarbons(s, jid, carbons)
             || e in Registered(s, jid, sink, carbons, now)
    ensures (exists f :: f in s && f.jid == e.jid)
            || (Claims(s, jid) && e.jid == jid && e in Registered(s, jid, sink, carbons, now))
  {
    var i := SlotOf(s, jid);
    if i < |s| {
      assert s[i] in s;
    }
    if e in Unregistered(s, jid) || e in s {
      assert e in s;
    } else {
      assert e.jid == jid;
    }
  }

  lemma {:induction false} NextTableOk(n: Net, op: Op, stamp: int -> string)
    requires TableOk(n)
    ensures TableOk(Next(n, op, stamp))
  {
    hide Built, Find, Bare, Domain, BestSlot, Pending, Bytes, AsMap, SlotOf, Fanout, Notices, Writes, CapNotice;
    var s := n.slots;
    match op
    case Register(who, now, down) => MembershipRefinesMap(s, who.jid, who.sink, who.carbons, now);
    case Unregister(jid) => MembershipRefinesMap(s, jid, 0, false, 0);
    case SetPriority(jid, priority) => UpdatesRefineMap(s, jid, false, 0, priority);
    case SetCarbons(jid, enabled) => UpdatesRefineMap(s, jid, enabled, 0, 0);
    case Deliver(d) => UpdatesRefineMap(s, d.who.jid, false, d.now, 0);
  }

  lemma {:induction false} NextOnlineOrStored(n: Net, op: Op, stamp: int -> string)
    requires TableOk(n) && OnlineOrStored(n)
    ensures OnlineOrStored(Next(n, op, stamp))
  {
    hide Bare, ByTime, Pending, Without, Traffic, Notices, Replays, ReplayWrites, Stored, RouteOf, Touched, Registered;
    var s, n' := n.slots, Next(n, op, stamp);
    forall e, x | e in n'.slots && x in n'.rows
      ensures Bare(e.jid) != x.recipient
    {
      match op
      case Register(who, now, down) =>
        SlotsFrom(s, who.jid, who.sink, who.carbons, now, 0, e);
        WithoutMember(n.rows, Bare(who.jid), x);
      case Unregister(jid) => SlotsFrom(s, jid, 0, false, 0, 0, e);
      case SetPriority(jid, priority) => SlotsFrom(s, jid, 0, false, 0, priority, e);
      case SetCarbons(jid, enabled) => SlotsFrom(s, jid, 0, enabled, 0, 0, e);
      case Deliver(d) => DeliverKeepsApart(n, d, e, x);
    }
  }

  lemma {:induction false} DeliverKeepsApart(n: Net, d: Delivery, e: Entry, x: Row)
    requires TableOk(n) && OnlineOrStored(n)
    ensures e in Delivered(n, d).slots && x in Delivered(n, d).rows ==> Bare(e.jid) != x.recipient
  {
    hide Built, Find, Bare, Domain, BestSlot, Pending, Bytes, AsMap, Fanout, Notices, Writes, CapNotice;
    RouteFacts(n.slots, d);
    if e in Delivered(n, d).slots && x in Delivered(n, d).rows {
      if e !in n.slots {
        SlotsFrom(n.slots, d.who.jid, 0, false, d.now, 0, e);
      }
      var f :| f in n.slots && f.jid == e.jid;
      if x !in n.rows {
        assert x in Stored(n, d);
      }
    }
  }

  lemma {:induction false} StoredFits(n: Net, d: Delivery)
    ensures forall x :: x in Stored(n, d) ==>
              |x.xml| < IQ_BUF_SIZE && !Capped(n.rows, x.recipient)
  {
  }

  lemma {:induction false} StoreQuota(rows: seq<Row>, x: Row, r: Jid)
    requires WithinQuota(rows, r) && |x.xml| < IQ_BUF_SIZE && !Capped(rows, x.recipient)
    ensures WithinQuota(rows + [x], r)
  {
    PendingConcat(rows, [x], r);
    PendingOne(x, r);
    if x.recipient == r {
      BytesAppend(Pending(rows, r), x);
    } else {
      assert Pending(rows, r) + [] == Pending(rows, r);
    }
  }

  lemma {:induction false} NextWithinQuota(n: Net, op: Op, stamp: int -> string, r: Jid)
    requires WithinQuota(n.rows, r)
    ensures WithinQuota(Next(n, op, stamp).rows, r)
  {
    hide Bare, ByTime, Pending, Without, Capped, Traffic, Notices, RouteOf, Registered, Claims, Replays, ReplayWrites;
    if op.Register? {
      PendingWithout(n.rows, Bare(op.who.jid), r);
    } else if op.Deliver? {
      var added := Stored(n, op.d);
      StoredFits(n, op.d);
      if added == [] {
        assert n.rows + added == n.rows;
      } else {
        assert added == [added[0]] && added[0] in added;
        StoreQuota(n.rows, added[0], r);
      }
    }
  }

  lemma {:induction false} NextConserved(n: Net, op: Op, stamp: int -> string, r: Jid)
    requires Conserved(n, r)
    ensures Conserved(Next(n, op, stamp), r)
  {
    hide Pending, ByTime, Without, Bare, Stored, Traffic, Notices, RouteOf, Registered, Claims, Replays, ReplayWrites;
    if op.Register? && Claims(n.slots, op.who.jid) {
      DrainConserved(n, Bare(op.who.jid), r);
    } else if op.Deliver? {
      StoreConserved(n.accepted, n.handed, n.rows, Stored(n, op.d), r);
    }
  }

  lemma {:induction false} StoreConserved(accepted: seq<Row>, handed: seq<Row>, rows: seq<Row>, added: seq<Row>, r: Jid)
    requires multiset(Pending(accepted, r)) == multiset(Pending(rows, r)) + multiset(Pending(handed, r))
    ensures multiset(Pending(accepted + added, r)) == multiset(Pending(rows + added, r)) + multiset(Pending(handed, r))
  {
    hide Pending;
    PendingConcat(rows, added, r);
    PendingConcat(accepted, added, r);
  }

  lemma {:induction false} DrainConserved(n: Net, bare: Jid, r: Jid)
    requires Conserved(n, r)
    ensures multiset(Pending(n.accepted, r))
            == multiset(Pending(Without(n.rows, bare), r))
               + multiset(Pending(n.handed + ByTime(Pending(n.rows, bare)), r))
  {
    hide ByTime, Without, Pending;
    var list := ByTime(Pending(n.rows, bare));
    ListedShare(n.rows, bare, r);
    PendingWithout(n.rows, bare, r);
    PendingConcat(n.handed, list, r);
    SharesAddUp(Pending(n.rows, r), Pending(n.handed, r), Pending(list, r), Pending(Without(n.rows, bare), r),
                r == bare);
  }

  /** A queue that moves as a whole, or not at all, keeps the sum. */
  lemma {:induction false} SharesAddUp(waiting: seq<Row>, handed: seq<Row>, moved: seq<Row>, left: seq<Row>, all: bool)
    requires multiset(moved) == if all then multiset(waiting) else multiset{}
    requires left == if all then [] else waiting
    ensures multiset(waiting) + multiset(handed) == multiset(left) + multiset(handed + moved)
  {
  }

  /** The listing for one recipient holds that recipient's rows and no other's. */
  lemma {:induction false} ListedShare(rows: seq<Row>, bare: Jid, r: Jid)
    ensures forall x :: x in ByTime(Pending(rows, bare)) ==> x.recipient == bare
    ensures multiset(Pending(ByTime(Pending(rows, bare)), r))
            == if r == bare then multiset(Pending(rows, r)) else multiset{}
  {
    var list := ByTime(Pending(rows, bare));
    ByTimeSorts(Pending(rows, bare));
    hide ByTime;
    forall x | x in list
      ensures x.recipient == bare
    {
      assert x in multiset(list);
      PendingMember(rows, bare, x);
    }
    PendingAll(list, bare, r);
  }

  /** One operation keeps the table, the separation of online and stored for,
      the quotas and the conservation of messages. */
  lemma {:induction false} NextKeepsInvariant(n: Net, op: Op, stamp: int -> string)
    requires Inv(n)
    ensures Inv(Next(n, op, stamp))
  {
    NextTableOk(n, op, stamp);
    NextOnlineOrStored(n, op, stamp);
    hide Next, Pending, Bytes;
    forall r ensures WithinQuota(Next(n, op, stamp).rows, r) {
      NextWithinQuota(n, op, stamp, r);
    }
    forall r ensures Conserved(Next(n, op, stamp), r) {
      NextConserved(n, op, stamp, r);
    }
  }

  /** The invariant says nothing about the log. */
  lemma {:induction false} InvIgnoresWire(n: Net, wire: seq<Write>)
    requires Inv(n)
    ensures Inv(n.(wire := wire))
  {
    hide Pending, Bytes, Bare;
    var n' := n.(wire := wire);
    forall r ensures Conserved(n', r) {
      assert Conserved(n, r);
    }
  }

  /** In every state reachable from an empty server the table is compact and
      duplicate-free, nobody is both online and stored for, no queue exceeds
      its quota, and no accepted message is lost or handed out twice. */
  lemma {:induction false} RunKeepsInvariant(ops: seq<Op>, stamp: int -> string)
    ensures Inv(Run(ops, stamp))
  {
    if ops != [] {
      var n, op := Run(ops[..|ops| - 1], stamp), ops[|ops| - 1];
      RunKeepsInvariant(ops[..|ops| - 1], stamp);
      NextKeepsInvariant(n, op, stamp);
    } else {
      forall r ensures WithinQuota(EmptyNet.rows, r) && Conserved(EmptyNet, r) {}
    }
  }

  /** After any run, one more message gives every session exactly what the
      receiver's view of routing says. */
  lemma {:induction false} RunThenDeliver(ops: seq<Op>, d: Delivery, stamp: int -> string, jid: Jid)
    ensures var n := Run(ops, stamp);
            && Run(ops + [Deliver(d)], stamp).wire == n.wire + (Notices(d) + Traffic(n, d))
            && Inbox(Notices(d) + Traffic(n, d), jid) == ExpectedAt(n.slots, d, RouteOf(n.slots, d), jid)
            && (|Inbox(Notices(d) + Traffic(n, d), jid)| > 1 ==> RouteOf(n.slots, d).Myself? && jid != d.who.jid)
  {
    hide Run, Next, Traffic, Notices, RouteOf, ExpectedAt, Inbox, Stored;
    RunMore(ops, Deliver(d), stamp);
    DeliverWire(Run(ops, stamp), d, stamp);
    RunKeepsInvariant(ops, stamp);
    TrafficMeetsExpected(Run(ops, stamp), d, jid);
    DuplicatesOnlyToSelf(Run(ops, stamp).slots, d, RouteOf(Run(ops, stamp).slots, d), jid);
  }

  /** After any run, a message arrives exactly when it passes the checks and
      the table, the quota and its size let it through. */
  lemma {:induction false} RunThenArrives(ops: seq<Op>, d: Delivery, stamp: int -> string)
    ensures Arrives(Run(ops, stamp), d) <==>
              && d.msg.to.Some? && d.msg.to.value != "" && Domain(d.msg.to.value) == d.who.domain && !d.blocked
              && GetsThrough(Run(ops, stamp), d)
  {
    hide Run, Arrives, GetsThrough, Domain;
    RunKeepsInvariant(ops, stamp);
    AdmittedArrivesIff(Run(ops, stamp), d);
  }

  /** After any run, one more message brings every session exactly what it is due,
      the sending connection what it is due back, and the store the row due. */
  lemma {:induction false} RunThenDue(ops: seq<Op>, d: Delivery, stamp: int -> string, jid: Jid)
    ensures var n, n' := Run(ops, stamp), Run(ops + [Deliver(d)], stamp);
            && n.wire <= n'.wire
            && Inbox(n'.wire[|n.wire|..], jid) == Due(n.slots, d, jid)
            && Replies(n'.wire[|n.wire|..]) == DueBack(n, d)
            && n'.rows == n.rows + DueRow(n, d)
  {
    hide Run, Traffic, Notices, RouteOf, Inbox, Replies, Stored, Due, DueBack, DueRow, Touched;
    var n := Run(ops, stamp);
    RunMore(ops, Deliver(d), stamp);
    DeliverWire(n, d, stamp);
    RunKeepsInvariant(ops, stamp);
    TrafficIsDue(n, d, jid);
    RepliesAreDue(n, d);
    StoredIsDue(n, d);
    assert Run(ops + [Deliver(d)], stamp).wire[|n.wire|..] == Notices(d) + Traffic(n, d);
  }

  /** After any run, a message without a local recipient or one that is blocked
      reaches no session and is not stored. */
  lemma {:induction false} RunThenRefused(ops: seq<Op>, d: Delivery, stamp: int -> string, jid: Jid)
    requires || d.msg.to == None || d.msg.to == Some("")
             || Domain(d.msg.to.value) != d.who.domain || d.blocked
    ensures var n, n' := Run(ops, stamp), Run(ops + [Deliver(d)], stamp);
            n.wire <= n'.wire && Inbox(n'.wire[|n.wire|..], jid) == [] && n'.rows == n.rows && n'.slots == n.slots
  {
    hide Run, Inbox, DueBack, Domain, RouteOf, Stored, Traffic, Notices;
    var n := Run(ops, stamp);
    RunThenDue(ops, d, stamp, jid);
    RunMore(ops, Deliver(d), stamp);
    RunKeepsInvariant(ops, stamp);
    RefusedReachesNobody(n, d);
  }

  lemma {:induction false} EmptyRun(stamp: int -> string)
    ensures Run([], stamp) == EmptyNet
  {
  }

  /** One session in the table. */
  lemma {:induction false} OneOnline(jid: FullJid, stamp: int -> string) returns (ops: seq<Op>)
    requires jid != ""
    ensures Run(ops, stamp).slots == [Entry(jid, 1, 0, 0, false)]
  {
    var op := Op.Register(Client(jid, "x", 1, false), 0, {});
    ops := [] + [op];
    EmptyRun(stamp);
    hide Run;
    RunMore([], op, stamp);
  }

  lemma {:induction false} OnlyResource(s: seq<Entry>, jid: Jid)
    requires s == [Entry(jid, 1, 0, 0, false)]
    ensures Distinct(s) && AsMap(s) == map[jid := s[0]]
    ensures BestJid(s, Bare(jid)) == Some(jid)
  {
    hide Bare;
    assert s[..0] == [];
  }

  /** The best resource of the recipient fails its writes. */
  lemma {:induction false} BestIsDown(n: Net, from: FullJid, jid: Jid, domain: string, body: string)
    requires n.slots == [Entry(jid, 1, 0, 0, false)] && LocalBare(Bare(jid), domain) && Bare(from) != Bare(jid)
    requires Text(Note(from, Bare(jid), domain, body, {1}), jid).Some?
    ensures var d := Note(from, Bare(jid), domain, body, {1});
            RouteOf(n.slots, d).Best? && Acceptable(d) && !Arrives(n, d)
  {
    hide Bare, Text, Arrives, Acceptable, AsMap, BestJid, RouteOf, LocalBare;
    OnlyResource(n.slots, jid);
    NoteRoute(n.slots, from, Bare(jid), domain, body, {1});
    ArrivesIff(n, Note(from, Bare(jid), domain, body, {1}));
  }

  /** The sender of a message to itself has no other resource. */
  lemma {:induction false} OwnIsAlone(n: Net, jid: FullJid, domain: string, body: string)
    requires n.slots == [Entry(jid, 1, 0, 0, false)] && LocalBare(Bare(jid), domain)
    requires Text(Note(jid, Bare(jid), domain, body, {}), Bare(jid)).Some?
    ensures var d := Note(jid, Bare(jid), domain, body, {});
            RouteOf(n.slots, d).Myself? && Acceptable(d) && !Arrives(n, d)
  {
    hide Bare, Text, Arrives, Acceptable, AsMap, BestJid, RouteOf, LocalBare;
    OnlyResource(n.slots, jid);
    NoteRoute(n.slots, jid, Bare(jid), domain, body, {});
    ArrivesIff(n, Note(jid, Bare(jid), domain, body, {}));
  }

  /** Passing the checks and fitting is not enough. After some run, a message
      for a user whose best resource cannot be written to is lost, and so is a
      message to oneself without another live resource; neither is stored. */
  lemma {:induction false} AdmittedCanBeLost(stamp: int -> string)
    ensures exists ops, d ::
              RouteOf(Run(ops, stamp).slots, d).Best? && Acceptable(d) && !Arrives(Run(ops, stamp), d)
    ensures exists ops, d ::
              RouteOf(Run(ops, stamp).slots, d).Myself? && Acceptable(d) && !Arrives(Run(ops, stamp), d)
  {
    hide Run, Arrives, Acceptable, Text, Note, RouteOf, LocalBare, Bare;
    Addresses();
    var ops := OneOnline("b@x/r", stamp);
    var n := Run(ops, stamp);
    ShortFits("a@x/r", "b@x", "b@x/r", {1});
    BestIsDown(n, "a@x/r", "b@x/r", "x", "hi");
    ShortFits("b@x/r", "b@x", "b@x", {});
    OwnIsAlone(n, "b@x/r", "x", "hi");
  }

  lemma {:induction false} ShortFits(from: FullJid, to: Jid, at: Jid, down: set<Sink>)
    requires |at| < 100
    ensures Text(Note(from, to, "x", "hi", down), at).Some?
  {
  }

  lemma {:induction false} RunMore(ops: seq<Op>, op: Op, stamp: int -> string)
    ensures Run(ops + [op], stamp) == Next(Run(ops, stamp), op, stamp)
  {
    hide Next;
    assert (ops + [op])[..|ops|] == ops;
  }

  lemma {:induction false} DeliverWire(n: Net, d: Delivery, stamp: int -> string)
    ensures Next(n, Deliver(d), stamp).wire == n.wire + (Notices(d) + Traffic(n, d))
  {
    hide Traffic, Notices, RouteOf, Stored, Touched;
  }

  lemma {:induction false} DuplicatesOnlyToSelf(s: seq<Entry>, d: Delivery, route: Route, jid: Jid)
    requires Distinct(s)
    ensures |ExpectedAt(s, d, route, jid)| > 1 ==> route.Myself? && jid != d.who.jid
  {
    hide ExpectedAt, Bare, AsMap, SentCarbon;
    NoDuplicates(s, d, route, jid);
  }

  lemma {:induction false} ReplaysAt(list: seq<Row>, recipient: Jid, stamp: int -> string, i: nat)
    requires i < |list|
    ensures |Replays(list, recipient, stamp)| == |list|
    ensures Replays(list, recipient, stamp)[i]
            == Delayed(list[i].xml, DelayElement(stamp(list[i].receivedAt), recipient))
  {
    hide Delayed, DelayElement;
    var front := list[..|list| - 1];
    if i < |front| {
      ReplaysAt(front, recipient, stamp, i);
    } else if front != [] {
      ReplaysAt(front, recipient, stamp, 0);
    }
  }

  ghost function AllReplayed(texts: seq<string>): (r: seq<Packet>)
    ensures |r| == |texts| && forall i :: 0 <= i < |r| ==> r[i] == Replayed(texts[i])
  {
    if texts == [] then [] else AllReplayed(texts[..|texts| - 1]) + [Replayed(texts[|texts| - 1])]
  }

  lemma {:induction false} ReplayInbox(jid: Jid, sink: Sink, texts: seq<string>, down: set<Sink>, k: Jid)
    ensures Inbox(ReplayWrites(jid, sink, texts, down), k)
            == if k == jid && sink !in down then AllReplayed(texts) else []
  {
    if texts == [] || sink in down {
      assert ReplayWrites(jid, sink, texts, down) == [];
    } else {
      var front, last := texts[..|texts| - 1], ToSession(jid, sink, Replayed(texts[|texts| - 1]));
      var before := ReplayWrites(jid, sink, front, down);
      assert ReplayWrites(jid, sink, texts, down) == before + [last];
      hide Inbox, ReplayWrites;
      ReplayInbox(jid, sink, front, down, k);
      OneInbox(last, k);
      InboxConcat(before, [last], k);
    }
  }

  /** A session that enters the table on a live sink is handed everything that
      was pending for its bare JID, each message once, in time order, with its
      delay element; nobody else is handed anything, and nothing stays behind. */
  lemma {:induction false} RegistrationHandsOver(n: Net, who: Client, now: nat, down: set<Sink>, stamp: int -> string,
                                                 k: Jid)
    requires Claims(n.slots, who.jid) && who.sink !in down
    ensures var bare := Bare(who.jid);
            var list := ByTime(Pending(n.rows, bare));
            var n' := Next(n, Register(who, now, down), stamp);
            var delta := n'.wire[|n.wire|..];
            && n.wire <= n'.wire
            && InTimeOrder(list) && multiset(list) == multiset(Pending(n.rows, bare))
            && |Inbox(delta, who.jid)| == |list|
            && (forall i :: 0 <= i < |list| ==>
                  Inbox(delta, who.jid)[i]
                  == Replayed(Delayed(list[i].xml, DelayElement(stamp(list[i].receivedAt), bare))))
            && (k != who.jid ==> Inbox(delta, k) == [])
            && Pending(n'.rows, bare) == []
  {
    hide Delayed, DelayElement, Find, Bare, ByTime, Pending, Without, Replays, ReplayWrites, Next, Inbox, InTimeOrder;
    var bare := Bare(who.jid);
    var list := ByTime(Pending(n.rows, bare));
    RegisterEffect(n, who, now, down, stamp);
    ByTimeSorts(Pending(n.rows, bare));
    PendingWithout(n.rows, bare, bare);
    ReplayTexts(list, who, bare, down, stamp);
    ReplayInbox(who.jid, who.sink, Replays(list, bare, stamp), down, k);
  }

  lemma {:induction false} RegisterEffect(n: Net, who: Client, now: nat, down: set<Sink>, stamp: int -> string)
    requires Claims(n.slots, who.jid)
    ensures var bare := Bare(who.jid);
            var n' := Next(n, Register(who, now, down), stamp);
            && n.wire <= n'.wire
            && n'.wire[|n.wire|..]
               == ReplayWrites(who.jid, who.sink, Replays(ByTime(Pending(n.rows, bare)), bare, stamp), down)
            && n'.rows == Without(n.rows, bare)
  {
    hide Find, Bare, ByTime, Pending, Without, Replays, ReplayWrites, Registered;
  }

  lemma {:induction false} ReplayTexts(list: seq<Row>, who: Client, bare: Jid, down: set<Sink>, stamp: int -> string)
    requires who.sink !in down
    ensures var got := Inbox(ReplayWrites(who.jid, who.sink, Replays(list, bare, stamp), down), who.jid);
            && |got| == |list|
            && forall i :: 0 <= i < |list| ==>
                 got[i] == Replayed(Delayed(list[i].xml, DelayElement(stamp(list[i].receivedAt), bare)))
  {
    hide Delayed, DelayElement, Replays, ReplayWrites, Inbox;
    var texts := Replays(list, bare, stamp);
    ReplayInbox(who.jid, who.sink, texts, down, who.jid);
    ReplaysNone(bare, stamp);
    if list != [] {
      ReplaysAt(list, bare, stamp, 0);
    }
    forall i | 0 <= i < |list|
      ensures texts[i] == Delayed(list[i].xml, DelayElement(stamp(list[i].receivedAt), bare))
    {
      ReplaysAt(list, bare, stamp, i);
    }
  }

  // ------------------------------------------------- order under a sane clock

  /** The wall clock does not run backwards between stores. */
  ghost predicate ClockMonotone(ops: seq<Op>) {
    forall i, j :: 0 <= i < j < |ops| && ops[i].Deliver? && ops[j].Deliver? ==> ops[i].d.at <= ops[j].d.at
  }

  /** What was accepted for r is, in that order, what was handed out and then
      what is still pending. */
  ghost predicate Fifo(n: Net, r: Jid) {
    Pending(n.accepted, r) == Pending(n.handed, r) + Pending(n.rows, r)
  }

  ghost predicate InOrderUpTo(rows: seq<Row>, ops: seq<Op>) {
    && InTimeOrder(rows)
    && forall x :: x in rows ==> exists i :: 0 <= i < |ops| && ops[i].Deliver? && x.receivedAt == ops[i].d.at
  }

  lemma {:induction false} PendingOrder(rows: seq<Row>, r: Jid)
    requires InTimeOrder(rows)
    ensures InTimeOrder(Pending(rows, r))
  {
    if rows != [] {
      var front, last := rows[..|rows| - 1], rows[|rows| - 1];
      PendingOrder(front, r);
      forall i | 0 <= i < |Pending(front, r)|
        ensures Pending(front, r)[i].receivedAt <= last.receivedAt
      {
        PendingMember(front, r, Pending(front, r)[i]);
      }
    }
  }

  lemma {:induction false} WithoutOrder(rows: seq<Row>, r: Jid)
    requires InTimeOrder(rows)
    ensures InTimeOrder(Without(rows, r))
  {
    if rows != [] {
      var front, last := rows[..|rows| - 1], rows[|rows| - 1];
      WithoutOrder(front, r);
      forall i | 0 <= i < |Without(front, r)|
        ensures Without(front, r)[i].receivedAt <= last.receivedAt
      {
        WithoutMember(front, r, Without(front, r)[i]);
      }
    }
  }

  lemma {:induction false} DrainFifo(n: Net, bare: Jid, r: Jid)
    requires Fifo(n, r) && InTimeOrder(n.rows)
    ensures Pending(n.accepted, r)
            == Pending(n.handed + ByTime(Pending(n.rows, bare)), r) + Pending(Without(n.rows, bare), r)
  {
    var list, left := Pending(n.rows, bare), Without(n.rows, bare);
    assert ByTime(list) == list by {
      PendingOrder(n.rows, bare);
      ByTimeOfOrdered(list);
    }
    assert Pending(list, r) == if r == bare then list else [] by {
      forall x | x in list ensures x.recipient == bare {
        PendingMember(n.rows, bare, x);
      }
      PendingAll(list, bare, r);
    }
    PendingConcat(n.handed, list, r);
    PendingWithout(n.rows, bare, r);
    if r == bare {
      assert Pending(left, r) == [];
    } else {
      assert Pending(n.handed + list, r) == Pending(n.handed, r);
    }
  }

  lemma {:induction false} StoreFifo(accepted: seq<Row>, handed: seq<Row>, rows: seq<Row>, added: seq<Row>, r: Jid)
    requires Pending(accepted, r) == Pending(handed, r) + Pending(rows, r)
    ensures Pending(accepted + added, r) == Pending(handed, r) + Pending(rows + added, r)
  {
    hide Pending;
    PendingConcat(rows, added, r);
    PendingConcat(accepted, added, r);
    assert Pending(handed, r) + (Pending(rows, r) + Pending(added, r))
           == (Pending(handed, r) + Pending(rows, r)) + Pending(added, r);
  }

  lemma {:induction false} NextFifo(n: Net, op: Op, stamp: int -> string, r: Jid)
    requires Fifo(n, r) && InTimeOrder(n.rows)
    ensures Fifo(Next(n, op, stamp), r)
  {
    hide Bare, ByTime, Pending, Without, Stored, Traffic, Notices, RouteOf, Registered, Claims, Replays, ReplayWrites,
      InTimeOrder;
    if op.Register? && Claims(n.slots, op.who.jid) {
      DrainFifo(n, Bare(op.who.jid), r);
    } else if op.Deliver? {
      StoreFifo(n.accepted, n.handed, n.rows, Stored(n, op.d), r);
    }
  }

  lemma {:induction false} StoreOrder(rows: seq<Row>, ops: seq<Op>, op: Op, x: Row)
    requires InOrderUpTo(rows, ops) && ClockMonotone(ops + [op])
    requires op.Deliver? && x.receivedAt == op.d.at
    ensures InTimeOrder(rows + [x])
  {
    var all := ops + [op];
    forall i | 0 <= i < |rows|
      ensures rows[i].receivedAt <= x.receivedAt
    {
      assert rows[i] in rows;
      var k :| 0 <= k < |ops| && ops[k].Deliver? && rows[i].receivedAt == ops[k].d.at;
      assert all[k] == ops[k] && all[|ops|] == op;
    }
  }

  lemma {:induction false} NextRowsFrom(n: Net, op: Op, stamp: int -> string, x: Row)
    requires x in Next(n, op, stamp).rows
    ensures x in n.rows || (op.Deliver? && x.receivedAt == op.d.at)
  {
    hide Bare, ByTime, Pending, Without, Traffic, Notices, RouteOf, Registered, Claims, Replays, ReplayWrites, Text;
    if op.Register? {
      WithoutMember(n.rows, Bare(op.who.jid), x);
    }
  }

  lemma {:induction false} NextOrder(n: Net, ops: seq<Op>, op: Op, stamp: int -> string)
    requires InOrderUpTo(n.rows, ops) && ClockMonotone(ops + [op])
    ensures InOrderUpTo(Next(n, op, stamp).rows, ops + [op])
  {
    hide Bare, ByTime, Pending, Without, Traffic, Notices, RouteOf, Registered, Claims, Replays, ReplayWrites, Text;
    var rows', all := Next(n, op, stamp).rows, ops + [op];
    assert InTimeOrder(rows') by {
      if op.Register? {
        WithoutOrder(n.rows, Bare(op.who.jid));
      } else if op.Deliver? {
        var added := Stored(n, op.d);
        if added == [] {
          assert rows' == n.rows;
        } else {
          assert rows' == n.rows + [added[0]];
          StoreOrder(n.rows, ops, op, added[0]);
        }
      }
    }
    forall x | x in rows'
      ensures exists i :: 0 <= i < |all| && all[i].Deliver? && x.receivedAt == all[i].d.at
    {
      NextRowsFrom(n, op, stamp, x);
      if x in n.rows {
        var i :| 0 <= i < |ops| && ops[i].Deliver? && x.receivedAt == ops[i].d.at;
        assert all[i] == ops[i];
      } else {
        assert all[|ops|] == op;
      }
    }
  }

  lemma {:induction false} RunOrder(ops: seq<Op>, stamp: int -> string)
    requires ClockMonotone(ops)
    ensures InOrderUpTo(Run(ops, stamp).rows, ops)
  {
    if ops != [] {
      var front := ops[..|ops| - 1];
      assert ops == front + [ops[|ops| - 1]];
      RunOrder(front, stamp);
      NextOrder(Run(front, stamp), front, ops[|ops| - 1], stamp);
    }
  }

  /** With a wall clock that never steps back, each recipient's queue is first
      in, first out over the whole run: nothing overtakes, across drains too. */
  lemma {:induction false} RunIsFifo(ops: seq<Op>, stamp: int -> string, r: Jid)
    requires ClockMonotone(ops)
    ensures Fifo(Run(ops, stamp), r)
  {
    if ops != [] {
      var front := ops[..|ops| - 1];
      RunIsFifo(front, stamp, r);
      RunOrder(front, stamp);
      NextFifo(Run(front, stamp), ops[|ops| - 1], stamp, r);
    }
  }

  // ------------------------------------------------------ the quota is reached

  /** The length of a stanza that has room for an envelope and fits. */
  type Size = n: nat | 100 <= n < IQ_BUF_SIZE witness 100

  function Total(sizes: seq<Size>): nat {
    if sizes == [] then 0 else Total(sizes[..|sizes| - 1]) + sizes[|sizes| - 1]
  }

  /** A note from a@x/r to b@x whose stanza has `size` octets. */
  function Sized(size: Size): Delivery {
    var frame := |MessageText("a@x/r", "b@x", None, None, Some("x"))| - 1;
    assert 0 <= frame < 100;
    Note("a@x/r", "b@x", "x", seq(size - frame, _ => 'x'), {})
  }

  lemma {:induction false} SizedText(size: Size)
    ensures Text(Sized(size), "b@x").Some? && |Text(Sized(size), "b@x").value| == size
  {
  }

  /** Sent while the recipient is offline and below its caps, a note is stored. */
  lemma {:induction false} NoteStored(n: Net, from: FullJid, to: Jid, domain: string, body: string,
                                      stamp: int -> string)
    requires n.slots == [] && LocalBare(to, domain) && Bare(from) != to && !Capped(n.rows, to)
    requires Text(Note(from, to, domain, body, {}), to).Some?
    ensures var d := Note(from, to, domain, body, {});
            var n' := Next(n, Deliver(d), stamp);
            n'.slots == [] && n'.rows == n.rows + [Row(to, from, Text(d, to).value, 0)]
  {
    hide Find, Bare, Text, Acceptable, Capped, Notices, Traffic, RouteOf, LocalBare, BestJid, Touched;
    NoteRoute([], from, to, domain, body, {});
    NobodyThere(to, from);
  }

  lemma {:induction false} NobodyThere(to: Jid, from: Jid)
    ensures BestJid([], to) == None && Touched([], from, 0) == []
  {
  }

  lemma {:induction false} SizedStored(n: Net, size: Size, stamp: int -> string)
    requires n.slots == [] && !Capped(n.rows, "b@x")
    ensures var n' := Next(n, Deliver(Sized(size)), stamp);
            && n'.slots == []
            && exists x :: n'.rows == n.rows + [x] && x.recipient == "b@x" && |x.xml| == size
  {
    var d := Sized(size);
    SizedText(size);
    Addresses();
    assert "a@x" != "b@x" && d == Note("a@x/r", "b@x", "x", d.msg.body.value, {});
    hide *;
    NoteStored(n, "a@x/r", "b@x", "x", d.msg.body.value, stamp);
    var x := Row("b@x", "a@x/r", Text(d, "b@x").value, 0);
    assert Next(n, Deliver(d), stamp).rows == n.rows + [x];
  }

  ghost function Burst(sizes: seq<Size>): seq<Op> {
    if sizes == [] then [] else Burst(sizes[..|sizes| - 1]) + [Deliver(Sized(sizes[|sizes| - 1]))]
  }

  lemma {:induction false} BurstStored(sizes: seq<Size>, stamp: int -> string)
    requires |sizes| <= OFFLINE_MAX_MESSAGES
    requires sizes != [] ==> Total(sizes[..|sizes| - 1]) < OFFLINE_MAX_BYTES
    ensures var n := Run(Burst(sizes), stamp);
            n.slots == [] && |Pending(n.rows, "b@x")| == |sizes| && Bytes(Pending(n.rows, "b@x")) == Total(sizes)
  {
    if sizes != [] {
      var front, last := sizes[..|sizes| - 1], sizes[|sizes| - 1];
      BurstStored(front, stamp);
      RunMore(Burst(front), Deliver(Sized(last)), stamp);
      var n := Run(Burst(front), stamp);
      SizedStored(n, last, stamp);
      hide Next, Run, Sized;
      var x :| Next(n, Deliver(Sized(last)), stamp).rows == n.rows + [x] && x.recipient == "b@x" && |x.xml| == last;
      PendingConcat(n.rows, [x], "b@x");
      PendingOne(x, "b@x");
      BytesAppend(Pending(n.rows, "b@x"), x);
    }
  }

  lemma {:induction false} TotalOfCopies(k: nat, size: Size)
    ensures Total(seq(k, _ => size)) == k * size
  {
    if k > 0 {
      assert seq(k, _ => size)[..k - 1] == seq(k - 1, _ => size);
      TotalOfCopies(k - 1, size);
    }
  }

  /** The byte bound of the invariant is the best possible: some run fills a
      queue to 1048575 octets and then has one more stanza of 65535 accepted. */
  lemma {:induction false} QuotaBoundIsReached(stamp: int -> string)
    ensures exists ops :: Bytes(Pending(Run(ops, stamp).rows, "b@x")) == 1048575 + 65535
  {
    var most: seq<Size> := seq(15, _ => 65535);
    var filled := most + [32775] + [32775];
    var sizes := filled + [65535];
    TotalOfCopies(15, 65535);
    assert (most + [32775])[..15] == most && filled[..16] == most + [32775] && sizes[..17] == filled;
    BurstStored(sizes, stamp);
    hide Run, Burst, Pending, Bytes;
    assert Bytes(Pending(Run(Burst(sizes), stamp).rows, "b@x")) == Total(sizes);
  }

  // --------------------------------------------------- what a drain puts out

  /** The replayed messages on a log: for whom, and the text. */
  ghost function ReplayLog(w: seq<Write>): seq<(Jid, string)> {
    if w == [] then [] else
      var x := w[|w| - 1];
      ReplayLog(w[..|w| - 1])
      + if x.ToSession? && x.packet.Replayed? then [(Bare(x.jid), x.packet.xml)] else []
  }

  /** The same for the rows handed out, with their delay elements. */
  ghost function HandedLog(rows: seq<Row>, stamp: int -> string): seq<(Jid, string)> {
    if rows == [] then [] else
      var x := rows[|rows| - 1];
      HandedLog(rows[..|rows| - 1], stamp)
      + [(x.recipient, Delayed(x.xml, DelayElement(stamp(x.receivedAt), x.recipient)))]
  }

  /** `op` drains a queue that is not empty into a sink that fails. The source
      ignores the result of the write and deletes the rows. */
  ghost predicate DrainsIntoFailure(n: Net, op: Op) {
    && op.Register? && Claims(n.slots, op.who.jid) && op.who.sink in op.down
    && Pending(n.rows, Bare(op.who.jid)) != []
  }

  lemma {:induction false} ReplayLogConcat(v: seq<Write>, w: seq<Write>)
    ensures ReplayLog(v + w) == ReplayLog(v) + ReplayLog(w)
  {
    hide Bare;
    if w == [] {
      assert v + w == v;
    } else {
      assert (v + w)[..|v + w| - 1] == v + w[..|w| - 1];
      ReplayLogConcat(v, w[..|w| - 1]);
    }
  }

  lemma {:induction false} HandedLogConcat(a: seq<Row>, b: seq<Row>, stamp: int -> string)
    ensures HandedLog(a + b, stamp) == HandedLog(a, stamp) + HandedLog(b, stamp)
    ensures |HandedLog(b, stamp)| == |b|
  {
    hide Delayed, DelayElement;
    if b == [] {
      assert a + b == a;
    } else {
      assert (a + b)[..|a + b| - 1] == a + b[..|b| - 1];
      HandedLogConcat(a, b[..|b| - 1], stamp);
    }
  }

  lemma {:induction false} FanoutReplaysNothing(s: seq<Entry>, a: Audience, p: Packet, down: set<Sink>)
    requires !p.Replayed?
    ensures ReplayLog(Fanout(s, a, p, down)) == []
  {
    if s != [] {
      var front, e := s[..|s| - 1], s[|s| - 1];
      assert Fanout(s, a, p, down) == Fanout(front, a, p, down) + Emit(a, e, p, down);
      EmitReplaysNothing(a, e, p, down);
      hide Fanout, Emit, ReplayLog;
      FanoutReplaysNothing(front, a, p, down);
      ReplayLogConcat(Fanout(front, a, p, down), Emit(a, e, p, down));
    }
  }

  lemma {:induction false} EmitReplaysNothing(a: Audience, e: Entry, p: Packet, down: set<Sink>)
    requires !p.Replayed?
    ensures ReplayLog(Emit(a, e, p, down)) == []
  {
    hide Bare, Hears;
  }

  lemma {:induction false} CopiesReplayNothing(s: seq<Entry>, d: Delivery, to: string, except: Jid)
    ensures ReplayLog(SentCopies(s, d, to)) == [] && ReplayLog(ReceivedCopies(s, d, except)) == []
  {
    FanoutReplaysNothing(s, Audience(Bare(d.who.jid), Some(d.who.jid), true), SentCarbon(d, to), d.down);
    FanoutReplaysNothing(s, Audience(Bare(To(d.msg)), Some(except), true), ReceivedCarbon(d), d.down);
  }

  lemma {:induction false} BackReplaysNothing(d: Delivery, text: Option<string>)
    ensures ReplayLog([]) == [] && ReplayLog(Back(d, text)) == []
  {
  }

  lemma {:induction false} RouteReplaysNothing(s: seq<Entry>, d: Delivery, route: Route, notice: seq<Write>)
    requires ReplayLog(notice) == []
    ensures ReplayLog(Writes(s, d, route, notice)) == []
  {
    hide Fanout, AsMap, Touched, SentCopies, ReceivedCopies, Bare;
    var touched := Touched(s, d.who.jid, d.now);
    var sent, copied := SentCopies(touched, d, Bare(To(d.msg))), SentCopies(touched, d, To(d.msg));
    CopiesReplayNothing(touched, d, Bare(To(d.msg)), "");
    CopiesReplayNothing(touched, d, To(d.msg), "");
    match route
    case Nowhere =>
    case Exact(target, text) =>
      if Reachable(AsMap(s), target, d.down) {
        CopiesReplayNothing(touched, d, "", target);
        ReplayLogConcat([ToSession(target, AsMap(s)[target].sink, Forwarded(text))],
                        ReceivedCopies(touched, d, target));
      }
    case Myself(text) =>
      var others := Audience(Bare(d.who.jid), Some(d.who.jid), false);
      FanoutReplaysNothing(s, others, Forwarded(text), d.down);
      ReplayLogConcat(Fanout(s, others, Forwarded(text), d.down), sent);
    case Best(target, text) =>
      if Reachable(AsMap(s), target, d.down) {
        var first := [ToSession(target, AsMap(s)[target].sink, Forwarded(text))];
        CopiesReplayNothing(touched, d, "", target);
        ReplayLogConcat(first, copied);
        ReplayLogConcat(first + copied, ReceivedCopies(touched, d, target));
      }
    case Nobody(_) => ReplayLogConcat(notice, sent);
  }

  lemma {:induction false} DeliverReplaysNothing(n: Net, d: Delivery)
    ensures ReplayLog(Notices(d) + Traffic(n, d)) == []
  {
    hide Writes, RouteOf, Back, ReplayLog, ErrorText, Receipt, Admission, CapError, Capped;
    BackReplaysNothing(d, ErrorText(d.msg.id, "", "modify", "bad-request"));
    BackReplaysNothing(d, ErrorText(d.msg.id, To(d.msg), "cancel", "service-unavailable"));
    BackReplaysNothing(d, Receipt(d));
    BackReplaysNothing(d, CapError(d));
    RouteReplaysNothing(n.slots, d, RouteOf(n.slots, d), CapNotice(n.rows, d));
    ReplayLogConcat(Notices(d), Traffic(n, d));
  }

  /** One drain: what it writes is what it takes, or nothing on a failing sink. */
  lemma {:induction false} DrainLog(list: seq<Row>, who: Client, down: set<Sink>, stamp: int -> string)
    requires forall x :: x in list ==> x.recipient == Bare(who.jid)
    ensures ReplayLog(ReplayWrites(who.jid, who.sink, Replays(list, Bare(who.jid), stamp), down))
            == if who.sink in down then [] else HandedLog(list, stamp)
  {
    var bare := Bare(who.jid);
    var texts := Replays(list, bare, stamp);
    if list != [] && who.sink !in down {
      var front, x := list[..|list| - 1], list[|list| - 1];
      var text := Delayed(x.xml, DelayElement(stamp(x.receivedAt), bare));
      var before := ReplayWrites(who.jid, who.sink, Replays(front, bare, stamp), down);
      assert texts == Replays(front, bare, stamp) + [text];
      assert texts[..|texts| - 1] == Replays(front, bare, stamp);
      assert x.recipient == bare;
      assert HandedLog(list, stamp) == HandedLog(front, stamp) + [(bare, text)];
      hide Bare, Find, Delayed, DelayElement, Replays, HandedLog;
      DrainLog(front, who, down, stamp);
      var last := ToSession(who.jid, who.sink, Replayed(text));
      assert ReplayWrites(who.jid, who.sink, texts, down) == before + [last];
      ReplayLogConcat(before, [last]);
      assert [last][..0] == [];
    }
  }

  /** What one operation adds to the two logs. */
  ghost predicate LogStep(n: Net, op: Op, n': Net, stamp: int -> string) {
    var out, taken := Since(n'.wire, n.wire), Since(n'.handed, n.handed);
    && n.wire <= n'.wire && n.handed <= n'.handed
    && ReplayLog(out) == (if DrainsIntoFailure(n, op) then [] else HandedLog(taken, stamp))
    && (DrainsIntoFailure(n, op) ==> taken != [])
  }

  /** What a log gained. */
  ghost function Since<T>(later: seq<T>, earlier: seq<T>): seq<T> {
    if |earlier| <= |later| then later[|earlier|..] else []
  }

  lemma {:induction false} NothingLogged(stamp: int -> string)
    ensures ReplayLog([]) == [] && HandedLog([], stamp) == []
  {
  }

  lemma {:induction false} DeliverLog(n: Net, op: Op, stamp: int -> string)
    requires op.Deliver?
    ensures LogStep(n, op, Next(n, op, stamp), stamp)
  {
    hide Traffic, Notices, RouteOf, Stored, Touched, ReplayLog, HandedLog;
    DeliverReplaysNothing(n, op.d);
    NothingLogged(stamp);
    var n' := Next(n, op, stamp);
    assert n'.wire == n.wire + (Notices(op.d) + Traffic(n, op.d)) && Since(n'.handed, n.handed) == [];
    assert Since(n'.wire, n.wire) == Notices(op.d) + Traffic(n, op.d);
  }

  lemma {:induction false} RegisterLog(n: Net, op: Op, stamp: int -> string)
    requires op.Register? && Claims(n.slots, op.who.jid)
    ensures LogStep(n, op, Next(n, op, stamp), stamp)
  {
    hide Bare, Find, ByTime, Pending, Without, Replays, ReplayWrites, Registered, ReplayLog, HandedLog;
    var bare, n' := Bare(op.who.jid), Next(n, op, stamp);
    var list := ByTime(Pending(n.rows, bare));
    ListedShare(n.rows, bare, bare);
    ByTimeSorts(Pending(n.rows, bare));
    DrainLog(list, op.who, op.down, stamp);
    assert n'.handed == n.handed + list;
    assert Since(n'.handed, n.handed) == list;
    var out := ReplayWrites(op.who.jid, op.who.sink, Replays(list, bare, stamp), op.down);
    assert n'.wire == n.wire + out;
    assert Since(n'.wire, n.wire) == out;
    if list == [] {
      NothingLogged(stamp);
    }
  }

  lemma {:induction false} QuietLog(n: Net, op: Op, stamp: int -> string)
    requires !op.Deliver? && !(op.Register? && Claims(n.slots, op.who.jid))
    ensures LogStep(n, op, Next(n, op, stamp), stamp)
  {
    hide Registered, Unregistered, WithPriority, WithCarbons, ReplayLog, HandedLog, Claims;
    NothingLogged(stamp);
    assert Since(n.wire, n.wire) == [] && Since(n.handed, n.handed) == [];
  }

  lemma {:induction false} NextLog(n: Net, op: Op, stamp: int -> string)
    ensures LogStep(n, op, Next(n, op, stamp), stamp)
    ensures var n' := Next(n, op, stamp);
            && ReplayLog(n'.wire) == ReplayLog(n.wire) + ReplayLog(Since(n'.wire, n.wire))
            && HandedLog(n'.handed, stamp) == HandedLog(n.handed, stamp) + HandedLog(Since(n'.handed, n.handed), stamp)
  {
    hide Next, ReplayLog, HandedLog, DrainsIntoFailure, Claims;
    if op.Deliver? {
      DeliverLog(n, op, stamp);
    } else if op.Register? && Claims(n.slots, op.who.jid) {
      RegisterLog(n, op, stamp);
    } else {
      QuietLog(n, op, stamp);
    }
    var n' := Next(n, op, stamp);
    ReplayLogConcat(n.wire, Since(n'.wire, n.wire));
    HandedLogConcat(n.handed, Since(n'.handed, n.handed), stamp);
    assert n.wire + Since(n'.wire, n.wire) == n'.wire;
    assert n.handed + Since(n'.handed, n.handed) == n'.handed;
  }

  ghost predicate NoFailedDrain(ops: seq<Op>, stamp: int -> string) {
    forall i :: 0 <= i < |ops| ==> !DrainsIntoFailure(Run(ops[..i], stamp), ops[i])
  }

  /** Over every run: the replayed messages on the wire are exactly the messages
      handed out, in order, each for its recipient and with its delay element,
      if and only if no non-empty queue was drained into a failing sink. */
  lemma {:induction false} ReplaysAreHanded(ops: seq<Op>, stamp: int -> string)
    ensures var n := Run(ops, stamp);
            && |ReplayLog(n.wire)| <= |n.handed|
            && (ReplayLog(n.wire) == HandedLog(n.handed, stamp) <==> NoFailedDrain(ops, stamp))
            && (|ReplayLog(n.wire)| == |n.handed| <==> NoFailedDrain(ops, stamp))
  {
    hide Next, ReplayLog, HandedLog, NoFailedDrain, DrainsIntoFailure;
    if ops == [] {
      EmptyLogs(stamp);
    } else {
      var front, op := ops[..|ops| - 1], ops[|ops| - 1];
      var n := Run(front, stamp);
      var n' := Next(n, op, stamp);
      assert Run(ops, stamp) == n' && front + [op] == ops;
      hide Run;
      ReplaysAreHanded(front, stamp);
      NoFailedDrainMore(front, op, stamp);
      NextLog(n, op, stamp);
      var out, taken := Since(n'.wire, n.wire), Since(n'.handed, n.handed);
      HandedLogConcat([], n.handed, stamp);
      HandedLogConcat([], n'.handed, stamp);
      HandedLogConcat([], taken, stamp);
      LogsGrow(ReplayLog(n.wire), HandedLog(n.handed, stamp), ReplayLog(out), HandedLog(taken, stamp),
               NoFailedDrain(front, stamp), DrainsIntoFailure(n, op));
    }
  }

  lemma {:induction false} EmptyLogs(stamp: int -> string)
    ensures ReplayLog([]) == [] && HandedLog([], stamp) == [] && NoFailedDrain([], stamp)
  {
  }

  /** Once the shorter log misses something it never catches up. */
  lemma {:induction false} LogsGrow(v: seq<(Jid, string)>, w: seq<(Jid, string)>, more: seq<(Jid, string)>,
                                    taken: seq<(Jid, string)>, kept: bool, failed: bool)
    requires |v| <= |w| && (v == w <==> kept) && (|v| == |w| <==> kept)
    requires more == (if failed then [] else taken) && (failed ==> taken != [])
    ensures |v + more| <= |w + taken|
    ensures v + more == w + taken <==> kept && !failed
    ensures |v + more| == |w + taken| <==> kept && !failed
  {
  }

  lemma {:induction false} NoFailedDrainMore(ops: seq<Op>, op: Op, stamp: int -> string)
    ensures NoFailedDrain(ops + [op], stamp) <==> NoFailedDrain(ops, stamp) && !DrainsIntoFailure(Run(ops, stamp), op)
  {
    hide DrainsIntoFailure, Run;
    var all := ops + [op];
    assert all[..|ops|] == ops && all[|ops|] == op;
    assert forall i :: 0 <= i < |ops| ==> all[..i] == ops[..i] && all[i] == ops[i];
  }

  /** It happens: a stored message is drained into a connection that fails its
      writes, and is gone. */
  lemma {:induction false} FailedDrainHappens(stamp: int -> string)
    ensures exists ops :: var n := Run(ops, stamp); |ReplayLog(n.wire)| < |n.handed| && n.rows == []
  {
    hide Run, Text, Note, LocalBare, Bare, ReplayLog;
    Addresses();
    ShortFits("a@x/r", "b@x", "b@x", {});
    OfflineOne("a@x/r", "b@x", "hi", stamp);
    var ops := [] + [Deliver(Note("a@x/r", "b@x", "x", "hi", {}))];
    DrainedAway(ops, Client("b@x/r", "x", 1, false), stamp);
  }

  /** One message waits. */
  lemma {:induction false} OfflineOne(from: FullJid, to: Jid, body: string, stamp: int -> string)
    requires LocalBare(to, "x") && Bare(from) != to && Text(Note(from, to, "x", body, {}), to).Some?
    ensures var n := Run([] + [Deliver(Note(from, to, "x", body, {}))], stamp);
            n.slots == [] && |n.rows| == 1 && n.rows[0].recipient == to
  {
    hide Next, Text, Bare, LocalBare, Run, Note;
    EmptyRun(stamp);
    RunMore([], Deliver(Note(from, to, "x", body, {})), stamp);
    NotCappedYet(to);
    NoteStored(EmptyNet, from, to, "x", body, stamp);
  }

  /** A connection that fails its writes enters an empty table. */
  lemma {:induction false} DrainedAway(ops: seq<Op>, who: Client, stamp: int -> string)
    requires var n := Run(ops, stamp); n.slots == [] && |n.rows| == 1 && n.rows[0].recipient == Bare(who.jid)
    requires who.jid != ""
    ensures var n' := Run(ops + [Op.Register(who, 0, {who.sink})], stamp);
            |ReplayLog(n'.wire)| < |n'.handed| && n'.rows == []
  {
    var n, login := Run(ops, stamp), Op.Register(who, 0, {who.sink});
    RowsOfOne(n.rows, Bare(who.jid));
    hide Run, Next, Bare, ReplayLog, NoFailedDrain, Pending, Without;
    RunMore(ops, login, stamp);
    RegisterEffect(n, who, 0, {who.sink}, stamp);
    NoFailedDrainMore(ops, login, stamp);
    ReplaysAreHanded(ops + [login], stamp);
    assert DrainsIntoFailure(n, login);
  }

  lemma {:induction false} NotCappedYet(r: Jid)
    ensures !Capped([], r)
  {
  }

  lemma {:induction false} RowsOfOne(rows: seq<Row>, r: Jid)
    requires |rows| == 1 && rows[0].recipient == r
    ensures Pending(rows, r) == rows && Without(rows, r) == []
  {
    assert rows[..0] == [];
  }
}
