/** The whole server: many connections of server.c over one session table. A
    connection negotiates for itself; once it was online its presence stanzas and
    messages work on the shared table, and its end takes its entry away. */
module ServerRuns {
  import opened Options
  import opened Jids
  import opened Sessions
  import opened Offline
  import opened Routing
  import opened RoutingRuns
  import opened Streams
  import opened StreamRuns

  /** The connections that are not freed, by the identity their writes go to,
      and the table with its store. */
  datatype World = World(conns: map<Sink, Conn>, net: Net)

  /** What can happen. A stanza may be handled at any time after its connection
      was online; an identity may be used again once it was freed. */
  datatype Event =
    | Accept(id: Sink)
    | Receive(id: Sink, input: Input)
    | Available(id: Sink, carbons: bool, now: nat, down: set<Sink>)
    | Unavailable(id: Sink)
    | Prioritise(id: Sink, priority: int)
    | Carbons(id: Sink, enabled: bool)
    | Send(id: Sink, msg: Message, blocked: bool, now: nat, at: int, down: set<Sink>)
    | Free(id: Sink)

  const EmptyWorld := World(map[], EmptyNet)

  type Conns = map<Sink, Conn>

  ghost predicate IsSettled(conns: Conns, id: Sink) {
    id in conns && Settled(conns[id].session)
  }

  /** bound_jid; it fits its buffer in every run. */
  ghost function JidOf(conns: Conns, id: Sink): FullJid
    requires id in conns
  {
    Cut(conns[id].session.boundJid, JID_BUF_SIZE)
  }

  ghost function ClientOf(conns: Conns, id: Sink, carbons: bool): Client
    requires id in conns
  {
    Client(JidOf(conns, id), conns[id].session.domain, id, carbons)
  }

  /** What the event means for the connections. */
  ghost function ConnsAfter(conns: Conns, ev: Event): Conns {
    match ev
    case Accept(id) => if id in conns then conns else conns[id := InitialConn]
    case Receive(id, input) => if id in conns then conns[id := Step(conns[id], input)] else conns
    case Free(id) => conns - {id}
    case _ => conns
  }

  /** What the event asks of the table: a stanza of a connection that was online,
      or the end of a connection that was bound (on_conn_close). */
  ghost function OpOf(conns: Conns, ev: Event): Option<Op> {
    if ev.id !in conns then None
    else if ev.Free? then
      (if conns[ev.id].session.boundJid == "" then None else Some(Op.Unregister(JidOf(conns, ev.id))))
    else if !IsSettled(conns, ev.id) then None
    else match ev
      case Accept(_) => None
      case Receive(_, _) => None
      case Available(id, carbons, now, down) => Some(Op.Register(ClientOf(conns, id, carbons), now, down))
      case Unavailable(id) => Some(Op.Unregister(JidOf(conns, id)))
      case Prioritise(id, priority) => Some(Op.SetPriority(JidOf(conns, id), priority))
      case Carbons(id, enabled) => Some(Op.SetCarbons(JidOf(conns, id), enabled))
      case Send(id, msg, blocked, now, at, down) =>
        Some(Op.Deliver(Delivery(ClientOf(conns, id, false), msg, blocked, now, at, down)))
      case Free(_) => None
  }

  ghost function Serve(w: World, ev: Event, stamp: int -> string): World {
    World(ConnsAfter(w.conns, ev),
          match OpOf(w.conns, ev) case None => w.net case Some(op) => Next(w.net, op, stamp))
  }

  ghost function RunServer(events: seq<Event>, stamp: int -> string): World {
    if events == [] then EmptyWorld else Serve(RunServer(events[..|events| - 1], stamp), events[|events| - 1], stamp)
  }

  lemma {:induction false} ServeMore(events: seq<Event>, ev: Event, stamp: int -> string)
    ensures RunServer(events + [ev], stamp) == Serve(RunServer(events, stamp), ev, stamp)
  {
    hide Serve;
    assert (events + [ev])[..|events|] == events;
  }

  // ------------------------------------------------------- entries and connections

  /** The entry belongs to a connection that is not freed and is bound to that
      JID for good. */
  ghost predicate Backed(conns: Conns, e: Entry) {
    IsSettled(conns, e.sink) && conns[e.sink].session.boundJid == e.jid
  }

  ghost predicate ConnsOk(conns: Conns) {
    forall id :: id in conns ==> ConnOk(conns[id])
  }

  ghost predicate ServerOk(w: World) {
    ConnsOk(w.conns) && Inv(w.net) && forall e :: e in w.net.slots ==> Backed(w.conns, e)
  }

  /** Where the entries come from: an operation keeps JID and connection of the
      entries it does not register, and removes no other JID than its own. */
  lemma {:induction false} EntriesFrom(n: Net, op: Op, stamp: int -> string, e: Entry)
    requires TableOk(n) && e in Next(n, op, stamp).slots
    ensures || (op.Register? && e.jid == op.who.jid && e.sink == op.who.sink)
            || exists f :: f in n.slots && f.jid == e.jid && f.sink == e.sink
    ensures op.Unregister? ==> e.jid != op.jid
  {
    hide Bare, RouteOf, Stored, Traffic, Notices, ByTime, Pending, Without, Replays, ReplayWrites, Claims, Registered;
    match op
    case Register(who, now, down) => RegisteredFrom(n.slots, who.jid, who.sink, who.carbons, now, e);
    case Unregister(jid) => UnregisteredFrom(n.slots, jid, e);
    case SetPriority(jid, priority) => UpdatedFrom(n.slots, jid, priority, 0, false, e);
    case SetCarbons(jid, enabled) => UpdatedFrom(n.slots, jid, 0, 0, enabled, e);
    case Deliver(d) => UpdatedFrom(n.slots, d.who.jid, 0, d.now, false, e);
  }

  lemma {:induction false} RegisteredFrom(s: seq<Entry>, jid: Jid, sink: Sink, carbons: bool, now: nat, e: Entry)
    requires e in Registered(s, jid, sink, carbons, now)
    ensures (e.jid == jid && e.sink == sink) || e in s
  {
    hide SlotOf;
  }

  lemma {:induction false} UnregisteredFrom(s: seq<Entry>, jid: Jid, e: Entry)
    requires Distinct(s) && e in Unregistered(s, jid)
    ensures e in s && e.jid != jid
  {
    var i := SlotOf(s, jid);
    hide SlotOf;
    var t := Unregistered(s, jid);
    var k :| 0 <= k < |t| && t[k] == e;
  }

  lemma {:induction false} UpdatedFrom(s: seq<Entry>, jid: Jid, priority: int, now: nat, on: bool, e: Entry)
    requires e in WithPriority(s, jid, priority) || e in Touched(s, jid, now) || e in WithCarbons(s, jid, on) || e in s
    ensures exists f :: f in s && f.jid == e.jid && f.sink == e.sink
  {
    var i := SlotOf(s, jid);
    hide SlotOf;
    if i < |s| {
      assert s[i] in s;
    }
  }

  lemma {:induction false} ConnsAfterOk(conns: Conns, ev: Event)
    requires ConnsOk(conns)
    ensures ConnsOk(ConnsAfter(conns, ev))
  {
    hide ConnOk, Step;
    if ev.Accept? {
      InitialConnOk();
    } else if ev.Receive? && ev.id in conns {
      StepOk(conns[ev.id], ev.input);
    }
  }

  lemma {:induction false} InitialConnOk()
    ensures ConnOk(InitialConn)
  {
    hide ConnOk;
    RunConnOk([]);
  }

  /** No event but its end takes a connection's address away. */
  lemma {:induction false} AddressStays(conns: Conns, ev: Event, id: Sink)
    requires ConnsOk(conns) && IsSettled(conns, id) && ev != Free(id)
    ensures IsSettled(ConnsAfter(conns, ev), id)
    ensures ConnsAfter(conns, ev)[id].session.boundJid == conns[id].session.boundJid
  {
    hide ConnOk, Step, Settled;
    if ev.Receive? && ev.id == id {
      StepKeepsAddress(conns[id], ev.input);
    }
  }

  lemma {:induction false} JidIsExact(conns: Conns, id: Sink)
    requires ConnsOk(conns) && IsSettled(conns, id)
    ensures JidOf(conns, id) == conns[id].session.boundJid
  {
    hide ConnOk, Settled;
    SettledPath(conns[id]);
  }

  lemma {:induction false} ServeBacked(w: World, ev: Event, stamp: int -> string, e: Entry)
    requires ServerOk(w) && e in Serve(w, ev, stamp).net.slots
    ensures Backed(ConnsAfter(w.conns, ev), e)
  {
    hide Next, ConnsAfter, ConnOk, Settled, Inv;
    assert TableOk(w.net) by { TableOfInv(w.net); }
    var op := OpOf(w.conns, ev);
    if op.Some? {
      EntriesFrom(w.net, op.value, stamp, e);
    }
    if op.Some? && op.value.Register? && e.jid == op.value.who.jid && e.sink == op.value.who.sink {
      JidIsExact(w.conns, ev.id);
      AddressStays(w.conns, ev, ev.id);
    } else {
      var f :| f in w.net.slots && f.jid == e.jid && f.sink == e.sink;
      assert Backed(w.conns, f);
      StillThere(w, ev, stamp, e);
      AddressStays(w.conns, ev, e.sink);
    }
  }

  /** The end of a connection takes its own entry. */
  lemma {:induction false} StillThere(w: World, ev: Event, stamp: int -> string, e: Entry)
    requires ServerOk(w) && e in Serve(w, ev, stamp).net.slots && Backed(w.conns, e)
    ensures ev != Free(e.sink)
  {
    hide Next, ConnsAfter, ConnOk, Inv;
    TableOfInv(w.net);
    if ev == Free(e.sink) {
      JidIsExact(w.conns, e.sink);
      EntriesFrom(w.net, Op.Unregister(e.jid), stamp, e);
    }
  }

  lemma {:induction false} TableOfInv(n: Net)
    requires Inv(n)
    ensures TableOk(n)
  {
  }

  lemma {:induction false} ServeOk(w: World, ev: Event, stamp: int -> string)
    requires ServerOk(w)
    ensures ServerOk(Serve(w, ev, stamp))
  {
    hide Inv, Next, ConnsOk, OpOf, ConnsAfter, Backed;
    ConnsAfterOk(w.conns, ev);
    if OpOf(w.conns, ev).Some? {
      NextKeepsInvariant(w.net, OpOf(w.conns, ev).value, stamp);
    }
    forall e | e in Serve(w, ev, stamp).net.slots
      ensures Backed(ConnsAfter(w.conns, ev), e)
    {
      ServeBacked(w, ev, stamp, e);
    }
  }

  lemma {:induction false} RunServerOk(events: seq<Event>, stamp: int -> string)
    ensures ServerOk(RunServer(events, stamp))
  {
    if events == [] {
      RunKeepsInvariant([], stamp);
    } else {
      hide ServerOk, Serve;
      RunServerOk(events[..|events| - 1], stamp);
      ServeOk(RunServer(events[..|events| - 1], stamp), events[|events| - 1], stamp);
    }
  }

  /** In every run of the server, every entry of the table belongs to a
      connection that is not freed, is bound to exactly that JID, and went
      through the whole negotiation: TLS, authentication, bind. While it is
      online its name is the one it authenticated as. */
  lemma {:induction false} EntriesAreNegotiated(events: seq<Event>, stamp: int -> string, e: Entry)
    requires e in RunServer(events, stamp).net.slots
    ensures var conns := RunServer(events, stamp).conns;
            && e.sink in conns
            && var c := conns[e.sink];
               && c.session.boundJid == e.jid && c.isTls && c.hsDone
               && |c.session.history.path| >= 7
               && c.session.history.path[..4] == [Opened, StartTls, Handshook, RestartedTls]
               && c.session.history.path[|c.session.history.path| - 3..] == [Authenticated, RestartedSasl, BoundTo]
               && (c.session.phase == Online ==> Accountable(c.session))
  {
    RunServerOk(events, stamp);
    var conns := RunServer(events, stamp).conns;
    hide RunServer, ConnOk, Inv, Settled, Accountable;
    assert Backed(conns, e);
    var c := conns[e.sink];
    SettledIsSecured(c);
    SettledPath(c);
    if c.session.phase == Online {
      OnlineIsAccountable(c.session);
    }
  }

  lemma {:induction false} OnlineIsAccountable(s: Session)
    requires SessionOk(s, true) && s.phase == Online
    ensures Accountable(s)
  {
    hide Accountable;
    IdentifiedIsAccountable(s);
  }

  // ------------------------------------------------------------ writes

  /** The write goes to an entry of the table. */
  ghost predicate ToEntry(s: seq<Entry>, x: Write) {
    x.ToSession? ==> exists e :: e in s && e.jid == x.jid && e.sink == x.sink
  }

  lemma {:induction false} FanoutToEntry(s: seq<Entry>, a: Audience, p: Packet, down: set<Sink>, x: Write)
    requires x in Fanout(s, a, p, down)
    ensures ToEntry(s, x)
  {
    hide Hears;
    var front, e := s[..|s| - 1], s[|s| - 1];
    assert s == front + [e];
    if x in Fanout(front, a, p, down) {
      FanoutToEntry(front, a, p, down, x);
    }
  }

  lemma {:induction false} CopiesToEntry(s: seq<Entry>, d: Delivery, to: string, except: Jid, x: Write)
    requires x in SentCopies(Touched(s, d.who.jid, d.now), d, to)
             || x in ReceivedCopies(Touched(s, d.who.jid, d.now), d, except)
    ensures ToEntry(s, x)
  {
    hide Bare, Touched, Fanout;
    var touched := Touched(s, d.who.jid, d.now);
    if x in SentCopies(touched, d, to) {
      FanoutToEntry(touched, Audience(Bare(d.who.jid), Some(d.who.jid), true), SentCarbon(d, to), d.down, x);
    } else {
      FanoutToEntry(touched, Audience(Bare(To(d.msg)), Some(except), true), ReceivedCarbon(d), d.down, x);
    }
    if x.ToSession? {
      var e :| e in touched && e.jid == x.jid && e.sink == x.sink;
      UpdatedFrom(s, d.who.jid, 0, d.now, false, e);
    }
  }

  lemma {:induction false} TargetIsEntry(s: seq<Entry>, target: Jid, p: Packet)
    requires Distinct(s) && target in AsMap(s)
    ensures ToEntry(s, ToSession(target, AsMap(s)[target].sink, p))
  {
    AsMapFacts(s);
    hide AsMap;
    var i :| 0 <= i < |s| && s[i].jid == target;
    assert s[i] in s;
  }

  lemma {:induction false} NoticeToEntry(d: Delivery, text: Option<string>, s: seq<Entry>, x: Write)
    requires x in Back(d, text)
    ensures ToEntry(s, x)
  {
  }

  lemma {:induction false} WritesToEntries(s: seq<Entry>, d: Delivery, route: Route, notice: seq<Write>, x: Write)
    requires Distinct(s) && x in Writes(s, d, route, notice) && (x in notice ==> ToEntry(s, x))
    ensures ToEntry(s, x)
  {
    hide Bare, AsMap, Touched, Fanout, SentCopies, ReceivedCopies, ToEntry;
    var touched := Touched(s, d.who.jid, d.now);
    match route
    case Exact(target, text) =>
      TargetIsEntry(s, target, Forwarded(text));
      if x in ReceivedCopies(touched, d, target) { CopiesToEntry(s, d, "", target, x); }
    case Best(target, text) =>
      TargetIsEntry(s, target, Forwarded(text));
      if x in ReceivedCopies(touched, d, target) { CopiesToEntry(s, d, "", target, x); }
      if x in SentCopies(touched, d, To(d.msg)) { CopiesToEntry(s, d, To(d.msg), "", x); }
    case Myself(text) =>
      var others := Audience(Bare(d.who.jid), Some(d.who.jid), false);
      if x in Fanout(s, others, Forwarded(text), d.down) { FanoutToEntry(s, others, Forwarded(text), d.down, x); }
      if x in SentCopies(touched, d, Bare(To(d.msg))) { CopiesToEntry(s, d, Bare(To(d.msg)), "", x); }
    case Nobody(_) =>
      if x in SentCopies(touched, d, Bare(To(d.msg))) { CopiesToEntry(s, d, Bare(To(d.msg)), "", x); }
  }

  /** In every run of the server, whatever a message makes it write to a session
      goes to a connection that is not freed and is bound to that JID. */
  lemma {:induction false} MessagesReachBoundConnections(events: seq<Event>, stamp: int -> string, d: Delivery,
                                                         x: Write)
    requires x in Notices(d) + Traffic(RunServer(events, stamp).net, d) && x.ToSession?
    ensures var conns := RunServer(events, stamp).conns;
            x.sink in conns && conns[x.sink].session.boundJid == x.jid
  {
    RunServerOk(events, stamp);
    var w := RunServer(events, stamp);
    hide RunServer, ConnOk, Inv, Settled, Writes, RouteOf;
    TableOfInv(w.net);
    if x in Notices(d) {
      NoticesToEntries(d, w.net.slots, x);
    } else {
      if x in CapNotice(w.net.rows, d) {
        NoticeToEntry(d, CapError(d), w.net.slots, x);
      }
      WritesToEntries(w.net.slots, d, RouteOf(w.net.slots, d), CapNotice(w.net.rows, d), x);
    }
    var e :| e in w.net.slots && e.jid == x.jid && e.sink == x.sink;
    assert Backed(w.conns, e);
  }

  /** In every run of the server, a message of a connection that was online is
      delivered as coming from the JID that connection is bound to, in the domain
      it negotiated, and is answered on that connection. */
  lemma {:induction false} SendIsDue(events: seq<Event>, stamp: int -> string, id: Sink, msg: Message, blocked: bool,
                                     now: nat, at: int, down: set<Sink>, jid: Jid)
    requires IsSettled(RunConns(events), id)
    ensures var c := RunConns(events)[id].session;
            |c.boundJid| <= 3072 &&
            var d := Delivery(Client(c.boundJid, c.domain, id, false), msg, blocked, now, at, down);
            var n := RunServer(events, stamp).net;
            var n' := RunServer(events + [Send(id, msg, blocked, now, at, down)], stamp).net;
            && n.wire <= n'.wire
            && Inbox(n'.wire[|n.wire|..], jid) == Due(n.slots, d, jid)
            && Replies(n'.wire[|n.wire|..]) == DueBack(n, d)
            && n'.rows == n.rows + DueRow(n, d)
  {
    var ev := Send(id, msg, blocked, now, at, down);
    var w := RunServer(events, stamp);
    RunServerConns(events, stamp);
    RunServerOk(events, stamp);
    ServeMore(events, ev, stamp);
    hide RunServer, RunConns, ConnOk, Inv, Settled, Due, DueBack, DueRow, Inbox, Replies;
    JidIsExact(w.conns, id);
    SettledPath(w.conns[id]);
    TableOfInv(w.net);
    var c := w.conns[id].session;
    var d := Delivery(Client(c.boundJid, c.domain, id, false), msg, blocked, now, at, down);
    assert OpOf(w.conns, ev) == Some(Op.Deliver(d));
    hide OpOf, ConnsAfter;
    DeliveryIsDue(w.net, d, stamp, jid);
  }

  lemma {:induction false} DeliveryIsDue(n: Net, d: Delivery, stamp: int -> string, jid: Jid)
    requires Distinct(n.slots)
    ensures var n' := Next(n, Deliver(d), stamp);
            && n.wire <= n'.wire
            && Inbox(n'.wire[|n.wire|..], jid) == Due(n.slots, d, jid)
            && Replies(n'.wire[|n.wire|..]) == DueBack(n, d)
            && n'.rows == n.rows + DueRow(n, d)
  {
    hide Inbox, Replies, Due, DueBack, DueRow, Traffic, Notices, Stored, RouteOf, Touched;
    var n' := Next(n, Deliver(d), stamp);
    TrafficIsDue(n, d, jid);
    RepliesAreDue(n, d);
    StoredIsDue(n, d);
    assert n'.wire == n.wire + (Notices(d) + Traffic(n, d));
    assert n'.wire[|n.wire|..] == Notices(d) + Traffic(n, d);
  }

  lemma {:induction false} NoticesToEntries(d: Delivery, s: seq<Entry>, x: Write)
    requires x in Notices(d)
    ensures ToEntry(s, x)
  {
    hide Admission, Receipt;
  }

  // ----------------------------------------------------- who holds an address

  /** The connection that became available last under each address, told from
      the events alone: becoming available takes the address if it is taken
      already or fewer than 256 are; leaving and ending give it up, whoever holds
      it. */
  ghost function HoldersAfter(holders: map<Jid, Sink>, conns: Conns, ev: Event): map<Jid, Sink> {
    if ev.id !in conns then holders else
      var jid := conns[ev.id].session.boundJid;
      if ev.Free? then holders - {jid}
      else if !IsSettled(conns, ev.id) then holders
      else if ev.Available? then
        (if jid in holders || |holders| < SESSION_TABLE_CAP then holders[jid := ev.id] else holders)
      else if ev.Unavailable? then holders - {jid}
      else holders
  }

  ghost function RunConns(events: seq<Event>): Conns {
    if events == [] then map[] else ConnsAfter(RunConns(events[..|events| - 1]), events[|events| - 1])
  }

  ghost function Holders(events: seq<Event>): map<Jid, Sink> {
    if events == [] then map[] else
      HoldersAfter(Holders(events[..|events| - 1]), RunConns(events[..|events| - 1]), events[|events| - 1])
  }

  /** The table as a map from addresses to connections. */
  ghost function SinksOf(m: map<Jid, Entry>): map<Jid, Sink> {
    map k | k in m :: m[k].sink
  }

  lemma {:induction false} MapSize(s: seq<Entry>)
    requires Distinct(s)
    ensures |AsMap(s)| == |s| && |SinksOf(AsMap(s))| == |s|
  {
    KeysOfSinks(AsMap(s));
    if s != [] {
      var front, e := s[..|s| - 1], s[|s| - 1];
      MapSize(front);
      AsMapFacts(front);
      assert e.jid !in AsMap(front);
      assert AsMap(s).Keys == AsMap(front).Keys + {e.jid};
    }
  }

  lemma {:induction false} KeysOfSinks(m: map<Jid, Entry>)
    ensures |SinksOf(m)| == |m|
  {
    assert SinksOf(m).Keys == m.Keys;
  }

  /** One operation on the table as an operation on the map of addresses. */
  lemma {:induction false} NextSinks(n: Net, op: Op, stamp: int -> string)
    requires TableOk(n)
    ensures var m, m' := SinksOf(AsMap(n.slots)), SinksOf(AsMap(Next(n, op, stamp).slots));
            m' == match op
                  case Register(who, _, _) =>
                    if who.jid != "" && (who.jid in m || |m| < SESSION_TABLE_CAP) then m[who.jid := who.sink] else m
                  case Unregister(jid) => m - {jid}
                  case _ => m
  {
    hide AsMap, SinksOf, Next;
    match op
    case Register(who, now, down) => RegisterSinks(n, who, now, down, stamp);
    case Unregister(jid) => UnregisterSinks(n, jid, stamp);
    case _ => OtherSinks(n, op, stamp);
  }

  lemma {:induction false} RegisterSinks(n: Net, who: Client, now: nat, down: set<Sink>, stamp: int -> string)
    requires TableOk(n)
    ensures var m, m' := SinksOf(AsMap(n.slots)), SinksOf(AsMap(Next(n, Op.Register(who, now, down), stamp).slots));
            m' == if who.jid != "" && (who.jid in m || |m| < SESSION_TABLE_CAP) then m[who.jid := who.sink] else m
  {
    hide AsMap, Registered, Next, SinksOf;
    RegisterSlots(n, who, now, down, stamp);
    MapSize(n.slots);
    MembershipRefinesMap(n.slots, who.jid, who.sink, who.carbons, now);
    var m := AsMap(n.slots);
    SinksUpdate(m, who.jid,
                Entry(who.jid, who.sink, now, if who.jid in m then m[who.jid].priority else 0, who.carbons));
  }

  lemma {:induction false} RegisterSlots(n: Net, who: Client, now: nat, down: set<Sink>, stamp: int -> string)
    ensures Next(n, Op.Register(who, now, down), stamp).slots
            == Registered(n.slots, who.jid, who.sink, who.carbons, now)
  {
    hide Registered, Claims, Bare, ByTime, Pending, Without, Replays, ReplayWrites;
  }

  lemma {:induction false} SinksUpdate(m: map<Jid, Entry>, jid: Jid, e: Entry)
    ensures SinksOf(m[jid := e]) == SinksOf(m)[jid := e.sink]
    ensures jid in SinksOf(m) <==> jid in m
  {
  }

  lemma {:induction false} UnregisterSinks(n: Net, jid: Jid, stamp: int -> string)
    requires TableOk(n)
    ensures SinksOf(AsMap(Next(n, Op.Unregister(jid), stamp).slots)) == SinksOf(AsMap(n.slots)) - {jid}
  {
    hide AsMap, Unregistered;
    MembershipRefinesMap(n.slots, jid, 0, false, 0);
  }

  lemma {:induction false} OtherSinks(n: Net, op: Op, stamp: int -> string)
    requires TableOk(n) && !op.Register? && !op.Unregister?
    ensures SinksOf(AsMap(Next(n, op, stamp).slots)) == SinksOf(AsMap(n.slots))
  {
    hide AsMap, RouteOf, Stored, Traffic, Notices, WithPriority, WithCarbons, Touched;
    match op
    case SetPriority(jid, priority) => UpdatesRefineMap(n.slots, jid, false, 0, priority);
    case SetCarbons(jid, enabled) => UpdatesRefineMap(n.slots, jid, enabled, 0, 0);
    case Deliver(d) => UpdatesRefineMap(n.slots, d.who.jid, false, d.now, 0);
  }

  lemma {:induction false} ServeHolders(w: World, ev: Event, stamp: int -> string)
    requires ServerOk(w)
    ensures SinksOf(AsMap(Serve(w, ev, stamp).net.slots)) == HoldersAfter(SinksOf(AsMap(w.net.slots)), w.conns, ev)
  {
    hide Next, ConnsAfter, ConnOk, Inv, AsMap, SinksOf, Cut;
    TableOfInv(w.net);
    var op := OpOf(w.conns, ev);
    if ev.id in w.conns && w.conns[ev.id].session.boundJid != "" {
      AddressFits(w.conns, ev.id);
    }
    if op.Some? {
      NextSinks(w.net, op.value, stamp);
    }
    if ev.Free? && op.None? {
      NoEmptyAddress(w);
    }
  }

  /** bound_jid is never cut. */
  lemma {:induction false} AddressFits(conns: Conns, id: Sink)
    requires ConnsOk(conns) && id in conns && conns[id].session.boundJid != ""
    ensures JidOf(conns, id) == conns[id].session.boundJid
  {
    var s := conns[id].session;
    BoundIsNamed(conns[id]);
    hide ConnOk;
    JidFits(s.authcid, s.domain, s.resource);
  }

  lemma {:induction false} NoEmptyAddress(w: World)
    requires ServerOk(w)
    ensures "" !in SinksOf(AsMap(w.net.slots))
  {
    hide ConnOk, Inv;
    TableOfInv(w.net);
    AsMapFacts(w.net.slots);
    forall i | 0 <= i < |w.net.slots| ensures w.net.slots[i].jid != "" {
      assert Backed(w.conns, w.net.slots[i]);
    }
  }

  lemma {:induction false} RunServerConns(events: seq<Event>, stamp: int -> string)
    ensures RunServer(events, stamp).conns == RunConns(events)
  {
    hide ConnsAfter, OpOf, Next;
    if events != [] {
      RunServerConns(events[..|events| - 1], stamp);
    }
  }

  /** In every run of the server the table says exactly who became available
      last under each address and has not given it up since. */
  lemma {:induction false} TableIsHolders(events: seq<Event>, stamp: int -> string)
    ensures SinksOf(AsMap(RunServer(events, stamp).net.slots)) == Holders(events)
  {
    if events != [] {
      var front, ev := events[..|events| - 1], events[|events| - 1];
      TableIsHolders(front, stamp);
      RunServerConns(front, stamp);
      RunServerOk(front, stamp);
      hide Serve, ServerOk, AsMap, SinksOf, HoldersAfter;
      ServeHolders(RunServer(front, stamp), ev, stamp);
    }
  }

  /** Connection `d` has an entry before the event and none of its own after. */
  ghost predicate LosesEntry(w: World, w': World, d: Sink) {
    (exists e :: e in w.net.slots && e.sink == d) && (forall e :: e in w'.net.slots ==> e.sink != d)
  }

  lemma {:induction false} HoldsIff(w: World, d: Sink)
    requires ServerOk(w) && d in w.conns
    ensures (exists e :: e in w.net.slots && e.sink == d)
            <==> var m := SinksOf(AsMap(w.net.slots)); var jid := w.conns[d].session.boundJid; jid in m && m[jid] == d
  {
    hide ConnOk, Inv, Settled;
    TableOfInv(w.net);
    AsMapFacts(w.net.slots);
    hide AsMap;
    var m, jid := SinksOf(AsMap(w.net.slots)), w.conns[d].session.boundJid;
    if e :| e in w.net.slots && e.sink == d {
      assert Backed(w.conns, e);
      var i :| 0 <= i < |w.net.slots| && w.net.slots[i] == e;
    }
    if jid in m && m[jid] == d {
      var i :| 0 <= i < |w.net.slots| && w.net.slots[i].jid == jid;
      assert w.net.slots[i] in w.net.slots;
    }
  }

  /** The end of a connection takes the entry of another connection exactly when
      both are bound to the same full JID and the other one became available
      last. Its own entry, if it has one, always goes. */
  lemma {:induction false} CloseTakesOtherIff(events: seq<Event>, stamp: int -> string, c: Sink, d: Sink)
    requires c in RunConns(events) && d in RunConns(events) && c != d
    ensures var w := RunServer(events, stamp);
            var w' := RunServer(events + [Free(c)], stamp);
            var mine, other := RunConns(events)[c].session.boundJid, RunConns(events)[d].session.boundJid;
            && w.conns == RunConns(events)
            && (LosesEntry(w, w', d) <==> mine == other && other in Holders(events) && Holders(events)[other] == d)
            && forall e :: e in w'.net.slots ==> e.sink != c
  {
    var w, w' := RunServer(events, stamp), RunServer(events + [Free(c)], stamp);
    RunServerConns(events, stamp);
    ServeMore(events, Free(c), stamp);
    RunServerOk(events, stamp);
    RunServerOk(events + [Free(c)], stamp);
    TableIsHolders(events, stamp);
    hide RunServer, RunConns, ServerOk, AsMap, SinksOf, Holders, OpOf, Next;
    HoldsIff(w, d);
    HoldsIff(w', d);
    ServeHolders(w, Free(c), stamp);
    FreedIsGone(w', c);
  }

  lemma {:induction false} FreedIsGone(w: World, c: Sink)
    requires ServerOk(w) && c !in w.conns
    ensures forall e :: e in w.net.slots ==> e.sink != c
  {
    hide ConnOk, Inv;
    forall e | e in w.net.slots ensures e.sink != c {
      assert Backed(w.conns, e);
    }
  }

  // ------------------------------------------------- two sessions, one address

  /** A connection comes in and reads `inputs`. */
  ghost function Login(id: Sink, inputs: seq<Input>): seq<Event> {
    if inputs == [] then [Accept(id)]
    else Login(id, inputs[..|inputs| - 1]) + [Receive(id, inputs[|inputs| - 1])]
  }

  lemma {:induction false} EventsMore(events: seq<Event>, ev: Event)
    ensures RunConns(events + [ev]) == ConnsAfter(RunConns(events), ev)
    ensures Holders(events + [ev]) == HoldersAfter(Holders(events), RunConns(events), ev)
  {
    hide ConnsAfter, HoldersAfter;
    assert (events + [ev])[..|events|] == events;
  }

  lemma {:induction false} LoginRuns(events: seq<Event>, id: Sink, inputs: seq<Input>)
    requires id !in RunConns(events)
    ensures RunConns(events + Login(id, inputs)) == RunConns(events)[id := RunConn(inputs)]
    ensures Holders(events + Login(id, inputs)) == Holders(events)
  {
    hide Step, RunConns, Holders;
    if inputs == [] {
      EventsMore(events, Accept(id));
    } else {
      var front, last := inputs[..|inputs| - 1], inputs[|inputs| - 1];
      LoginRuns(events, id, front);
      assert events + Login(id, inputs) == events + Login(id, front) + [Receive(id, last)];
      EventsMore(events + Login(id, front), Receive(id, last));
    }
  }

  lemma {:induction false} AvailableHolds(events: seq<Event>, id: Sink)
    requires IsSettled(RunConns(events), id) && |Holders(events)| < SESSION_TABLE_CAP
    ensures var ev := Available(id, false, 0, {});
            && RunConns(events + [ev]) == RunConns(events)
            && Holders(events + [ev]) == Holders(events)[RunConns(events)[id].session.boundJid := id]
  {
    hide RunConns, Holders, Settled;
    EventsMore(events, Available(id, false, 0, {}));
  }

  /** Two connections, 1 and 2, that read the same. */
  lemma {:induction false} TwoLogins(inputs: seq<Input>) returns (events: seq<Event>)
    ensures RunConns(events) == map[1 := RunConn(inputs), 2 := RunConn(inputs)] && Holders(events) == map[]
  {
    var none: seq<Event> := [];
    assert RunConns(none) == map[] && Holders(none) == map[];
    hide RunConns, Holders, RunConn, Login;
    LoginRuns(none, 1, inputs);
    var one := none + Login(1, inputs);
    LoginRuns(one, 2, inputs);
    events := one + Login(2, inputs);
  }

  /** Both become available, 2 last. */
  lemma {:induction false} TwoAvailable(events: seq<Event>, conn: Conn) returns (more: seq<Event>)
    requires RunConns(events) == map[1 := conn, 2 := conn] && Holders(events) == map[] && Settled(conn.session)
    ensures RunConns(more) == map[1 := conn, 2 := conn] && Holders(more) == map[conn.session.boundJid := 2]
  {
    hide RunConns, Holders, Settled;
    AvailableHolds(events, 1);
    var first := events + [Available(1, false, 0, {})];
    assert |Holders(first)| == 1;
    AvailableHolds(first, 2);
    more := first + [Available(2, false, 0, {})];
  }

  /** It happens: two sessions of one account bind the same resource, both become
      available, the older one ends, and the newer one is online without an entry
      in the table. */
  lemma {:induction false} CloseTakesOther(stamp: int -> string)
    ensures exists events, c, d ::
              && c in RunConns(events) && d in RunConns(events) && c != d
              && RunConns(events)[d].session.phase == Online
              && LosesEntry(RunServer(events, stamp), RunServer(events + [Free(c)], stamp), d)
  {
    var inputs := OnlineHappens();
    hide RunConns, Holders, RunServer, RunConn, LosesEntry;
    var events := TwoLogins(inputs);
    events := TwoAvailable(events, RunConn(inputs));
    CloseTakesOtherIff(events, stamp, 1, 2);
    assert LosesEntry(RunServer(events, stamp), RunServer(events + [Free(1)], stamp), 2);
  }
}
