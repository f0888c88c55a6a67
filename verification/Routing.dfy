/** Message routing: xmpp_message_handle of xmpp_message.c over the session
    table and the offline store, and what every run of the three keeps. */
module Routing {
  import opened Options
  import opened Jids
  import opened Stanzas
  import opened Sessions
  import opened Offline

  /** The connection a stanza came in on. */
  datatype Client = Client(jid: FullJid, domain: string, sink: Sink, carbons: bool)

  /** A message stanza: attributes, body, and which marker children it has. */
  datatype Message = Message(to: Option<string>, from: Option<string>, kind: Option<string>,
                             id: Option<string>, body: Option<string>,
                             isPrivate: bool, isReceiptAck: bool, wantsReceipt: bool)

  /** One call of the handler with everything outside it: the blocklist answer,
      the two clocks, and the sinks whose writes fail. */
  datatype Delivery = Delivery(who: Client, msg: Message, blocked: bool, now: nat, at: int, down: set<Sink>)

  datatype Net = Net(slots: seq<Entry>, wire: seq<Write>,
                     rows: seq<Row>, accepted: seq<Row>, handed: seq<Row>)

  datatype Op =
    | Register(who: Client, now: nat, down: set<Sink>)
    | Unregister(jid: Jid)
    | SetPriority(jid: Jid, priority: int)
    | SetCarbons(jid: Jid, enabled: bool)
    | Deliver(d: Delivery)

  const EmptyNet := Net([], [], [], [], [])

  // ------------------------------------------------------------ one message

  function To(msg: Message): string {
    if msg.to.Some? then msg.to.value else ""
  }

  function Copyable(msg: Message): bool {
    !msg.isPrivate && !msg.isReceiptAck
  }

  function Text(d: Delivery, to: string): Option<string> {
    Built(d.who.jid, to, d.msg.kind, d.msg.id, d.msg.body)
  }

  datatype Refusal = NoRecipient | ForeignDomain | Blocked | Accepted

  /** The checks in front of routing. */
  function Admission(d: Delivery): Refusal {
    if To(d.msg) == "" then NoRecipient
    else if Domain(To(d.msg)) != d.who.domain then ForeignDomain
    else if d.blocked then Blocked
    else Accepted
  }

  /** Where a message goes, with the stanza text that goes there. */
  datatype Route =
    | Nowhere
    | Exact(target: Jid, text: string)
    | Myself(text: string)
    | Best(target: Jid, text: string)
    | Nobody(text: string)

  ghost function RouteOf(s: seq<Entry>, d: Delivery): Route {
    var to := To(d.msg);
    var bare := Bare(to);
    if Admission(d) != Accepted then Nowhere
    else if HasResource(to) && Text(d, to).Some? && Reachable(AsMap(s), to, d.down) then Exact(to, Text(d, to).value)
    else if bare == Bare(d.who.jid) then
      match Text(d, bare) case Some(text) => Myself(text) case None => Nowhere
    else
      match BestJid(s, bare)
      case Some(best) => (match Text(d, best) case Some(text) => Best(best, text) case None => Nowhere)
      case None => (match Text(d, bare) case Some(text) => Nobody(text) case None => Nowhere)
  }

  function SentCarbon(d: Delivery, to: string): Packet {
    Carbon(Sent, Bare(d.who.jid), d.who.jid, to, d.msg.kind, d.msg.id, d.msg.body)
  }

  function ReceivedCarbon(d: Delivery): Packet {
    Carbon(Received, Bare(To(d.msg)), d.who.jid, To(d.msg), d.msg.kind, d.msg.id, d.msg.body)
  }

  ghost function SentCopies(s: seq<Entry>, d: Delivery, to: string): seq<Write> {
    if Copyable(d.msg)
    then Fanout(s, Audience(Bare(d.who.jid), Some(d.who.jid), true), SentCarbon(d, to), d.down)
    else []
  }

  ghost function ReceivedCopies(s: seq<Entry>, d: Delivery, except: Jid): seq<Write> {
    if Copyable(d.msg)
    then Fanout(s, Audience(Bare(To(d.msg)), Some(except), true), ReceivedCarbon(d), d.down)
    else []
  }

  ghost function Back(d: Delivery, text: Option<string>): seq<Write> {
    if text.Some? then Replied(d.who.sink, Notice(text.value), d.down) else []
  }

  function Receipt(d: Delivery): Option<string> {
    if !d.msg.isReceiptAck && d.msg.kind != Some("error") && d.msg.wantsReceipt
       && d.msg.id.Some? && d.msg.id.value != "" && d.msg.from.Some?
    then ReceiptText(d.who.jid, d.msg.from.value, d.msg.id.value)
    else None
  }

  function CapError(d: Delivery): Option<string> {
    ErrorText(d.msg.id, d.who.jid, "cancel", "service-unavailable")
  }

  /** The notices that go back to the sending connection before routing. */
  ghost function Notices(d: Delivery): seq<Write> {
    match Admission(d)
    case NoRecipient => Back(d, ErrorText(d.msg.id, "", "modify", "bad-request"))
    case ForeignDomain => Back(d, ErrorText(d.msg.id, To(d.msg), "cancel", "service-unavailable"))
    case Blocked => Back(d, Receipt(d))
    case Accepted => Back(d, Receipt(d))
  }

  ghost function CapNotice(rows: seq<Row>, d: Delivery): seq<Write> {
    if Capped(rows, Bare(To(d.msg))) then Back(d, CapError(d)) else []
  }

  /** The writes of routing, in the order the handler makes them. */
  ghost function Writes(s: seq<Entry>, d: Delivery, route: Route, capNotice: seq<Write>): seq<Write> {
    var m := AsMap(s);
    var touched := Touched(s, d.who.jid, d.now);
    match route
    case Nowhere => []
    case Exact(target, text) =>
      if Reachable(m, target, d.down) then
        [ToSession(target, m[target].sink, Forwarded(text))] + ReceivedCopies(touched, d, target)
      else []
    case Myself(text) =>
      Fanout(s, Audience(Bare(d.who.jid), Some(d.who.jid), false), Forwarded(text), d.down)
      + SentCopies(touched, d, Bare(To(d.msg)))
    case Best(target, text) =>
      if Reachable(m, target, d.down) then
        [ToSession(target, m[target].sink, Forwarded(text))]
        + SentCopies(touched, d, To(d.msg)) + ReceivedCopies(touched, d, target)
      else []
    case Nobody(_) =>
      capNotice + SentCopies(touched, d, Bare(To(d.msg)))
  }

  ghost function Traffic(n: Net, d: Delivery): seq<Write> {
    Writes(n.slots, d, RouteOf(n.slots, d), CapNotice(n.rows, d))
  }

  ghost function Stored(n: Net, d: Delivery): seq<Row> {
    var bare := Bare(To(d.msg));
    var route := RouteOf(n.slots, d);
    if route.Nobody? && !Capped(n.rows, bare)
    then [Row(bare, d.who.jid, route.text, d.at)] else []
  }

  ghost function Delivered(n: Net, d: Delivery): Net {
    n.(slots := if RouteOf(n.slots, d).Nowhere? then n.slots else Touched(n.slots, d.who.jid, d.now),
       wire := n.wire + (Notices(d) + Traffic(n, d)),
       rows := n.rows + Stored(n, d),
       accepted := n.accepted + Stored(n, d))
  }

  // -------------------------------------------------------------- the run

  ghost function ReplayWrites(jid: Jid, sink: Sink, texts: seq<string>, down: set<Sink>): seq<Write> {
    if texts == [] || sink in down then [] else
      ReplayWrites(jid, sink, texts[..|texts| - 1], down) + [ToSession(jid, sink, Replayed(texts[|texts| - 1]))]
  }

  ghost function Drained(n: Net, who: Client, down: set<Sink>, stamp: int -> string): Net {
    var bare := Bare(who.jid);
    var list := ByTime(Pending(n.rows, bare));
    n.(wire := n.wire + ReplayWrites(who.jid, who.sink, Replays(list, bare, stamp), down),
       rows := Without(n.rows, bare),
       handed := n.handed + list)
  }

  ghost function Next(n: Net, op: Op, stamp: int -> string): Net {
    match op
    case Register(who, now, down) =>
      var n' := n.(slots := Registered(n.slots, who.jid, who.sink, who.carbons, now));
      if Claims(n.slots, who.jid) then Drained(n', who, down, stamp) else n'
    case Unregister(jid) => n.(slots := Unregistered(n.slots, jid))
    case SetPriority(jid, priority) => n.(slots := WithPriority(n.slots, jid, priority))
    case SetCarbons(jid, enabled) => n.(slots := WithCarbons(n.slots, jid, enabled))
    case Deliver(d) => Delivered(n, d)
  }

  /** The state after any sequence of operations from an empty server. */
  ghost function Run(ops: seq<Op>, stamp: int -> string): Net {
    if ops == [] then EmptyNet else Next(Run(ops[..|ops| - 1], stamp), ops[|ops| - 1], stamp)
  }

  // ---------------------------------------------- what each session receives

  /** The receiver's side of routing: what the live session `e` must get. */
  ghost function Expected(m: map<Jid, Entry>, d: Delivery, route: Route, e: Entry): seq<Packet> {
    var mine := Bare(e.jid) == Bare(d.who.jid) && e.jid != d.who.jid;
    var theirs := Bare(e.jid) == Bare(To(d.msg));
    var copied := Copyable(d.msg) && e.carbons;
    if e.sink in d.down then [] else
      match route
      case Nowhere => []
      case Exact(target, text) =>
        if e.jid == target then [Forwarded(text)]
        else if theirs && copied then [ReceivedCarbon(d)] else []
      case Myself(text) =>
        if mine then [Forwarded(text)] + (if copied then [SentCarbon(d, Bare(To(d.msg)))] else []) else []
      case Best(target, text) =>
        if !Reachable(m, target, d.down) then []
        else if e.jid == target then [Forwarded(text)]
        else if theirs && copied then [ReceivedCarbon(d)]
        else if mine && copied then [SentCarbon(d, To(d.msg))] else []
      case Nobody(_) =>
        if mine && copied then [SentCarbon(d, Bare(To(d.msg)))] else []
  }

  ghost function ExpectedAt(s: seq<Entry>, d: Delivery, route: Route, jid: Jid): seq<Packet> {
    if jid in AsMap(s) then Expected(AsMap(s), d, route, AsMap(s)[jid]) else []
  }

  /** Touching an entry changes nothing a pass over the table looks at. */
  lemma {:induction false} TouchedShare(s: seq<Entry>, who: Jid, now: nat, jid: Jid, a: Audience, p: Packet,
                                        down: set<Sink>)
    requires Distinct(s)
    ensures Distinct(Touched(s, who, now))
    ensures Share(AsMap(Touched(s, who, now)), jid, a, p, down) == Share(AsMap(s), jid, a, p, down)
  {
    UpdatesRefineMap(s, who, false, now, 0);
    hide Touched, Find, Bare, AsMap;
  }

  lemma {:induction false} TouchedFanout(s: seq<Entry>, who: Jid, now: nat, a: Audience, p: Packet, down: set<Sink>,
                                         jid: Jid)
    requires Distinct(s)
    ensures Inbox(Fanout(Touched(s, who, now), a, p, down), jid) == Share(AsMap(s), jid, a, p, down)
  {
    TouchedShare(s, who, now, jid, a, p, down);
    FanoutInbox(Touched(s, who, now), a, p, down, jid);
  }

  lemma {:induction false} SentCopiesInbox(s: seq<Entry>, d: Delivery, to: string, jid: Jid)
    requires Distinct(s)
    ensures Inbox(SentCopies(Touched(s, d.who.jid, d.now), d, to), jid)
            == if Copyable(d.msg)
               then Share(AsMap(s), jid, Audience(Bare(d.who.jid), Some(d.who.jid), true), SentCarbon(d, to), d.down)
               else []
  {
    TouchedFanout(s, d.who.jid, d.now, Audience(Bare(d.who.jid), Some(d.who.jid), true), SentCarbon(d, to), d.down,
                  jid);
  }

  lemma {:induction false} ReceivedCopiesInbox(s: seq<Entry>, d: Delivery, except: Jid, jid: Jid)
    requires Distinct(s)
    ensures Inbox(ReceivedCopies(Touched(s, d.who.jid, d.now), d, except), jid)
            == if Copyable(d.msg)
               then Share(AsMap(s), jid, Audience(Bare(To(d.msg)), Some(except), true), ReceivedCarbon(d), d.down)
               else []
  {
    TouchedFanout(s, d.who.jid, d.now, Audience(Bare(To(d.msg)), Some(except), true), ReceivedCarbon(d), d.down, jid);
  }

  lemma {:induction false} OneInbox(x: Write, jid: Jid)
    ensures Inbox([x], jid) == if x.ToSession? && x.jid == jid then [x.packet] else []
  {
    assert [x][..0] == [];
  }

  lemma {:induction false} BackInbox(d: Delivery, text: Option<string>, jid: Jid)
    ensures Inbox(Back(d, text), jid) == []
  {
    if text.Some? {
      OneInbox(ToSender(d.who.sink, Notice(text.value)), jid);
    }
  }

  lemma {:induction false} KeysMatch(s: seq<Entry>)
    requires Distinct(s)
    ensures forall k :: k in AsMap(s) ==> AsMap(s)[k].jid == k
  {
    AsMapFacts(s);
    forall k | k in AsMap(s)
      ensures AsMap(s)[k].jid == k
    {
      var i :| 0 <= i < |s| && s[i].jid == k;
    }
  }

  lemma {:induction false} ExactInbox(s: seq<Entry>, d: Delivery, route: Route, jid: Jid)
    requires Distinct(s)
    requires route.Exact? && Reachable(AsMap(s), route.target, d.down)
    ensures Inbox(Writes(s, d, route, []), jid) == ExpectedAt(s, d, route, jid)
  {
    hide Find, Bare, AsMap, Fanout, Inbox, Touched;
    var first := ToSession(route.target, AsMap(s)[route.target].sink, Forwarded(route.text));
    KeysMatch(s);
    OneInbox(first, jid);
    InboxConcat([first], ReceivedCopies(Touched(s, d.who.jid, d.now), d, route.target), jid);
    ReceivedCopiesInbox(s, d, route.target, jid);
  }

  lemma {:induction false} MyselfInbox(s: seq<Entry>, d: Delivery, route: Route, jid: Jid)
    requires Distinct(s) && route.Myself?
    ensures Inbox(Writes(s, d, route, []), jid) == ExpectedAt(s, d, route, jid)
  {
    hide Find, Bare, AsMap, Fanout, Inbox, Touched;
    var others := Audience(Bare(d.who.jid), Some(d.who.jid), false);
    var to := Bare(To(d.msg));
    KeysMatch(s);
    FanoutInbox(s, others, Forwarded(route.text), d.down, jid);
    InboxConcat(Fanout(s, others, Forwarded(route.text), d.down),
                SentCopies(Touched(s, d.who.jid, d.now), d, to), jid);
    SentCopiesInbox(s, d, to, jid);
  }

  /** Seen from one session, the three parts of a best-resource delivery
      never overlap. */
  lemma {:induction false} BestParts(m: map<Jid, Entry>, d: Delivery, route: Route, jid: Jid)
    requires route.Best? && Reachable(m, route.target, d.down)
    requires Bare(route.target) == Bare(To(d.msg)) != Bare(d.who.jid)
    requires forall k :: k in m ==> m[k].jid == k
    ensures (if jid == route.target then [Forwarded(route.text)] else [])
            + (if Copyable(d.msg)
               then Share(m, jid, Audience(Bare(d.who.jid), Some(d.who.jid), true), SentCarbon(d, To(d.msg)), d.down)
               else [])
            + (if Copyable(d.msg)
               then Share(m, jid, Audience(Bare(To(d.msg)), Some(route.target), true), ReceivedCarbon(d), d.down)
               else [])
            == if jid in m then Expected(m, d, route, m[jid]) else []
  {
    hide Find, Bare;
  }

  lemma {:induction false} BestInbox(s: seq<Entry>, d: Delivery, route: Route, jid: Jid)
    requires Distinct(s) && route.Best?
    requires Bare(route.target) == Bare(To(d.msg)) != Bare(d.who.jid)
    ensures Inbox(Writes(s, d, route, []), jid) == ExpectedAt(s, d, route, jid)
  {
    hide Find, Bare, AsMap, Fanout, Touched;
    KeysMatch(s);
    if Reachable(AsMap(s), route.target, d.down) {
      var first := ToSession(route.target, AsMap(s)[route.target].sink, Forwarded(route.text));
      var touched := Touched(s, d.who.jid, d.now);
      var sent := SentCopies(touched, d, To(d.msg));
      var received := ReceivedCopies(touched, d, route.target);
      assert Inbox(Writes(s, d, route, []), jid) == Inbox([first], jid) + Inbox(sent, jid) + Inbox(received, jid) by {
        InboxConcat([first], sent, jid);
        InboxConcat([first] + sent, received, jid);
      }
      assert Inbox([first], jid) == if jid == route.target then [Forwarded(route.text)] else [] by {
        OneInbox(first, jid);
      }
      SentCopiesInbox(s, d, To(d.msg), jid);
      ReceivedCopiesInbox(s, d, route.target, jid);
      BestParts(AsMap(s), d, route, jid);
    }
  }

  lemma {:induction false} NobodyInbox(s: seq<Entry>, d: Delivery, route: Route, notice: seq<Write>, jid: Jid)
    requires Distinct(s) && route.Nobody?
    requires Inbox(notice, jid) == []
    ensures Inbox(Writes(s, d, route, notice), jid) == ExpectedAt(s, d, route, jid)
  {
    hide Find, Bare, AsMap, Fanout, Inbox, Touched;
    var to := Bare(To(d.msg));
    KeysMatch(s);
    InboxConcat(notice, SentCopies(Touched(s, d.who.jid, d.now), d, to), jid);
    SentCopiesInbox(s, d, to, jid);
  }

  /** What the route decision guarantees about its target. */
  lemma {:induction false} RouteFacts(s: seq<Entry>, d: Delivery)
    requires Distinct(s)
    ensures var route := RouteOf(s, d);
            && (route.Exact? ==> route.target == To(d.msg) && Reachable(AsMap(s), route.target, d.down))
            && (route.Best? ==> Bare(route.target) == Bare(To(d.msg)) != Bare(d.who.jid)
                                && route.target in AsMap(s)
                                && forall k :: k in AsMap(s) && Bare(k) == Bare(To(d.msg)) ==>
                                     var e, best := AsMap(s)[k], AsMap(s)[route.target];
                                     || e.priority < best.priority
                                     || (e.priority == best.priority && e.lastActive <= best.lastActive))
            && (route.Myself? ==> Bare(To(d.msg)) == Bare(d.who.jid))
            && (route.Nobody? ==> forall e :: e in s ==> Bare(e.jid) != Bare(To(d.msg)))
  {
    BestSlotRefines(s, Bare(To(d.msg)));
    BestSlotFacts(s, Bare(To(d.msg)));
  }

  lemma {:induction false} NoticesInbox(rows: seq<Row>, d: Delivery, jid: Jid)
    ensures Inbox(Notices(d), jid) == []
    ensures Inbox(CapNotice(rows, d), jid) == []
  {
    BackInbox(d, ErrorText(d.msg.id, "", "modify", "bad-request"), jid);
    BackInbox(d, ErrorText(d.msg.id, To(d.msg), "cancel", "service-unavailable"), jid);
    BackInbox(d, Receipt(d), jid);
    BackInbox(d, CapError(d), jid);
  }

  lemma {:induction false} NowhereInbox(s: seq<Entry>, d: Delivery, notice: seq<Write>, jid: Jid)
    ensures Inbox(Writes(s, d, Nowhere, notice), jid) == ExpectedAt(s, d, Nowhere, jid)
  {
  }

  lemma {:induction false} WritesInbox(s: seq<Entry>, d: Delivery, route: Route, notice: seq<Write>, jid: Jid)
    requires Distinct(s)
    requires route.Exact? ==> Reachable(AsMap(s), route.target, d.down)
    requires route.Best? ==> Bare(route.target) == Bare(To(d.msg)) != Bare(d.who.jid)
    requires Inbox(notice, jid) == []
    ensures Inbox(Writes(s, d, route, notice), jid) == ExpectedAt(s, d, route, jid)
  {
    hide Find, Bare, AsMap, Fanout, Inbox, Touched, ExpectedAt;
    match route
    case Nowhere => NowhereInbox(s, d, notice, jid);
    case Exact(_, _) => ExactInbox(s, d, route, jid);
    case Myself(_) => MyselfInbox(s, d, route, jid);
    case Best(_, _) => BestInbox(s, d, route, jid);
    case Nobody(_) => NobodyInbox(s, d, route, notice, jid);
  }

  /** Main routing theorem: the writes the handler makes, seen from any
      session, are exactly what that session must get. */
  lemma {:induction false} TrafficMeetsExpected(n: Net, d: Delivery, jid: Jid)
    requires Distinct(n.slots)
    ensures Inbox(Notices(d) + Traffic(n, d), jid) == ExpectedAt(n.slots, d, RouteOf(n.slots, d), jid)
  {
    hide Find, Bare, AsMap, Fanout, Inbox, Touched, Writes, ExpectedAt, RouteOf, Notices, CapNotice;
    InboxConcat(Notices(d), Traffic(n, d), jid);
    NoticesInbox(n.rows, d, jid);
    RouteFacts(n.slots, d);
    WritesInbox(n.slots, d, RouteOf(n.slots, d), CapNotice(n.rows, d), jid);
  }

  /** No live session gets two packets from one message; the only exception is
      a message to one's own bare JID, where a carbons-enabled other resource
      gets the original and one sent carbon, and the sender gets nothing. */
  lemma {:induction false} NoDuplicates(s: seq<Entry>, d: Delivery, route: Route, jid: Jid)
    requires Distinct(s)
    ensures var got := ExpectedAt(s, d, route, jid);
            && (|got| > 1 <==> && route.Myself? && jid in AsMap(s) && AsMap(s)[jid].sink !in d.down
                               && Bare(jid) == Bare(d.who.jid) && jid != d.who.jid
                               && AsMap(s)[jid].carbons && Copyable(d.msg))
            && (|got| > 1 ==> got == [Forwarded(route.text), SentCarbon(d, Bare(To(d.msg)))])
            && (route.Myself? && jid == d.who.jid ==> got == [])
  {
    hide Find, Bare, AsMap;
    KeysMatch(s);
  }

  // ------------------------------- the same, from the message and the table alone

  /** The message is for a local user who has not blocked the sender. */
  predicate Acceptable(d: Delivery) {
    d.msg.to.Some? && d.msg.to.value != "" && Domain(d.msg.to.value) == d.who.domain && !d.blocked
  }

  /** The stanza a copy addressed to `at` makes, if it fits. */
  function Stanza(d: Delivery, at: string): string {
    MessageText(d.who.jid, at, d.msg.kind, d.msg.id, d.msg.body)
  }

  /** The addressed resource is there, can be written to, and the stanza fits. */
  predicate GoesExact(m: map<Jid, Entry>, d: Delivery, to: string) {
    '/' in to && to in m && m[to].sink !in d.down && |Stanza(d, to)| <= 65535
  }

  /** What an acceptable message to `to` brings the live session `jid`. */
  ghost function Brings(s: seq<Entry>, d: Delivery, to: string, jid: Jid, carbons: bool): seq<Packet> {
    var m, from, bare := AsMap(s), d.who.jid, Bare(to);
    var other := Bare(jid) == Bare(from) && jid != from;
    var copied := carbons && !d.msg.isPrivate && !d.msg.isReceiptAck;
    var received := Carbon(Received, bare, from, to, d.msg.kind, d.msg.id, d.msg.body);
    if GoesExact(m, d, to) then
      if jid == to then [Forwarded(Stanza(d, to))]
      else if Bare(jid) == bare && copied then [received] else []
    else if bare == Bare(from) then
      if !other || |Stanza(d, bare)| > 65535 then [] else
        [Forwarded(Stanza(d, bare))]
        + if copied then [Carbon(Sent, bare, from, bare, d.msg.kind, d.msg.id, d.msg.body)] else []
    else match BestJid(s, bare)
      case Some(best) =>
        if best !in m || m[best].sink in d.down || |Stanza(d, best)| > 65535 then []
        else if jid == best then [Forwarded(Stanza(d, best))]
        else if Bare(jid) == bare && copied then [received]
        else if other && copied then [Carbon(Sent, Bare(from), from, to, d.msg.kind, d.msg.id, d.msg.body)] else []
      case None =>
        if other && copied && |Stanza(d, bare)| <= 65535
        then [Carbon(Sent, Bare(from), from, bare, d.msg.kind, d.msg.id, d.msg.body)] else []
  }

  /** What the session `jid` is due: nothing unless it is in the table and can be
      written to, and the message is acceptable. */
  ghost function Due(s: seq<Entry>, d: Delivery, jid: Jid): seq<Packet> {
    var m := AsMap(s);
    if jid !in m || m[jid].sink in d.down || !Acceptable(d) then []
    else Brings(s, d, d.msg.to.value, jid, m[jid].carbons)
  }

  /** The row that is stored: exactly for an acceptable message that fits, to
      another user, with no session of that user, and fewer than 100 messages and
      1048576 octets waiting. */
  ghost function DueRow(n: Net, d: Delivery): seq<Row> {
    if !Acceptable(d) then [] else
      var to, bare := d.msg.to.value, Bare(d.msg.to.value);
      var waiting := Pending(n.rows, bare);
      if && !GoesExact(AsMap(n.slots), d, to) && bare != Bare(d.who.jid)
         && (forall e :: e in n.slots ==> Bare(e.jid) != bare)
         && |Stanza(d, bare)| <= 65535 && |waiting| <= 99 && Bytes(waiting) <= 1048575
      then [Row(bare, d.who.jid, Stanza(d, bare), d.at)] else []
  }

  lemma {:induction false} AdmissionIff(d: Delivery)
    ensures Admission(d) == Accepted <==> Acceptable(d)
    ensures Acceptable(d) ==> To(d.msg) == d.msg.to.value
  {
  }

  lemma {:induction false} TextIs(d: Delivery, at: string)
    ensures Text(d, at) == if |Stanza(d, at)| <= 65535 then Some(Stanza(d, at)) else None
  {
  }

  lemma {:induction false} ExactIff(s: seq<Entry>, d: Delivery)
    requires Acceptable(d)
    ensures RouteOf(s, d).Exact? <==> GoesExact(AsMap(s), d, d.msg.to.value)
    ensures RouteOf(s, d).Exact? ==> RouteOf(s, d) == Exact(d.msg.to.value, Stanza(d, d.msg.to.value))
  {
    AdmissionIff(d);
    TextIs(d, d.msg.to.value);
    HasResourceIff(d.msg.to.value);
    hide Bare, Admission, Text, Stanza, AsMap, BestJid, HasResource, Acceptable;
  }

  /** The route in other words. */
  lemma {:induction false} RouteIs(s: seq<Entry>, d: Delivery)
    requires Acceptable(d)
    ensures var to, bare := d.msg.to.value, Bare(d.msg.to.value);
            RouteOf(s, d) ==
              if GoesExact(AsMap(s), d, to) then Exact(to, Stanza(d, to))
              else if bare == Bare(d.who.jid) then
                (if |Stanza(d, bare)| <= 65535 then Myself(Stanza(d, bare)) else Nowhere)
              else match BestJid(s, bare)
                case Some(best) => if |Stanza(d, best)| <= 65535 then Best(best, Stanza(d, best)) else Nowhere
                case None => if |Stanza(d, bare)| <= 65535 then Nobody(Stanza(d, bare)) else Nowhere
  {
    ExactIff(s, d);
    AdmissionIff(d);
    TextIs(d, Bare(d.msg.to.value));
    if BestJid(s, Bare(d.msg.to.value)).Some? {
      TextIs(d, BestJid(s, Bare(d.msg.to.value)).value);
    }
    hide Bare, Admission, Text, Stanza, AsMap, BestJid, HasResource, Acceptable, GoesExact;
  }

  /** One route at a time: the share by route is what the message brings. */
  lemma {:induction false} RouteBrings(s: seq<Entry>, d: Delivery, route: Route, e: Entry)
    requires Acceptable(d) && e.sink !in d.down && To(d.msg) == d.msg.to.value
    requires var to, bare := d.msg.to.value, Bare(d.msg.to.value);
             match route
             case Exact(target, text) => GoesExact(AsMap(s), d, to) && target == to && text == Stanza(d, to)
             case Myself(text) => !GoesExact(AsMap(s), d, to) && bare == Bare(d.who.jid)
                                  && |Stanza(d, bare)| <= 65535 && text == Stanza(d, bare)
             case Best(best, text) => !GoesExact(AsMap(s), d, to) && bare != Bare(d.who.jid)
                                      && BestJid(s, bare) == Some(best)
                                      && |Stanza(d, best)| <= 65535 && text == Stanza(d, best)
             case Nobody(_) => !GoesExact(AsMap(s), d, to) && bare != Bare(d.who.jid) && BestJid(s, bare) == None
                               && |Stanza(d, bare)| <= 65535
             case Nowhere =>
               && !GoesExact(AsMap(s), d, to)
               && |Stanza(d, if bare == Bare(d.who.jid) || BestJid(s, bare) == None then bare
                             else BestJid(s, bare).value)| > 65535
    ensures Expected(AsMap(s), d, route, e) == Brings(s, d, d.msg.to.value, e.jid, e.carbons)
  {
    hide Bare, Stanza, AsMap, BestJid, Acceptable, GoesExact;
    match route
    case Exact(_, _) =>
    case Myself(_) =>
    case Best(_, _) =>
    case Nobody(_) =>
    case Nowhere =>
  }

  lemma {:induction false} ExpectedIsBrought(s: seq<Entry>, d: Delivery, jid: Jid)
    requires Acceptable(d) && jid in AsMap(s) && AsMap(s)[jid].jid == jid && AsMap(s)[jid].sink !in d.down
    ensures Expected(AsMap(s), d, RouteOf(s, d), AsMap(s)[jid])
            == Brings(s, d, d.msg.to.value, jid, AsMap(s)[jid].carbons)
  {
    hide Bare, Admission, Stanza, AsMap, BestJid, Acceptable, GoesExact, RouteOf, Expected, Brings;
    RouteIs(s, d);
    AdmissionIff(d);
    RouteBrings(s, d, RouteOf(s, d), AsMap(s)[jid]);
  }

  lemma {:induction false} RefusedExpectsNothing(s: seq<Entry>, d: Delivery, jid: Jid)
    requires !Acceptable(d)
    ensures RouteOf(s, d) == Nowhere && ExpectedAt(s, d, RouteOf(s, d), jid) == []
  {
    AdmissionIff(d);
    hide Bare, Admission, Acceptable, AsMap;
  }

  /** Main routing theorem without naming a route: the writes of the handler, seen
      from any session, are exactly what that session is due. */
  lemma {:induction false} TrafficIsDue(n: Net, d: Delivery, jid: Jid)
    requires Distinct(n.slots)
    ensures Inbox(Notices(d) + Traffic(n, d), jid) == Due(n.slots, d, jid)
  {
    TrafficMeetsExpected(n, d, jid);
    KeysMatch(n.slots);
    hide Bare, AsMap, Inbox, Notices, Traffic, RouteOf, Acceptable, Brings, Expected;
    if !Acceptable(d) {
      RefusedExpectsNothing(n.slots, d, jid);
    } else if jid in AsMap(n.slots) {
      if AsMap(n.slots)[jid].sink in d.down {
        DownExpectsNothing(AsMap(n.slots), d, RouteOf(n.slots, d), AsMap(n.slots)[jid]);
      } else {
        ExpectedIsBrought(n.slots, d, jid);
      }
    }
  }

  lemma {:induction false} DownExpectsNothing(m: map<Jid, Entry>, d: Delivery, route: Route, e: Entry)
    requires e.sink in d.down
    ensures Expected(m, d, route, e) == []
  {
  }

  /** What is stored is exactly the row that is due. */
  lemma {:induction false} StoredIsDue(n: Net, d: Delivery)
    ensures Stored(n, d) == DueRow(n, d)
  {
    hide Bare, Stanza, AsMap, BestJid, Domain, GoesExact, RouteOf, Pending, Bytes, Admission;
    AdmissionIff(d);
    if Acceptable(d) {
      RouteIs(n.slots, d);
      BestNone(n.slots, Bare(d.msg.to.value));
    } else {
      RefusedExpectsNothing(n.slots, d, "");
    }
  }

  lemma {:induction false} BestNone(s: seq<Entry>, bare: Jid)
    ensures BestJid(s, bare) == None <==> forall e :: e in s ==> Bare(e.jid) != bare
  {
    hide Bare, BestSlot;
    BestSlotFacts(s, bare);
    if BestSlot(s, bare) >= 0 {
      assert s[BestSlot(s, bare)] in s;
    }
  }

  /** A message that is not for a local user, or is blocked, reaches nobody and is
      not stored. */
  lemma {:induction false} RefusedReachesNobody(n: Net, d: Delivery)
    requires Distinct(n.slots)
    requires || d.msg.to == None || d.msg.to == Some("")
             || Domain(d.msg.to.value) != d.who.domain || d.blocked
    ensures forall jid :: Inbox(Notices(d) + Traffic(n, d), jid) == []
    ensures Stored(n, d) == [] && Delivered(n, d).rows == n.rows && Delivered(n, d).slots == n.slots
    ensures !Arrives(n, d)
  {
    hide Bare, Domain, AsMap, Inbox, Notices, Traffic, RouteOf;
    forall jid ensures Inbox(Notices(d) + Traffic(n, d), jid) == [] {
      TrafficIsDue(n, d, jid);
    }
    StoredIsDue(n, d);
    RefusedExpectsNothing(n.slots, d, "");
  }

  // ---------------------------------------------- what goes back to the sender

  function Once(text: Option<string>): seq<Packet> {
    match text case None => [] case Some(t) => [Notice(t)]
  }

  /** The handler asks for a receipt, and has what it needs to send one. */
  predicate ReceiptIsDue(msg: Message) {
    && msg.wantsReceipt && !msg.isReceiptAck && msg.kind != Some("error")
    && msg.from.Some? && msg.id.Some? && msg.id.value != ""
  }

  /** What the connection that sent the message is due: one error for a missing
      or a foreign recipient; otherwise a receipt if asked for, also when it is
      blocked, and one error when the recipient's queue is full. */
  ghost function DueBack(n: Net, d: Delivery): seq<Packet> {
    if d.who.sink in d.down then []
    else if d.msg.to == None || d.msg.to == Some("") then Once(ErrorText(d.msg.id, "", "modify", "bad-request"))
    else if Domain(d.msg.to.value) != d.who.domain then
      Once(ErrorText(d.msg.id, d.msg.to.value, "cancel", "service-unavailable"))
    else
      var to, bare := d.msg.to.value, Bare(d.msg.to.value);
      var waiting := Pending(n.rows, bare);
      (if ReceiptIsDue(d.msg) then Once(ReceiptText(d.who.jid, d.msg.from.value, d.msg.id.value)) else [])
      + if && !d.blocked && !GoesExact(AsMap(n.slots), d, to) && bare != Bare(d.who.jid)
           && (forall e :: e in n.slots ==> Bare(e.jid) != bare)
           && |Stanza(d, bare)| <= 65535 && (|waiting| >= 100 || Bytes(waiting) >= 1048576)
        then Once(ErrorText(d.msg.id, d.who.jid, "cancel", "service-unavailable")) else []
  }

  lemma {:induction false} BackReplies(d: Delivery, text: Option<string>)
    ensures Replies(Back(d, text)) == if d.who.sink in d.down then [] else Once(text)
    ensures Replies([]) == []
  {
    if text.Some? && d.who.sink !in d.down {
      assert Back(d, text) == [ToSender(d.who.sink, Notice(text.value))];
      assert [ToSender(d.who.sink, Notice(text.value))][..0] == [];
    }
  }

  lemma {:induction false} CopiesReplyNothing(s: seq<Entry>, d: Delivery, to: string, except: Jid)
    requires Distinct(s)
    ensures Replies(SentCopies(s, d, to)) == [] && Replies(ReceivedCopies(s, d, except)) == []
  {
    hide Bare, Fanout;
    FanoutInbox(s, Audience(Bare(d.who.jid), Some(d.who.jid), true), SentCarbon(d, to), d.down, "");
    FanoutInbox(s, Audience(Bare(To(d.msg)), Some(except), true), ReceivedCarbon(d), d.down, "");
    BackReplies(d, None);
  }

  lemma {:induction false} OneReply(jid: Jid, sink: Sink, p: Packet)
    ensures Replies([ToSession(jid, sink, p)]) == []
  {
    assert [ToSession(jid, sink, p)][..0] == [];
  }

  lemma {:induction false} WritesReply(s: seq<Entry>, d: Delivery, route: Route, notice: seq<Write>)
    requires Distinct(s)
    ensures Replies(Writes(s, d, route, notice)) == if route.Nobody? then Replies(notice) else []
  {
    hide Bare, Fanout, AsMap, Touched, SentCopies, ReceivedCopies, Replies;
    var touched := Touched(s, d.who.jid, d.now);
    UpdatesRefineMap(s, d.who.jid, false, d.now, 0);
    BackReplies(d, None);
    CopiesReplyNothing(touched, d, Bare(To(d.msg)), "");
    CopiesReplyNothing(touched, d, To(d.msg), "");
    match route
    case Nowhere =>
    case Exact(target, text) =>
      if Reachable(AsMap(s), target, d.down) {
        OneReply(target, AsMap(s)[target].sink, Forwarded(text));
        CopiesReplyNothing(touched, d, "", target);
        RepliesConcat([ToSession(target, AsMap(s)[target].sink, Forwarded(text))], ReceivedCopies(touched, d, target));
      }
    case Myself(text) =>
      var others := Audience(Bare(d.who.jid), Some(d.who.jid), false);
      FanoutInbox(s, others, Forwarded(text), d.down, "");
      RepliesConcat(Fanout(s, others, Forwarded(text), d.down), SentCopies(touched, d, Bare(To(d.msg))));
    case Best(target, text) =>
      if Reachable(AsMap(s), target, d.down) {
        var first := [ToSession(target, AsMap(s)[target].sink, Forwarded(text))];
        var sent := SentCopies(touched, d, To(d.msg));
        OneReply(target, AsMap(s)[target].sink, Forwarded(text));
        CopiesReplyNothing(touched, d, "", target);
        RepliesConcat(first, sent);
        RepliesConcat(first + sent, ReceivedCopies(touched, d, target));
      }
    case Nobody(_) => RepliesConcat(notice, SentCopies(touched, d, Bare(To(d.msg))));
  }

  lemma {:induction false} NoticesReply(d: Delivery)
    ensures Replies(Notices(d)) ==
              if d.who.sink in d.down then []
              else if d.msg.to == None || d.msg.to == Some("") then
                Once(ErrorText(d.msg.id, "", "modify", "bad-request"))
              else if Domain(d.msg.to.value) != d.who.domain then
                Once(ErrorText(d.msg.id, d.msg.to.value, "cancel", "service-unavailable"))
              else if ReceiptIsDue(d.msg) then Once(ReceiptText(d.who.jid, d.msg.from.value, d.msg.id.value)) else []
  {
    hide Domain, ErrorText, ReceiptText, Back, Replies;
    BackReplies(d, ErrorText(d.msg.id, "", "modify", "bad-request"));
    BackReplies(d, ErrorText(d.msg.id, To(d.msg), "cancel", "service-unavailable"));
    BackReplies(d, Receipt(d));
  }

  /** What the handler writes back to the connection it serves is exactly what
      that connection is due. */
  lemma {:induction false} RepliesAreDue(n: Net, d: Delivery)
    requires Distinct(n.slots)
    ensures Replies(Notices(d) + Traffic(n, d)) == DueBack(n, d)
  {
    hide Bare, Domain, ErrorText, ReceiptText, Back, Replies, Notices, Writes, RouteOf, AsMap, Stanza, GoesExact,
      Pending, Bytes, ReceiptIsDue, Once, BestJid;
    RepliesConcat(Notices(d), Traffic(n, d));
    NoticesReply(d);
    WritesReply(n.slots, d, RouteOf(n.slots, d), CapNotice(n.rows, d));
    BackReplies(d, CapError(d));
    AdmissionIff(d);
    if Acceptable(d) {
      RouteIs(n.slots, d);
      BestNone(n.slots, Bare(d.msg.to.value));
    } else {
      RefusedExpectsNothing(n.slots, d, "");
    }
  }

  /** The sender's activity time is renewed exactly when the message goes
      somewhere; nothing else in the table changes. */
  lemma {:induction false} SenderIsTouched(n: Net, d: Delivery)
    requires Distinct(n.slots)
    ensures var m := AsMap(n.slots);
            var goes := && Acceptable(d)
                        && var to, best := d.msg.to.value, BestJid(n.slots, Bare(d.msg.to.value));
                           var at := if Bare(to) == Bare(d.who.jid) || best.None? then Bare(to) else best.value;
                           GoesExact(m, d, to) || |Stanza(d, at)| <= 65535;
            AsMap(Delivered(n, d).slots)
            == if goes && d.who.jid in m then m[d.who.jid := m[d.who.jid].(lastActive := d.now)] else m
  {
    hide Bare, AsMap, Touched, RouteOf, Stanza, GoesExact, BestJid, Acceptable, Stored, Notices, Traffic;
    UpdatesRefineMap(n.slots, d.who.jid, false, d.now, 0);
    if Acceptable(d) {
      RouteIs(n.slots, d);
    } else {
      RefusedExpectsNothing(n.slots, d, "");
    }
  }

  // ------------------------------------------------- does the message arrive

  /** The session `jid` is handed the message itself, not a copy of it. */
  ghost predicate GetsOriginal(n: Net, d: Delivery, jid: Jid) {
    HasOriginal(Inbox(Notices(d) + Traffic(n, d), jid))
  }

  ghost predicate HasOriginal(got: seq<Packet>) {
    exists p :: p in got && p.Forwarded?
  }

  /** Some session gets the message, or it is stored for later. */
  ghost predicate Arrives(n: Net, d: Delivery) {
    (exists jid :: GetsOriginal(n, d, jid)) || Stored(n, d) != []
  }

  /** Another resource of the sender that can be written to. */
  ghost predicate OtherLive(m: map<Jid, Entry>, d: Delivery, jid: Jid) {
    Reachable(m, jid, d.down) && Bare(jid) == Bare(d.who.jid) && jid != d.who.jid
  }

  ghost predicate HasOtherLive(s: seq<Entry>, d: Delivery) {
    exists jid :: OtherLive(AsMap(s), d, jid)
  }

  /** The address of the stanza when the exact resource does not take it. */
  ghost function FallBack(s: seq<Entry>, d: Delivery): Jid {
    var bare := Bare(To(d.msg));
    if bare == Bare(d.who.jid) || BestJid(s, bare).None? then bare else BestJid(s, bare).value
  }

  /** When an acceptable message gets through, read off the table, the quota and
      the size of the stanza. */
  ghost predicate GetsThrough(n: Net, d: Delivery)
    requires d.msg.to.Some?
  {
    var m, to, bare := AsMap(n.slots), d.msg.to.value, Bare(d.msg.to.value);
    || GoesExact(m, d, to)
    || (&& |Stanza(d, FallBack(n.slots, d))| <= 65535
        && if bare == Bare(d.who.jid) then HasOtherLive(n.slots, d)
           else if BestJid(n.slots, bare).Some? then Reachable(m, BestJid(n.slots, bare).value, d.down)
           else |Pending(n.rows, bare)| <= 99 && Bytes(Pending(n.rows, bare)) <= 1048575)
  }

  lemma {:induction false} OriginalIff(n: Net, d: Delivery, jid: Jid)
    requires Distinct(n.slots)
    ensures var m, route := AsMap(n.slots), RouteOf(n.slots, d);
            GetsOriginal(n, d, jid) <==>
              || (route.Exact? && jid == route.target)
              || (route.Best? && jid == route.target && Reachable(m, jid, d.down))
              || (route.Myself? && OtherLive(m, d, jid))
  {
    hide Find, Bare, AsMap, Inbox, Notices, Traffic, RouteOf, ExpectedAt, HasOriginal, OtherLive;
    TrafficMeetsExpected(n, d, jid);
    RouteFacts(n.slots, d);
    KeysMatch(n.slots);
    ExpectedOriginal(n.slots, d, RouteOf(n.slots, d), jid);
  }

  lemma {:induction false} ExpectedOriginal(s: seq<Entry>, d: Delivery, route: Route, jid: Jid)
    requires route.Exact? ==> Reachable(AsMap(s), route.target, d.down)
    requires forall k :: k in AsMap(s) ==> AsMap(s)[k].jid == k
    ensures HasOriginal(ExpectedAt(s, d, route, jid)) <==>
              || (route.Exact? && jid == route.target)
              || (route.Best? && jid == route.target && Reachable(AsMap(s), jid, d.down))
              || (route.Myself? && OtherLive(AsMap(s), d, jid))
  {
    hide Find, Bare, AsMap;
    var got := ExpectedAt(s, d, route, jid);
    FirstOriginal(got);
  }

  /** In lists of at most two packets only the first can be the original. */
  lemma {:induction false} FirstOriginal(got: seq<Packet>)
    ensures |got| > 0 && got[0].Forwarded? ==> HasOriginal(got)
    ensures got == [] || (|got| == 1 && !got[0].Forwarded?) ==> !HasOriginal(got)
  {
    if |got| > 0 && got[0].Forwarded? {
      assert got[0] in got;
    }
  }

  /** A message reaches some session or the store exactly when its route is the
      exact resource, a best resource whose write succeeds, the sender's own
      bare JID with another live resource, or the store below its caps. */
  lemma {:induction false} ArrivesIff(n: Net, d: Delivery)
    requires Distinct(n.slots)
    ensures var m, route := AsMap(n.slots), RouteOf(n.slots, d);
            Arrives(n, d) <==>
              || route.Exact?
              || (route.Best? && Reachable(m, route.target, d.down))
              || (route.Myself? && HasOtherLive(n.slots, d))
              || (route.Nobody? && !Capped(n.rows, Bare(To(d.msg))))
  {
    hide Find, Bare, AsMap, RouteOf, GetsOriginal, Capped;
    var route := RouteOf(n.slots, d);
    forall jid
      ensures GetsOriginal(n, d, jid) <==>
                || (route.Exact? && jid == route.target)
                || (route.Best? && jid == route.target && Reachable(AsMap(n.slots), jid, d.down))
                || (route.Myself? && OtherLive(AsMap(n.slots), d, jid))
    {
      OriginalIff(n, d, jid);
    }
    match route
    case Exact(target, _) => assert GetsOriginal(n, d, target);
    case Best(target, _) => assert GetsOriginal(n, d, target) <==> Reachable(AsMap(n.slots), target, d.down);
    case Myself(_) => assert forall jid :: GetsOriginal(n, d, jid) <==> OtherLive(AsMap(n.slots), d, jid);
    case Nobody(_) =>
    case Nowhere =>
  }

  /** The same without naming the route: what a sender could look up. */
  lemma {:induction false} AdmittedArrivesIff(n: Net, d: Delivery)
    requires Distinct(n.slots)
    ensures Arrives(n, d) <==>
              && d.msg.to.Some? && d.msg.to.value != "" && Domain(d.msg.to.value) == d.who.domain && !d.blocked
              && GetsThrough(n, d)
  {
    hide Find, Bare, AsMap, Arrives, HasOtherLive, Stanza, GoesExact, RouteOf, BestJid, Domain, Pending, Bytes;
    ArrivesIff(n, d);
    if Acceptable(d) {
      RouteIs(n.slots, d);
      AdmissionIff(d);
    } else {
      RefusedExpectsNothing(n.slots, d, "");
    }
  }

  // --------------------------------------------------------- a plain message

  /** A local bare JID. */
  ghost predicate LocalBare(to: Jid, domain: string) {
    to != "" && Bare(to) == to && !HasResource(to) && Domain(to) == domain
  }

  function Note(from: FullJid, to: Jid, domain: string, body: string, down: set<Sink>): Delivery {
    Delivery(Client(from, domain, 0, false), Message(Some(to), None, None, None, Some(body), false, false, false),
             false, 0, 0, down)
  }

  /** A note passes the checks, and goes where its bare JID leads. */
  lemma {:induction false} NoteRoute(s: seq<Entry>, from: FullJid, to: Jid, domain: string, body: string,
                                     down: set<Sink>)
    requires LocalBare(to, domain)
    ensures var d := Note(from, to, domain, body, down);
            && To(d.msg) == Bare(To(d.msg)) == to && Acceptable(d)
            && RouteOf(s, d)
               == if to == Bare(from) then (match Text(d, to) case Some(text) => Myself(text) case None => Nowhere)
                  else match BestJid(s, to)
                    case Some(best) => (match Text(d, best) case Some(text) => Best(best, text) case None => Nowhere)
                    case None => (match Text(d, to) case Some(text) => Nobody(text) case None => Nowhere)
  {
    hide Find, Bare, Domain, Text, HasResource, BestJid, AsMap;
  }

  lemma {:induction false} BareOfResource(bare: string)
    requires '/' !in bare && |bare| < JID_BUF_SIZE
    ensures Bare(bare + "/r") == bare && Bare(bare) == bare && !HasResource(bare)
  {
    FindInConcat(bare, '/', "r");
    assert bare + "/r" == bare + ['/'] + "r";
    assert (bare + "/r")[..|bare|] == bare && bare[..|bare|] == bare;
  }

  lemma {:induction false} DomainOfBare(local: string, domain: string)
    requires '@' !in local && '/' !in domain && |domain| < DOMAIN_BUF_SIZE
    ensures Domain(local + "@" + domain) == domain
  {
    FindInConcat(local, '@', domain);
    var jid := local + "@" + domain;
    assert jid == local + ['@'] + domain;
    assert jid[|local| + 1..] == domain && domain[..|domain|] == domain;
    assert Find(domain, '/') == |domain|;
  }

  /** The addresses of the inputs given for single findings. */
  lemma {:induction false} Addresses()
    ensures LocalBare("b@x", "x") && Bare("b@x/r") == "b@x" && Bare("a@x/r") == "a@x"
  {
    hide Bare, HasResource, Domain;
    AddressOf('a', "a@x", "a@x/r");
    AddressOf('b', "b@x", "b@x/r");
  }

  lemma {:induction false} AddressOf(c: char, bare: string, full: string)
    requires c != '@' && c != '/' && bare == [c, '@', 'x'] && full == [c, '@', 'x', '/', 'r']
    ensures LocalBare(bare, "x") && Bare(full) == bare
  {
    hide Bare, HasResource, Domain;
    assert full == bare + "/r";
    BareOfResource(bare);
    assert bare == [c] + "@" + "x";
    DomainOfBare([c], "x");
  }
}
