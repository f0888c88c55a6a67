/** xmpp_presence.c in its imperative form: subscription stanzas that rewrite
    roster rows and write to sessions, and presence broadcasts that follow the
    roster. */
module Presence {
  import opened Options
  import opened Jids
  import opened Sessions
  import opened Subscriptions
  import opened Routing
  import opened RoutingRuns
  import Router

  function VerbName(verb: Verb): string {
    match verb
    case Subscribe => "subscribe"
    case Subscribed => "subscribed"
    case Unsubscribe => "unsubscribe"
    case Unsubscribed => "unsubscribed"
  }

  /** The stanza and its terminator fit the 512-octet buffer. */
  predicate Fits(verb: Verb, from: Jid, to: Jid) {
    |"<presence from='" + from + "' to='" + to + "' type='" + VerbName(verb) + "'/>"| < 512
  }

  /** A subscription stanza in its buffer. When it does not fit the append is
      ignored and an empty write goes out. */
  function SubscriptionPacket(verb: Verb, from: Jid, to: Jid): Packet {
    if Fits(verb, from, to) then Subscription(VerbName(verb), from, to) else Notice("")
  }

  /** A packet for all online resources of a bare JID. */
  datatype Announcement = Announcement(bare: Jid, packet: Packet)

  function Push(owner: Jid, contact: Jid, item: Item): Announcement {
    Announcement(owner, RosterPush(Cut(contact, ROSTER_JID_MAX), item.name, item.sub.Name(), item.ask))
  }

  /** The resources of `bare`, each announced to `to`. */
  ghost function ResourcesOf(s: seq<Entry>, bare: Jid, to: Jid): seq<Announcement> {
    if s == [] then [] else
      var e := s[|s| - 1];
      ResourcesOf(s[..|s| - 1], bare, to)
      + if Bare(e.jid) == bare then [Announcement(to, PresenceFrom(e.jid, None))] else []
  }

  /** What `verb` from `a` to `b` announces, given the rows before it. */
  ghost function Announcements(r: Rosters, s: seq<Entry>, verb: Verb, a: Jid, b: Jid): seq<Announcement> {
    var mine, theirs := Row(r, a, b), Row(r, b, a);
    match verb
    case Subscribe =>
      (if mine.sub.HasTo() then [] else [Push(a, b, Row(Apply(r, verb, a, b), a, b))])
      + if theirs.sub.HasFrom() then [] else [Announcement(b, SubscriptionPacket(verb, a, b))]
    case Subscribed =>
      if theirs.sub.HasTo() && mine.sub.HasFrom() && !theirs.ask then []
      else
        [Push(b, a, theirs.(sub := Combine(true, theirs.sub.HasFrom()), ask := false)),
         Push(a, b, mine.(sub := Combine(mine.sub.HasTo(), true), ask := false)),
         Announcement(b, SubscriptionPacket(verb, a, b))]
        + ResourcesOf(s, b, a)
    case Unsubscribe =>
      (if mine.sub.HasTo() || mine.ask
       then [Push(a, b, mine.(sub := Combine(false, mine.sub.HasFrom()), ask := false))] else [])
      + (if theirs.sub.HasFrom()
         then [Push(b, a, theirs.(sub := Combine(theirs.sub.HasTo(), false), ask := false))] else [])
      + [Announcement(b, SubscriptionPacket(verb, a, b)), Announcement(a, SubscriptionPacket(Unsubscribed, b, a))]
    case Unsubscribed =>
      (if theirs.sub.HasTo() || theirs.ask
       then [Push(b, a, theirs.(sub := Combine(false, theirs.sub.HasFrom()), ask := false))] else [])
      + (if mine.sub.HasFrom() then [Push(a, b, mine.(sub := Combine(mine.sub.HasTo(), false), ask := false))] else [])
      + [Announcement(b, SubscriptionPacket(verb, a, b))]
  }

  lemma {:induction false} ResourcesAreNotPushes(s: seq<Entry>, bare: Jid, to: Jid, x: Announcement)
    requires x in ResourcesOf(s, bare, to)
    ensures x.packet.PresenceFrom?
  {
    hide Bare;
    if x in ResourcesOf(s[..|s| - 1], bare, to) {
      ResourcesAreNotPushes(s[..|s| - 1], bare, to, x);
    }
  }

  /** The pushes in `list` are the new rows, and every changed row is among them. */
  ghost predicate Reports(list: seq<Announcement>, a: Jid, b: Jid, mine: Item, theirs: Item, mine': Item,
                          theirs': Item) {
    && (forall x :: x in list && x.packet.RosterPush? ==> x == Push(a, b, mine') || x == Push(b, a, theirs'))
    && (mine' != mine ==> Push(a, b, mine') in list)
    && (theirs' != theirs ==> Push(b, a, theirs') in list)
  }

  /** Both rows of the pair after the stanza. */
  ghost function RowsAfter(verb: Verb, mine: Item, theirs: Item): (Item, Item) {
    match verb
    case Subscribe => (if mine.sub.HasTo() then mine else mine.(ask := true), theirs)
    case Subscribed =>
      if theirs.sub.HasTo() && mine.sub.HasFrom() && !theirs.ask then (mine, theirs)
      else (mine.(sub := Combine(mine.sub.HasTo(), true), ask := false),
            theirs.(sub := Combine(true, theirs.sub.HasFrom()), ask := false))
    case Unsubscribe =>
      (if mine.sub.HasTo() || mine.ask then mine.(sub := Combine(false, mine.sub.HasFrom()), ask := false) else mine,
       if theirs.sub.HasFrom() then theirs.(sub := Combine(theirs.sub.HasTo(), false), ask := false) else theirs)
    case Unsubscribed =>
      (if mine.sub.HasFrom() then mine.(sub := Combine(mine.sub.HasTo(), false), ask := false) else mine,
       if theirs.sub.HasTo() || theirs.ask
       then theirs.(sub := Combine(false, theirs.sub.HasFrom()), ask := false) else theirs)
  }

  lemma {:induction false} ApplyGivesRows(r: Rosters, verb: Verb, a: Jid, b: Jid)
    requires a != b && |a| < ROSTER_JID_MAX && |b| < ROSTER_JID_MAX
    ensures var r' := Apply(r, verb, a, b);
            (Row(r', a, b), Row(r', b, a)) == RowsAfter(verb, Row(r, a, b), Row(r, b, a))
  {
    hide Combine;
  }

  lemma {:induction false} PushesOfSubscribe(r: Rosters, s: seq<Entry>, a: Jid, b: Jid, mine': Item, theirs': Item)
    requires mine' == Row(Apply(r, Subscribe, a, b), a, b)
    requires (mine', theirs') == RowsAfter(Subscribe, Row(r, a, b), Row(r, b, a))
    ensures Reports(Announcements(r, s, Subscribe, a, b), a, b, Row(r, a, b), Row(r, b, a), mine', theirs')
  {
    assert !SubscriptionPacket(Subscribe, a, b).RosterPush? && !SubscriptionPacket(Unsubscribed, b, a).RosterPush?;
    hide SubscriptionPacket, ResourcesOf, Combine, Push, Row, Apply;
  }

  lemma {:induction false} PushesOfSubscribed(r: Rosters, s: seq<Entry>, a: Jid, b: Jid, mine': Item, theirs': Item)
    requires mine' == Row(Apply(r, Subscribed, a, b), a, b)
    requires (mine', theirs') == RowsAfter(Subscribed, Row(r, a, b), Row(r, b, a))
    ensures Reports(Announcements(r, s, Subscribed, a, b), a, b, Row(r, a, b), Row(r, b, a), mine', theirs')
  {
    assert !SubscriptionPacket(Subscribed, a, b).RosterPush? && !SubscriptionPacket(Unsubscribed, b, a).RosterPush?;
    hide SubscriptionPacket, ResourcesOf, Combine, Push, Row, Apply;
    forall x | x in ResourcesOf(s, b, a)
      ensures !x.packet.RosterPush?
    {
      ResourcesAreNotPushes(s, b, a, x);
    }
  }

  lemma {:induction false} PushesOfUnsubscribe(r: Rosters, s: seq<Entry>, a: Jid, b: Jid, mine': Item, theirs': Item)
    requires mine' == Row(Apply(r, Unsubscribe, a, b), a, b)
    requires (mine', theirs') == RowsAfter(Unsubscribe, Row(r, a, b), Row(r, b, a))
    ensures Reports(Announcements(r, s, Unsubscribe, a, b), a, b, Row(r, a, b), Row(r, b, a), mine', theirs')
  {
    assert !SubscriptionPacket(Unsubscribe, a, b).RosterPush? && !SubscriptionPacket(Unsubscribed, b, a).RosterPush?;
    hide SubscriptionPacket, ResourcesOf, Combine, Push, Row, Apply;
  }

  lemma {:induction false} PushesOfUnsubscribed(r: Rosters, s: seq<Entry>, a: Jid, b: Jid, mine': Item, theirs': Item)
    requires mine' == Row(Apply(r, Unsubscribed, a, b), a, b)
    requires (mine', theirs') == RowsAfter(Unsubscribed, Row(r, a, b), Row(r, b, a))
    ensures Reports(Announcements(r, s, Unsubscribed, a, b), a, b, Row(r, a, b), Row(r, b, a), mine', theirs')
  {
    assert !SubscriptionPacket(Unsubscribed, a, b).RosterPush? && !SubscriptionPacket(Unsubscribed, b, a).RosterPush?;
    hide SubscriptionPacket, ResourcesOf, Combine, Push, Row, Apply;
  }

  /** Roster pushes tell each owner the row as it is afterwards, and every row
      that changes is pushed to its owner. */
  lemma {:induction false} PushesReportRows(r: Rosters, s: seq<Entry>, verb: Verb, a: Jid, b: Jid)
    requires a != b && |a| < ROSTER_JID_MAX && |b| < ROSTER_JID_MAX
    ensures var r' := Apply(r, verb, a, b);
            Reports(Announcements(r, s, verb, a, b), a, b, Row(r, a, b), Row(r, b, a), Row(r', a, b), Row(r', b, a))
  {
    hide Apply, Announcements, Row, Reports, RowsAfter;
    ApplyGivesRows(r, verb, a, b);
    var mine', theirs' := Row(Apply(r, verb, a, b), a, b), Row(Apply(r, verb, a, b), b, a);
    match verb
    case Subscribe => PushesOfSubscribe(r, s, a, b, mine', theirs');
    case Subscribed => PushesOfSubscribed(r, s, a, b, mine', theirs');
    case Unsubscribe => PushesOfUnsubscribe(r, s, a, b, mine', theirs');
    case Unsubscribed => PushesOfUnsubscribed(r, s, a, b, mine', theirs');
  }

  ghost function Announced(s: seq<Entry>, list: seq<Announcement>, down: set<Sink>): seq<Write> {
    if list == [] then [] else
      var x := list[|list| - 1];
      Announced(s, list[..|list| - 1], down) + Fanout(s, Audience(x.bare, None, false), x.packet, down)
  }

  lemma {:induction false} AnnouncedConcat(s: seq<Entry>, v: seq<Announcement>, w: seq<Announcement>, down: set<Sink>)
    ensures Announced(s, v + w, down) == Announced(s, v, down) + Announced(s, w, down)
  {
    hide Fanout;
    if w == [] {
      assert v + w == v;
    } else {
      assert (v + w)[..|v + w| - 1] == v + w[..|w| - 1];
      AnnouncedConcat(s, v, w[..|w| - 1], down);
    }
  }

  lemma {:induction false} AnnouncedOne(s: seq<Entry>, x: Announcement, down: set<Sink>)
    ensures Announced(s, [x], down) == Fanout(s, Audience(x.bare, None, false), x.packet, down)
  {
    hide Fanout;
    assert [x][..0] == [];
  }

  // ------------------------------------------- what each session is told

  /** The packets of a list for the sessions of `bare`, in order. */
  ghost function PacketsFor(list: seq<Announcement>, bare: Jid): seq<Packet> {
    if list == [] then [] else
      var x := list[|list| - 1];
      PacketsFor(list[..|list| - 1], bare) + if x.bare == bare then [x.packet] else []
  }

  lemma {:induction false} PacketsForConcat(v: seq<Announcement>, w: seq<Announcement>, bare: Jid)
    ensures PacketsFor(v + w, bare) == PacketsFor(v, bare) + PacketsFor(w, bare)
  {
    if w == [] {
      assert v + w == v;
    } else {
      assert (v + w)[..|v + w| - 1] == v + w[..|w| - 1];
      PacketsForConcat(v, w[..|w| - 1], bare);
    }
  }

  lemma {:induction false} PacketsForOne(x: Announcement, bare: Jid)
    ensures PacketsFor([x], bare) == (if x.bare == bare then [x.packet] else []) && PacketsFor([], bare) == []
  {
    assert [x][..0] == [];
  }

  /** Announcing a list hands each live session the packets for its bare JID. */
  lemma {:induction false} AnnouncedInbox(s: seq<Entry>, list: seq<Announcement>, down: set<Sink>, jid: Jid)
    requires Distinct(s)
    ensures Inbox(Announced(s, list, down), jid)
            == if Reachable(AsMap(s), jid, down) then PacketsFor(list, Bare(jid)) else []
  {
    hide Bare, Fanout, Inbox, AsMap;
    if list == [] {
      InboxEmpty(jid);
    } else {
      var front, x := list[..|list| - 1], list[|list| - 1];
      AnnouncedInbox(s, front, down, jid);
      InboxConcat(Announced(s, front, down), Fanout(s, Audience(x.bare, None, false), x.packet, down), jid);
      AudienceOfBare(s, x.bare, x.packet, down, jid);
    }
  }

  /** The stanza goes on to the contact: a request unless it is granted already,
      a grant unless it was given already, a withdrawal always. */
  predicate PassedOn(edges: set<(Jid, Jid)>, verb: Verb, a: Jid, b: Jid) {
    match verb
    case Subscribe => (a, b) !in edges
    case Subscribed => (b, a) !in edges
    case Unsubscribe => true
    case Unsubscribed => true
  }

  /** An available presence for each resource of `bare`. */
  ghost function PresencesOf(s: seq<Entry>, bare: Jid): seq<Packet> {
    if s == [] then [] else
      var e := s[|s| - 1];
      PresencesOf(s[..|s| - 1], bare) + if Bare(e.jid) == bare then [PresenceFrom(e.jid, None)] else []
  }

  lemma {:induction false} ResourcesFor(s: seq<Entry>, bare: Jid, to: Jid, u: Jid)
    ensures PacketsFor(ResourcesOf(s, bare, to), u) == if u == to then PresencesOf(s, bare) else []
  {
    hide Bare, PacketsFor;
    PacketsForOne(Announcement(to, PresenceFrom("", None)), u);
    if s != [] {
      var front, e := s[..|s| - 1], s[|s| - 1];
      var x := Announcement(to, PresenceFrom(e.jid, None));
      var before, presences := ResourcesOf(front, bare, to), PresencesOf(front, bare);
      assert ResourcesOf(s, bare, to) == before + if Bare(e.jid) == bare then [x] else [];
      assert PresencesOf(s, bare) == presences + if Bare(e.jid) == bare then [x.packet] else [];
      ResourcesFor(front, bare, to, u);
      hide ResourcesOf, PresencesOf;
      PacketsForConcat(before, if Bare(e.jid) == bare then [x] else [], u);
      PacketsForOne(x, u);
    }
  }

  /** The contact's side: the new row if it changed, then the stanza. */
  ghost function ContactShare(edges: set<(Jid, Jid)>, verb: Verb, a: Jid, b: Jid, theirs: Item,
                              theirs': Item): seq<Packet> {
    (if theirs' != theirs then [Push(b, a, theirs').packet] else [])
    + if PassedOn(edges, verb, a, b) then [SubscriptionPacket(verb, a, b)] else []
  }

  /** The sender's side: the new row if it changed or was asked for again; the
      answer to a cancellation; after a grant, the contact's presences. */
  ghost function SenderShare(edges: set<(Jid, Jid)>, s: seq<Entry>, verb: Verb, a: Jid, b: Jid, mine: Item,
                             mine': Item): seq<Packet> {
    (if mine' != mine || (verb == Subscribe && PassedOn(edges, verb, a, b)) then [Push(a, b, mine').packet] else [])
    + (if verb == Unsubscribe then [SubscriptionPacket(Unsubscribed, b, a)] else [])
    + if verb == Subscribed && PassedOn(edges, verb, a, b) then PresencesOf(s, b) else []
  }

  /** The receiver's side of a subscription stanza: what the sessions of `u`
      must get, from the rows before and after it and the subscriptions. */
  ghost function SubscriptionShare(r: Rosters, s: seq<Entry>, verb: Verb, a: Jid, b: Jid, u: Jid): seq<Packet> {
    var r' := Apply(r, verb, a, b);
    PairShare(Edges(r), s, verb, a, b, (Row(r, a, b), Row(r, b, a)), (Row(r', a, b), Row(r', b, a)), u)
  }

  ghost function PairShare(edges: set<(Jid, Jid)>, s: seq<Entry>, verb: Verb, a: Jid, b: Jid,
                           was: (Item, Item), now: (Item, Item), u: Jid): seq<Packet> {
    if u == b then ContactShare(edges, verb, a, b, was.1, now.1)
    else if u == a then SenderShare(edges, s, verb, a, b, was.0, now.0)
    else []
  }

  /** What every run of the protocol keeps, and JIDs that fit a row. */
  ghost predicate Orderly(r: Rosters, a: Jid, b: Jid) {
    Consistent(r) && AskMeansWaiting(r) && a != b && |a| < ROSTER_JID_MAX && |b| < ROSTER_JID_MAX
  }

  /** The rows of a pair in an orderly table, as far as the handler reads them. */
  ghost predicate PairOk(edges: set<(Jid, Jid)>, a: Jid, b: Jid, mine: Item, theirs: Item) {
    && ((a, b) in edges <==> mine.sub.HasTo()) && ((b, a) in edges <==> theirs.sub.HasTo())
    && (mine.sub.HasTo() <==> theirs.sub.HasFrom()) && (theirs.sub.HasTo() <==> mine.sub.HasFrom())
    && (mine.ask ==> !mine.sub.HasTo()) && (theirs.ask ==> !theirs.sub.HasTo())
  }

  lemma {:induction false} OrderlyPair(r: Rosters, a: Jid, b: Jid)
    requires Orderly(r, a, b)
    ensures PairOk(Edges(r), a, b, Row(r, a, b), Row(r, b, a))
  {
    assert Agree(r, a, b) && Agree(r, b, a);
  }

  /** Up to three packets in a row, as one receiver sees them. */
  lemma {:induction false} PacketsForThree(v: seq<Announcement>, w: seq<Announcement>, x: seq<Announcement>, u: Jid)
    ensures PacketsFor(v + w + x, u) == PacketsFor(v, u) + PacketsFor(w, u) + PacketsFor(x, u)
  {
    PacketsForConcat(v, w, u);
    PacketsForConcat(v + w, x, u);
  }

  /** The share of a stanza in terms of the two rows before it. */
  lemma {:induction false} ShareOfPair(r: Rosters, s: seq<Entry>, verb: Verb, a: Jid, b: Jid, u: Jid)
    requires Orderly(r, a, b)
    ensures var rows := (Row(r, a, b), Row(r, b, a));
            && a != b && PairOk(Edges(r), a, b, rows.0, rows.1)
            && SubscriptionShare(r, s, verb, a, b, u)
               == PairShare(Edges(r), s, verb, a, b, rows, RowsAfter(verb, rows.0, rows.1), u)
            && Row(Apply(r, verb, a, b), a, b) == RowsAfter(verb, rows.0, rows.1).0
  {
    OrderlyPair(r, a, b);
    ApplyGivesRows(r, verb, a, b);
    hide Orderly, Row, Apply, Edges, RowsAfter, PairShare, PairOk;
  }

  lemma {:induction false} ShareOfSubscribe(r: Rosters, s: seq<Entry>, a: Jid, b: Jid, u: Jid)
    requires Orderly(r, a, b)
    ensures PacketsFor(Announcements(r, s, Subscribe, a, b), u) == SubscriptionShare(r, s, Subscribe, a, b, u)
  {
    hide Row, Apply, Edges, Orderly, PacketsFor, SubscriptionPacket, Push, SubscriptionShare;
    var mine, theirs := Row(r, a, b), Row(r, b, a);
    ShareOfPair(r, s, Subscribe, a, b, u);
    var mine' := RowsAfter(Subscribe, mine, theirs).0;
    var x, y := Push(a, b, mine'), Announcement(b, SubscriptionPacket(Subscribe, a, b));
    PushOwner(a, b, mine');
    PacketsForOne(x, u);
    PacketsForOne(y, u);
    PacketsForConcat(if mine.sub.HasTo() then [] else [x], if theirs.sub.HasFrom() then [] else [y], u);
  }

  /** A grant that changes something, as one receiver sees it. */
  ghost function GrantShare(s: seq<Entry>, a: Jid, b: Jid, mine': Item, theirs': Item, u: Jid): seq<Packet> {
    if u == b then [Push(b, a, theirs').packet, SubscriptionPacket(Subscribed, a, b)]
    else if u == a then [Push(a, b, mine').packet] + PresencesOf(s, b) else []
  }

  lemma {:induction false} ShareOfGrant(s: seq<Entry>, a: Jid, b: Jid, mine': Item, theirs': Item, u: Jid)
    requires a != b
    ensures PacketsFor([Push(b, a, theirs'), Push(a, b, mine'), Announcement(b, SubscriptionPacket(Subscribed, a, b))]
                       + ResourcesOf(s, b, a), u)
            == GrantShare(s, a, b, mine', theirs', u)
  {
    hide PacketsFor, SubscriptionPacket, Push, ResourcesOf, PresencesOf;
    var x, y, z := Push(b, a, theirs'), Push(a, b, mine'), Announcement(b, SubscriptionPacket(Subscribed, a, b));
    PushOwner(b, a, theirs');
    PushOwner(a, b, mine');
    PacketsForOne(x, u);
    PacketsForOne(y, u);
    PacketsForOne(z, u);
    ResourcesFor(s, b, a, u);
    assert [x] + [y] + [z] == [x, y, z];
    PacketsForThree([x], [y], [z], u);
    PacketsForConcat([x, y, z], ResourcesOf(s, b, a), u);
  }

  lemma {:induction false} GrantIsShare(edges: set<(Jid, Jid)>, s: seq<Entry>, a: Jid, b: Jid, mine: Item,
                                        theirs: Item, u: Jid)
    requires PairOk(edges, a, b, mine, theirs) && a != b
    ensures var now := RowsAfter(Subscribed, mine, theirs);
            PairShare(edges, s, Subscribed, a, b, (mine, theirs), now, u)
            == if theirs.sub.HasTo() then [] else GrantShare(s, a, b, now.0, now.1, u)
  {
    hide SubscriptionPacket, Push, PresencesOf, Combine;
  }

  lemma {:induction false} ShareOfSubscribed(r: Rosters, s: seq<Entry>, a: Jid, b: Jid, u: Jid)
    requires Orderly(r, a, b)
    ensures PacketsFor(Announcements(r, s, Subscribed, a, b), u) == SubscriptionShare(r, s, Subscribed, a, b, u)
  {
    hide Row, Apply, Edges, Orderly, PacketsFor, SubscriptionPacket, Push, ResourcesOf, SubscriptionShare, PairShare,
      GrantShare, Combine;
    var mine, theirs := Row(r, a, b), Row(r, b, a);
    ShareOfPair(r, s, Subscribed, a, b, u);
    GrantIsShare(Edges(r), s, a, b, mine, theirs, u);
    PacketsForOne(Announcement(b, SubscriptionPacket(Subscribed, a, b)), u);
    var now := RowsAfter(Subscribed, mine, theirs);
    ShareOfGrant(s, a, b, now.0, now.1, u);
  }

  /** The row updates of a withdrawal of `v`'s subscription to `w`. */
  ghost function WithdrawalShare(v: Jid, w: Jid, was: (Item, Item), now: (Item, Item), u: Jid): seq<Packet> {
    if u == v && now.0 != was.0 then [Push(v, w, now.0).packet]
    else if u == w && now.1 != was.1 then [Push(w, v, now.1).packet] else []
  }

  lemma {:induction false} ShareOfWithdrawal(edges: set<(Jid, Jid)>, v: Jid, w: Jid, vRow: Item, wRow: Item, u: Jid)
    requires v != w && PairOk(edges, v, w, vRow, wRow)
    ensures PacketsFor(WithdrawPushes(v, w, vRow, wRow), u)
            == WithdrawalShare(v, w, (vRow, wRow), RowsAfter(Unsubscribe, vRow, wRow), u)
  {
    hide PacketsFor, Push;
    var (v', w') := RowsAfter(Unsubscribe, vRow, wRow);
    var x, y := Push(v, w, v'), Push(w, v, w');
    PushOwner(v, w, v');
    PushOwner(w, v, w');
    PacketsForOne(x, u);
    PacketsForOne(y, u);
    PacketsForConcat(if vRow.sub.HasTo() || vRow.ask then [x] else [], if wRow.sub.HasFrom() then [y] else [], u);
  }

  lemma {:induction false} UnsubscribeLists(r: Rosters, s: seq<Entry>, a: Jid, b: Jid)
    ensures var mine, theirs := Row(r, a, b), Row(r, b, a);
            && Announcements(r, s, Unsubscribe, a, b)
               == WithdrawPushes(a, b, mine, theirs) + [Announcement(b, SubscriptionPacket(Unsubscribe, a, b))]
                  + [Announcement(a, SubscriptionPacket(Unsubscribed, b, a))]
            && Announcements(r, s, Unsubscribed, a, b)
               == WithdrawPushes(b, a, theirs, mine) + [Announcement(b, SubscriptionPacket(Unsubscribed, a, b))]
  {
    hide Row, SubscriptionPacket, Push, Combine;
  }

  /** Withdrawing is symmetric: refusing a subscription changes the rows the way
      cancelling it does. */
  lemma {:induction false} RefusalIsWithdrawal(mine: Item, theirs: Item)
    ensures var (x, y) := RowsAfter(Unsubscribe, theirs, mine); RowsAfter(Unsubscribed, mine, theirs) == (y, x)
  {
    hide Combine;
  }

  lemma {:induction false} ShareOfUnsubscribe(r: Rosters, s: seq<Entry>, a: Jid, b: Jid, u: Jid)
    requires Orderly(r, a, b)
    ensures PacketsFor(Announcements(r, s, Unsubscribe, a, b), u) == SubscriptionShare(r, s, Unsubscribe, a, b, u)
  {
    hide Row, Apply, Edges, Orderly, PacketsFor, SubscriptionPacket, Push, WithdrawPushes, Announcements, RowsAfter,
      SubscriptionShare, PairOk;
    var mine, theirs := Row(r, a, b), Row(r, b, a);
    var x := Announcement(b, SubscriptionPacket(Unsubscribe, a, b));
    var y := Announcement(a, SubscriptionPacket(Unsubscribed, b, a));
    ShareOfPair(r, s, Unsubscribe, a, b, u);
    UnsubscribeLists(r, s, a, b);
    ShareOfWithdrawal(Edges(r), a, b, mine, theirs, u);
    PacketsForOne(x, u);
    PacketsForOne(y, u);
    PacketsForThree(WithdrawPushes(a, b, mine, theirs), [x], [y], u);
  }

  lemma {:induction false} ShareOfUnsubscribed(r: Rosters, s: seq<Entry>, a: Jid, b: Jid, u: Jid)
    requires Orderly(r, a, b)
    ensures PacketsFor(Announcements(r, s, Unsubscribed, a, b), u) == SubscriptionShare(r, s, Unsubscribed, a, b, u)
  {
    hide Row, Apply, Edges, Orderly, PacketsFor, SubscriptionPacket, Push, WithdrawPushes, Announcements, RowsAfter,
      SubscriptionShare;
    var mine, theirs := Row(r, a, b), Row(r, b, a);
    var x := Announcement(b, SubscriptionPacket(Unsubscribed, a, b));
    ShareOfPair(r, s, Unsubscribed, a, b, u);
    UnsubscribeLists(r, s, a, b);
    RefusalIsWithdrawal(mine, theirs);
    ShareOfWithdrawal(Edges(r), b, a, theirs, mine, u);
    PacketsForOne(x, u);
    PacketsForConcat(WithdrawPushes(b, a, theirs, mine), [x], u);
  }

  /** Main theorem on subscription stanzas: what the handler announces, seen from
      any session, is exactly what the receiver's side says. */
  lemma {:induction false} AnnouncementsMeetShare(r: Rosters, s: seq<Entry>, verb: Verb, a: Jid, b: Jid,
                                                  down: set<Sink>, jid: Jid)
    requires Distinct(s) && Orderly(r, a, b)
    ensures Inbox(Announced(s, Announcements(r, s, verb, a, b), down), jid)
            == if Reachable(AsMap(s), jid, down) then SubscriptionShare(r, s, verb, a, b, Bare(jid)) else []
  {
    hide Orderly, Announced, Announcements, SubscriptionShare, PacketsFor, Inbox, Bare;
    AnnouncedInbox(s, Announcements(r, s, verb, a, b), down, jid);
    match verb
    case Subscribe => ShareOfSubscribe(r, s, a, b, Bare(jid));
    case Subscribed => ShareOfSubscribed(r, s, a, b, Bare(jid));
    case Unsubscribe => ShareOfUnsubscribe(r, s, a, b, Bare(jid));
    case Unsubscribed => ShareOfUnsubscribed(r, s, a, b, Bare(jid));
  }

  /** After any run of the protocol, one more stanza gives every session exactly
      its share, and whether it is passed on follows from the subscriptions
      granted and not withdrawn so far. */
  lemma {:induction false} RunThenSubscription(ss: seq<Stanza>, st: Stanza, s: seq<Entry>, down: set<Sink>, jid: Jid)
    requires Distinct(s) && Proper(st) && forall x :: x in ss ==> Proper(x)
    ensures var r := RunRosters(ss);
            && Edges(r) == RunEdges(ss)
            && Inbox(Announced(s, Announcements(r, s, st.verb, st.from, st.to), down), jid)
               == if Reachable(AsMap(s), jid, down)
                  then Owed(r, s, st.verb, st.from, st.to, Bare(jid)) else []
  {
    hide RunRosters, RunEdges, RunAsks, Announced, Announcements, Owed, Inbox, Bare;
    RowsRefineEdges(ss);
    AnnouncementsAreOwed(RunRosters(ss), s, st.verb, st.from, st.to, down, jid);
  }

  // ------------------------------------------------ the same, type by type

  /** What a row says, in the words of the protocol. */
  function Spelled(contact: Jid, name: string, sub: Sub, ask: bool): Packet {
    RosterPush(contact, name,
               match sub case Neither => "none" case ToContact => "to" case FromContact => "from" case Both => "both",
               ask)
  }

  /** A stanza of the given type, or an empty write when the two addresses have
      more than `room` octets. */
  function Typed(kind: string, from: Jid, to: Jid, room: nat): Packet {
    if |from| + |to| <= room then Subscription(kind, from, to) else Notice("")
  }

  /** The request: the sender's row now waits; the contact is asked unless it
      granted that already. */
  function OwedSubscribe(a: Jid, b: Jid, mine: Item, theirs: Item, u: Jid): seq<Packet> {
    if u == a && mine.sub in {Neither, FromContact} then [Spelled(b, mine.name, mine.sub, true)]
    else if u == b && theirs.sub in {Neither, ToContact} then [Typed("subscribe", a, b, 469)]
    else []
  }

  /** The grant: nothing if it was given before; otherwise both rows gain their
      half, the contact is told, and the sender gets the contact's presences. */
  ghost function OwedSubscribed(s: seq<Entry>, a: Jid, b: Jid, mine: Item, theirs: Item, u: Jid): seq<Packet> {
    if theirs.sub in {ToContact, Both} then []
    else if u == b then
      [Spelled(a, theirs.name, if theirs.sub == Neither then ToContact else Both, false),
       Typed("subscribed", a, b, 468)]
    else if u == a then
      [Spelled(b, mine.name, if mine.sub == Neither then FromContact else Both, false)] + PresencesOf(s, b)
    else []
  }

  /** The half of a row that subscribes its owner goes away, and a request. */
  function Dropped(contact: Jid, row: Item): seq<Packet> {
    match row.sub
    case ToContact => [Spelled(contact, row.name, Neither, false)]
    case Both => [Spelled(contact, row.name, FromContact, false)]
    case _ => if row.ask then [Spelled(contact, row.name, row.sub, false)] else []
  }

  /** The half of a row that lets the contact in goes away. */
  function Closed(contact: Jid, row: Item): seq<Packet> {
    match row.sub
    case FromContact => [Spelled(contact, row.name, Neither, false)]
    case Both => [Spelled(contact, row.name, ToContact, false)]
    case _ => []
  }

  /** The cancellation: both rows lose that half; the contact is told, and the
      sender is answered in the contact's name. */
  function OwedUnsubscribe(a: Jid, b: Jid, mine: Item, theirs: Item, u: Jid): seq<Packet> {
    if u == b then Closed(a, theirs) + [Typed("unsubscribe", a, b, 467)]
    else if u == a then Dropped(b, mine) + [Typed("unsubscribed", b, a, 466)]
    else []
  }

  /** The refusal: both rows lose that half, and the contact is told. */
  function OwedUnsubscribed(a: Jid, b: Jid, mine: Item, theirs: Item, u: Jid): seq<Packet> {
    if u == b then Dropped(a, theirs) + [Typed("unsubscribed", a, b, 466)]
    else if u == a then Closed(b, mine)
    else []
  }

  /** What the sessions of `u` are owed after `verb` from `a` to `b`, read off the
      two rows before it. */
  ghost function Owed(r: Rosters, s: seq<Entry>, verb: Verb, a: Jid, b: Jid, u: Jid): seq<Packet> {
    var mine, theirs := Row(r, a, b), Row(r, b, a);
    match verb
    case Subscribe => OwedSubscribe(a, b, mine, theirs, u)
    case Subscribed => OwedSubscribed(s, a, b, mine, theirs, u)
    case Unsubscribe => OwedUnsubscribe(a, b, mine, theirs, u)
    case Unsubscribed => OwedUnsubscribed(a, b, mine, theirs, u)
  }

  lemma {:induction false} PacketIsTyped(from: Jid, to: Jid)
    ensures SubscriptionPacket(Subscribe, from, to) == Typed("subscribe", from, to, 469)
    ensures SubscriptionPacket(Subscribed, from, to) == Typed("subscribed", from, to, 468)
    ensures SubscriptionPacket(Unsubscribe, from, to) == Typed("unsubscribe", from, to, 467)
    ensures SubscriptionPacket(Unsubscribed, from, to) == Typed("unsubscribed", from, to, 466)
  {
    assert |"<presence from='"| == 16 && |"' to='"| == 6 && |"' type='"| == 8 && |"'/>"| == 3;
    assert |"subscribe"| == 9 && |"subscribed"| == 10 && |"unsubscribe"| == 11 && |"unsubscribed"| == 12;
  }

  lemma {:induction false} PushIsSpelled(owner: Jid, contact: Jid, item: Item)
    requires |contact| < ROSTER_JID_MAX
    ensures Push(owner, contact, item).packet == Spelled(contact, item.name, item.sub, item.ask)
  {
  }

  lemma {:induction false} PairIsOwed(edges: set<(Jid, Jid)>, s: seq<Entry>, verb: Verb, a: Jid, b: Jid,
                                      mine: Item, theirs: Item, u: Jid)
    requires a != b && |a| < ROSTER_JID_MAX && |b| < ROSTER_JID_MAX && PairOk(edges, a, b, mine, theirs)
    ensures PairShare(edges, s, verb, a, b, (mine, theirs), RowsAfter(verb, mine, theirs), u)
            == match verb
               case Subscribe => OwedSubscribe(a, b, mine, theirs, u)
               case Subscribed => OwedSubscribed(s, a, b, mine, theirs, u)
               case Unsubscribe => OwedUnsubscribe(a, b, mine, theirs, u)
               case Unsubscribed => OwedUnsubscribed(a, b, mine, theirs, u)
  {
    hide SubscriptionPacket, Typed, Push, Spelled, PresencesOf;
    var now := RowsAfter(verb, mine, theirs);
    PacketIsTyped(a, b);
    PacketIsTyped(b, a);
    PushIsSpelled(a, b, now.0);
    PushIsSpelled(b, a, now.1);
    match verb
    case Subscribe =>
    case Subscribed =>
    case Unsubscribe =>
    case Unsubscribed =>
  }

  /** Main theorem on subscription stanzas, in the words of the protocol: what the
      handler writes, seen from any session, is exactly what it is owed. */
  lemma {:induction false} AnnouncementsAreOwed(r: Rosters, s: seq<Entry>, verb: Verb, a: Jid, b: Jid,
                                                down: set<Sink>, jid: Jid)
    requires Distinct(s) && Orderly(r, a, b)
    ensures Inbox(Announced(s, Announcements(r, s, verb, a, b), down), jid)
            == if Reachable(AsMap(s), jid, down) then Owed(r, s, verb, a, b, Bare(jid)) else []
  {
    hide Announced, Announcements, SubscriptionShare, Inbox, Bare, AsMap, PairShare, RowsAfter, PairOk, Row, Edges,
      Apply, OwedSubscribe, OwedSubscribed, OwedUnsubscribe, OwedUnsubscribed, Consistent, AskMeansWaiting;
    AnnouncementsMeetShare(r, s, verb, a, b, down, jid);
    ShareOfPair(r, s, verb, a, b, Bare(jid));
    PairIsOwed(Edges(r), s, verb, a, b, Row(r, a, b), Row(r, b, a), Bare(jid));
  }

  /** How often the session of the contact gets a packet. */
  ghost function Times(r: Rosters, s: seq<Entry>, verb: Verb, a: Jid, b: Jid, down: set<Sink>, jid: Jid,
                       p: Packet): nat {
    multiset(Inbox(Announced(s, Announcements(r, s, verb, a, b), down), jid))[p]
  }

  /** A live session of the contact is handed the stanza once, with its own type,
      if it is passed on and the two addresses leave room for it in 512 octets; if
      they do not, it gets an empty write in its place; otherwise neither. */
  lemma {:induction false} ContactIsToldIff(r: Rosters, s: seq<Entry>, a: Jid, b: Jid, down: set<Sink>, jid: Jid)
    requires Distinct(s) && Orderly(r, a, b) && Bare(jid) == b && Reachable(AsMap(s), jid, down)
    ensures var asked, n := (a, b) !in Edges(r), |a| + |b|;
            && Times(r, s, Subscribe, a, b, down, jid, Subscription("subscribe", a, b))
               == (if asked && n <= 469 then 1 else 0)
            && Times(r, s, Subscribe, a, b, down, jid, Notice("")) == (if asked && n > 469 then 1 else 0)
    ensures var given, n := (b, a) !in Edges(r), |a| + |b|;
            && Times(r, s, Subscribed, a, b, down, jid, Subscription("subscribed", a, b))
               == (if given && n <= 468 then 1 else 0)
            && Times(r, s, Subscribed, a, b, down, jid, Notice("")) == (if given && n > 468 then 1 else 0)
    ensures var n := |a| + |b|;
            && Times(r, s, Unsubscribe, a, b, down, jid, Subscription("unsubscribe", a, b))
               == (if n <= 467 then 1 else 0)
            && Times(r, s, Unsubscribe, a, b, down, jid, Notice("")) == (if n > 467 then 1 else 0)
            && Times(r, s, Unsubscribed, a, b, down, jid, Subscription("unsubscribed", a, b))
               == (if n <= 466 then 1 else 0)
            && Times(r, s, Unsubscribed, a, b, down, jid, Notice("")) == (if n > 466 then 1 else 0)
  {
    hide Announced, Announcements, Inbox, Bare, AsMap, Row, Edges, Owed, Orderly, Times;
    TimesOwed(r, s, Subscribe, a, b, down, jid, Subscription("subscribe", a, b));
    TimesOwed(r, s, Subscribe, a, b, down, jid, Notice(""));
    TimesOwed(r, s, Subscribed, a, b, down, jid, Subscription("subscribed", a, b));
    TimesOwed(r, s, Subscribed, a, b, down, jid, Notice(""));
    TimesOwed(r, s, Unsubscribe, a, b, down, jid, Subscription("unsubscribe", a, b));
    TimesOwed(r, s, Unsubscribe, a, b, down, jid, Notice(""));
    TimesOwed(r, s, Unsubscribed, a, b, down, jid, Subscription("unsubscribed", a, b));
    TimesOwed(r, s, Unsubscribed, a, b, down, jid, Notice(""));
    RequestCounts(r, s, a, b);
    GrantCounts(r, s, a, b);
    OrderlyApart(r, a, b);
    CancelCounts(r, s, a, b);
    RefusalCounts(r, s, a, b);
  }

  lemma {:induction false} OrderlyApart(r: Rosters, a: Jid, b: Jid)
    requires Orderly(r, a, b)
    ensures a != b
  {
  }

  lemma {:induction false} TimesOwed(r: Rosters, s: seq<Entry>, verb: Verb, a: Jid, b: Jid, down: set<Sink>, jid: Jid,
                                     p: Packet)
    requires Distinct(s) && Orderly(r, a, b) && Reachable(AsMap(s), jid, down)
    ensures Times(r, s, verb, a, b, down, jid, p) == multiset(Owed(r, s, verb, a, b, Bare(jid)))[p]
  {
    hide Announced, Announcements, Inbox, Bare, AsMap, Owed, Orderly;
    AnnouncementsAreOwed(r, s, verb, a, b, down, jid);
  }

  /** Behind roster pushes one stanza: counted once, or the empty write is. */
  lemma {:induction false} LastTyped(pushes: seq<Packet>, kind: string, from: Jid, to: Jid, room: nat)
    requires forall i :: 0 <= i < |pushes| ==> pushes[i].RosterPush?
    ensures var got := multiset(pushes + [Typed(kind, from, to, room)]);
            && got[Subscription(kind, from, to)] == (if |from| + |to| <= room then 1 else 0)
            && got[Notice("")] == (if |from| + |to| > room then 1 else 0)
  {
    var x, y := Subscription(kind, from, to), Notice("");
    assert x !in pushes && y !in pushes;
    assert multiset(pushes)[x] == 0 && multiset(pushes)[y] == 0;
    assert multiset(pushes + [Typed(kind, from, to, room)]) == multiset(pushes) + multiset{Typed(kind, from, to, room)};
  }

  lemma {:induction false} RequestCounts(r: Rosters, s: seq<Entry>, a: Jid, b: Jid)
    requires Orderly(r, a, b)
    ensures var asked, n := (a, b) !in Edges(r), |a| + |b|;
            var got := multiset(Owed(r, s, Subscribe, a, b, b));
            && got[Subscription("subscribe", a, b)] == (if asked && n <= 469 then 1 else 0)
            && got[Notice("")] == (if asked && n > 469 then 1 else 0)
  {
    hide Typed, Row, Edges, Spelled;
    OrderlyPair(r, a, b);
    LastTyped([], "subscribe", a, b, 469);
    assert [] + [Typed("subscribe", a, b, 469)] == [Typed("subscribe", a, b, 469)];
  }

  lemma {:induction false} GrantCounts(r: Rosters, s: seq<Entry>, a: Jid, b: Jid)
    requires Orderly(r, a, b)
    ensures var given, n := (b, a) !in Edges(r), |a| + |b|;
            var got := multiset(Owed(r, s, Subscribed, a, b, b));
            && got[Subscription("subscribed", a, b)] == (if given && n <= 468 then 1 else 0)
            && got[Notice("")] == (if given && n > 468 then 1 else 0)
  {
    hide Typed, Row, Edges, PresencesOf;
    OrderlyPair(r, a, b);
    var theirs := Row(r, b, a);
    var push := Spelled(a, theirs.name, if theirs.sub == Neither then ToContact else Both, false);
    LastTyped([push], "subscribed", a, b, 468);
    assert [push] + [Typed("subscribed", a, b, 468)] == [push, Typed("subscribed", a, b, 468)];
  }

  lemma {:induction false} CancelCounts(r: Rosters, s: seq<Entry>, a: Jid, b: Jid)
    requires a != b
    ensures var n, got := |a| + |b|, multiset(Owed(r, s, Unsubscribe, a, b, b));
            && got[Subscription("unsubscribe", a, b)] == (if n <= 467 then 1 else 0)
            && got[Notice("")] == (if n > 467 then 1 else 0)
  {
    hide Typed, Row, Closed, Dropped;
    var theirs := Row(r, b, a);
    OnlyPushes(a, theirs);
    LastTyped(Closed(a, theirs), "unsubscribe", a, b, 467);
    assert Owed(r, s, Unsubscribe, a, b, b) == Closed(a, theirs) + [Typed("unsubscribe", a, b, 467)];
  }

  lemma {:induction false} RefusalCounts(r: Rosters, s: seq<Entry>, a: Jid, b: Jid)
    requires a != b
    ensures var n, got := |a| + |b|, multiset(Owed(r, s, Unsubscribed, a, b, b));
            && got[Subscription("unsubscribed", a, b)] == (if n <= 466 then 1 else 0)
            && got[Notice("")] == (if n > 466 then 1 else 0)
  {
    hide Typed, Row, Closed, Dropped;
    var theirs := Row(r, b, a);
    OnlyPushes(a, theirs);
    LastTyped(Dropped(a, theirs), "unsubscribed", a, b, 466);
    assert Owed(r, s, Unsubscribed, a, b, b) == Dropped(a, theirs) + [Typed("unsubscribed", a, b, 466)];
  }

  lemma {:induction false} OnlyPushes(contact: Jid, row: Item)
    ensures forall i :: 0 <= i < |Closed(contact, row)| ==> Closed(contact, row)[i].RosterPush?
    ensures forall i :: 0 <= i < |Dropped(contact, row)| ==> Dropped(contact, row)[i].RosterPush?
  {
  }

  /** Whoever cancels a subscription is answered once, in the contact's name, with
      type "unsubscribed". */
  lemma {:induction false} CancellationIsAnswered(r: Rosters, s: seq<Entry>, a: Jid, b: Jid, down: set<Sink>, jid: Jid)
    requires Distinct(s) && Orderly(r, a, b) && Bare(jid) == a && Reachable(AsMap(s), jid, down)
    ensures var n := |a| + |b|;
            && Times(r, s, Unsubscribe, a, b, down, jid, Subscription("unsubscribed", b, a))
               == (if n <= 466 then 1 else 0)
            && Times(r, s, Unsubscribe, a, b, down, jid, Notice("")) == (if n > 466 then 1 else 0)
  {
    hide Announced, Announcements, Inbox, Bare, AsMap, Row, Times, Typed;
    TimesOwed(r, s, Unsubscribe, a, b, down, jid, Subscription("unsubscribed", b, a));
    TimesOwed(r, s, Unsubscribe, a, b, down, jid, Notice(""));
    LastTyped(Dropped(b, Row(r, a, b)), "unsubscribed", b, a, 466);
  }

  /** A conversation from empty rosters with both users online, written out: a
      request, its grant, and its cancellation. */
  lemma {:induction false} Conversation(a: Jid, b: Jid, me: Jid, you: Jid)
    requires a == "a@x" && b == "b@x" && me == "a@x/r" && you == "b@x/r"
    ensures var s := [Entry(me, 1, 0, 0, false), Entry(you, 2, 0, 0, false)];
            var r1 := Apply(map[], Subscribe, a, b);
            var r2 := Apply(r1, Subscribed, b, a);
            && Got(map[], s, Subscribe, a, b, me) == [RosterPush(b, "", "none", true)]
            && Got(map[], s, Subscribe, a, b, you) == [Subscription("subscribe", a, b)]
            && Got(r1, s, Subscribed, b, a, me) == [RosterPush(b, "", "to", false), Subscription("subscribed", b, a)]
            && Got(r1, s, Subscribed, b, a, you) == [RosterPush(a, "", "from", false), PresenceFrom(me, None)]
            && Got(r2, s, Unsubscribe, a, b, me)
               == [RosterPush(b, "", "none", false), Subscription("unsubscribed", b, a)]
            && Got(r2, s, Unsubscribe, a, b, you)
               == [RosterPush(a, "", "none", false), Subscription("unsubscribe", a, b)]
            && Got(r2, s, Unsubscribed, b, a, me)
               == [RosterPush(b, "", "none", false), Subscription("unsubscribed", b, a)]
            && Got(r2, s, Unsubscribed, b, a, you) == [RosterPush(a, "", "none", false)]
  {
    hide LocalBare, Bare, Apply, Owed, Orderly, Got, AsMap;
    Addresses();
    var s := [Entry(me, 1, 0, 0, false), Entry(you, 2, 0, 0, false)];
    TwoSessions(s, me, you);
    var r1, r2 := ConversationRows(a, b);
    GotIsOwed(map[], s, Subscribe, a, b, me, you);
    GotIsOwed(r1, s, Subscribed, b, a, me, you);
    GotIsOwed(r2, s, Unsubscribe, a, b, me, you);
    GotIsOwed(r2, s, Unsubscribed, b, a, me, you);
    PresencesOfOne(s, me, you);
    OwedInFull(map[], r1, r2, s, a, b, me);
  }

  ghost function Got(r: Rosters, s: seq<Entry>, verb: Verb, a: Jid, b: Jid, jid: Jid): seq<Packet> {
    Inbox(Announced(s, Announcements(r, s, verb, a, b), {}), jid)
  }

  lemma {:induction false} GotIsOwed(r: Rosters, s: seq<Entry>, verb: Verb, a: Jid, b: Jid, me: Jid, you: Jid)
    requires Distinct(s) && Orderly(r, a, b) && me in AsMap(s) && you in AsMap(s)
    ensures Got(r, s, verb, a, b, me) == Owed(r, s, verb, a, b, Bare(me))
    ensures Got(r, s, verb, a, b, you) == Owed(r, s, verb, a, b, Bare(you))
  {
    hide Bare, AsMap, Announced, Announcements, Inbox, Owed, Orderly;
    AnnouncementsAreOwed(r, s, verb, a, b, {}, me);
    AnnouncementsAreOwed(r, s, verb, a, b, {}, you);
  }

  lemma {:induction false} TwoSessions(s: seq<Entry>, me: Jid, you: Jid)
    requires me != you && s == [Entry(me, 1, 0, 0, false), Entry(you, 2, 0, 0, false)]
    ensures Distinct(s) && me in AsMap(s) && you in AsMap(s)
  {
    AsMapFacts(s);
    assert s[0].jid == me && s[1].jid == you;
  }

  lemma {:induction false} PresencesOfOne(s: seq<Entry>, me: Jid, you: Jid)
    requires Bare(me) != Bare(you) && s == [Entry(me, 1, 0, 0, false), Entry(you, 2, 0, 0, false)]
    ensures PresencesOf(s, Bare(me)) == [PresenceFrom(me, None)]
  {
    hide Bare;
    assert s[..1][..0] == [] && s[..1] == [s[0]];
    assert PresencesOf(s[..1], Bare(me)) == [PresenceFrom(me, None)];
  }

  /** The rows after the request and after the grant. */
  lemma {:induction false} ConversationRows(a: Jid, b: Jid) returns (r1: Rosters, r2: Rosters)
    requires a != b && |a| < 100 && |b| < 100
    ensures r1 == Apply(map[], Subscribe, a, b) && r2 == Apply(r1, Subscribed, b, a)
    ensures Orderly(map[], a, b) && Orderly(r1, b, a) && Orderly(r2, a, b) && Orderly(r2, b, a)
    ensures Row(r1, a, b) == Item("", Neither, true) && Row(r1, b, a) == Item("", Neither, false)
    ensures Row(r2, a, b) == Item("", ToContact, false) && Row(r2, b, a) == Item("", FromContact, false)
  {
    var none: Rosters := map[];
    r1 := Apply(none, Subscribe, a, b);
    r2 := Apply(r1, Subscribed, b, a);
    assert Consistent(none) by { assert forall u, v :: Agree(none, u, v); }
    ApplyGivesRows(none, Subscribe, a, b);
    ApplyConsistent(none, Subscribe, a, b);
    ApplyAsk(none, Subscribe, a, b);
    ApplyGivesRows(r1, Subscribed, b, a);
    ApplyConsistent(r1, Subscribed, b, a);
    ApplyAsk(r1, Subscribed, b, a);
    hide Apply, Consistent, AskMeansWaiting, NoSelfRows;
  }

  lemma {:induction false} OwedInFull(r0: Rosters, r1: Rosters, r2: Rosters, s: seq<Entry>, a: Jid, b: Jid, me: Jid)
    requires a != b && |a| < 100 && |b| < 100 && PresencesOf(s, a) == [PresenceFrom(me, None)]
    requires Row(r0, a, b) == Item("", Neither, false) && Row(r0, b, a) == Item("", Neither, false)
    requires Row(r1, a, b) == Item("", Neither, true) && Row(r1, b, a) == Item("", Neither, false)
    requires Row(r2, a, b) == Item("", ToContact, false) && Row(r2, b, a) == Item("", FromContact, false)
    ensures Owed(r0, s, Subscribe, a, b, a) == [RosterPush(b, "", "none", true)]
    ensures Owed(r0, s, Subscribe, a, b, b) == [Subscription("subscribe", a, b)]
    ensures Owed(r1, s, Subscribed, b, a, a) == [RosterPush(b, "", "to", false), Subscription("subscribed", b, a)]
    ensures Owed(r1, s, Subscribed, b, a, b) == [RosterPush(a, "", "from", false), PresenceFrom(me, None)]
    ensures Owed(r2, s, Unsubscribe, a, b, a) == [RosterPush(b, "", "none", false), Subscription("unsubscribed", b, a)]
    ensures Owed(r2, s, Unsubscribe, a, b, b) == [RosterPush(a, "", "none", false), Subscription("unsubscribe", a, b)]
    ensures Owed(r2, s, Unsubscribed, b, a, a) == [RosterPush(b, "", "none", false), Subscription("unsubscribed", b, a)]
    ensures Owed(r2, s, Unsubscribed, b, a, b) == [RosterPush(a, "", "none", false)]
  {
    hide Row, PresencesOf;
  }

  /** The empty write happens: a request from a user with a long name. */
  lemma {:induction false} EmptyWriteHappens()
    ensures exists s, a, b, jid ::
              && Distinct(s) && Orderly(map[], a, b) && Bare(jid) == b && Reachable(AsMap(s), jid, {})
              && Inbox(Announced(s, Announcements(map[], s, Subscribe, a, b), {}), jid) == [Notice("")]
  {
    var a: Jid := seq(500, _ => 'a') + "@x";
    assert |a| == 502;
    hide Bare, Apply, Announced, Announcements, Inbox, AsMap, LocalBare, Orderly, Distinct;
    Addresses();
    EmptyWrite(a, "b@x", "b@x/r");
  }

  lemma {:induction false} EmptyWrite(a: Jid, b: Jid, jid: Jid)
    requires 500 <= |a| < ROSTER_JID_MAX && |b| < 100 && Bare(jid) == b
    ensures var s := [Entry(jid, 1, 0, 0, false)];
            && Distinct(s) && Orderly(map[], a, b) && Reachable(AsMap(s), jid, {})
            && Inbox(Announced(s, Announcements(map[], s, Subscribe, a, b), {}), jid) == [Notice("")]
  {
    var s := [Entry(jid, 1, 0, 0, false)];
    assert s[..0] == [] && AsMap(s) == map[jid := s[0]];
    assert !Fits(Subscribe, a, b);
    assert Orderly(map[], a, b) by { assert forall u, v :: Agree(map[], u, v); }
    hide Bare, Announced, Announcements, Inbox, AsMap, Orderly, SubscriptionShare, Apply, Fits;
    AnnouncementsMeetShare(map[], s, Subscribe, a, b, {}, jid);
    ShareOfPair(map[], s, Subscribe, a, b, b);
  }

  /** A resource of `bare` in the table is among those announced. */
  lemma {:induction false} ResourcesMember(s: seq<Entry>, bare: Jid, to: Jid, x: Announcement)
    ensures x in ResourcesOf(s, bare, to) <==> IsResource(s, bare, to, x)
  {
    hide Bare;
    if s != [] {
      var front, last := s[..|s| - 1], s[|s| - 1];
      ResourcesMember(front, bare, to, x);
      assert s == front + [last];
    }
  }

  /** `u` is told about a resource of someone it is subscribed to. */
  ghost predicate Entitled(edges: set<(Jid, Jid)>, x: Announcement) {
    x.packet.PresenceFrom? ==> (x.bare, Bare(x.packet.full)) in edges
  }

  /** The granter is sent presences of a contact it is not subscribed to. */
  ghost predicate SendsWrongWay(r: Rosters, s: seq<Entry>, verb: Verb, a: Jid, b: Jid) {
    && verb == Subscribed
    && (!Row(r, b, a).sub.HasTo() || Row(r, b, a).ask)
    && !Row(r, a, b).sub.HasTo()
    && exists e :: e in s && Bare(e.jid) == b
  }

  /** The presences a stanza sends follow the subscriptions after it, except
      exactly when a grant that changes something is given by a user who is not
      subscribed in return, to a contact who is online. */
  lemma {:induction false} PresencesFollowEdgesIff(r: Rosters, s: seq<Entry>, verb: Verb, a: Jid, b: Jid)
    requires Consistent(r) && a != b && |a| < ROSTER_JID_MAX && |b| < ROSTER_JID_MAX
    ensures (forall x :: x in Announcements(r, s, verb, a, b) ==> Entitled(Edges(Apply(r, verb, a, b)), x))
            <==> !SendsWrongWay(r, s, verb, a, b)
    ensures forall x :: x in Announcements(r, s, verb, a, b) && x.packet.PresenceFrom? ==>
              verb == Subscribed && x.bare == a && Bare(x.packet.full) == b
  {
    assert Agree(r, a, b) && Agree(r, b, a);
    ApplyEdges(r, verb, a, b);
    EdgeIsHalf(r, a, b);
    hide Bare, Apply, Edges, Row, Announcements;
    var list := Announcements(r, s, verb, a, b);
    forall x
      ensures x in list && x.packet.PresenceFrom? <==>
                && verb == Subscribed && (!Row(r, b, a).sub.HasTo() || Row(r, b, a).ask)
                && IsResource(s, b, a, x)
    {
      PresencesAnnounced(r, s, verb, a, b, x);
    }
    if exists e :: e in s && Bare(e.jid) == b {
      var e :| e in s && Bare(e.jid) == b;
      var x := Announcement(a, PresenceFrom(e.jid, None));
      assert IsResource(s, b, a, x);
      assert x in list ==> (Entitled(Edges(Apply(r, verb, a, b)), x) <==> (a, b) in Edges(r));
    }
  }

  /** The presence of a resource of `bare`, for the sessions of `to`. */
  ghost predicate IsResource(s: seq<Entry>, bare: Jid, to: Jid, x: Announcement) {
    exists e :: e in s && Bare(e.jid) == bare && x == Announcement(to, PresenceFrom(e.jid, None))
  }

  /** Presences are announced by an effective grant only, one for each resource
      of the contact. */
  lemma {:induction false} PresencesAnnounced(r: Rosters, s: seq<Entry>, verb: Verb, a: Jid, b: Jid, x: Announcement)
    requires Agree(r, b, a)
    ensures x in Announcements(r, s, verb, a, b) && x.packet.PresenceFrom? <==>
              && verb == Subscribed && (!Row(r, b, a).sub.HasTo() || Row(r, b, a).ask)
              && IsResource(s, b, a, x)
  {
    hide Bare, Apply, Row, Announcements, IsResource;
    if verb == Subscribed {
      GrantAnnounces(r, s, a, b, x);
    } else if x in Announcements(r, s, verb, a, b) {
      OthersAnnounceNone(r, s, verb, a, b, x);
    }
  }

  lemma {:induction false} GrantAnnounces(r: Rosters, s: seq<Entry>, a: Jid, b: Jid, x: Announcement)
    requires Agree(r, b, a)
    ensures x in Announcements(r, s, Subscribed, a, b) && x.packet.PresenceFrom? <==>
              (!Row(r, b, a).sub.HasTo() || Row(r, b, a).ask) && IsResource(s, b, a, x)
  {
    hide Bare, Row, SubscriptionPacket, ResourcesOf, Combine, IsResource, Push;
    NotPresences(Subscribed, a, b);
    ResourcesMember(s, b, a, x);
    PushesAreNotPresences();
    if IsResource(s, b, a, x) {
      ResourceIsPresence(s, b, a, x);
    }
  }

  lemma {:induction false} OthersAnnounceNone(r: Rosters, s: seq<Entry>, verb: Verb, a: Jid, b: Jid, x: Announcement)
    requires verb != Subscribed && x in Announcements(r, s, verb, a, b)
    ensures !x.packet.PresenceFrom?
  {
    NotPresences(verb, a, b);
    PushesAreNotPresences();
    if verb == Subscribe {
      hide Apply, Row, SubscriptionPacket, Push;
    } else {
      UnsubscribeLists(r, s, a, b);
      hide Announcements, Row, SubscriptionPacket, Push, Combine;
    }
  }

  lemma {:induction false} PushesAreNotPresences()
    ensures forall owner, contact, item :: !Push(owner, contact, item).packet.PresenceFrom?
  {
  }

  lemma {:induction false} ResourceIsPresence(s: seq<Entry>, bare: Jid, to: Jid, x: Announcement)
    requires IsResource(s, bare, to, x)
    ensures x.packet.PresenceFrom?
  {
  }

  /** The first grant ever, to a contact who is online, already does it: the
      granter a@x is told about b@x/r without being subscribed to b@x. */
  lemma {:induction false} WrongWayHappens()
    ensures exists s, x ::
              && x in Announcements(map[], s, Subscribed, "a@x", "b@x")
              && x == Announcement("a@x", PresenceFrom("b@x/r", None)) && Bare("b@x/r") == "b@x"
              && ("a@x", "b@x") !in Edges(Apply(map[], Subscribed, "a@x", "b@x"))
  {
    hide Bare, Announcements, Apply, Edges, LocalBare;
    Addresses();
    WrongWay("a@x", "b@x", "b@x/r");
  }

  lemma {:induction false} WrongWay(a: Jid, b: Jid, jid: Jid)
    requires a != b && |a| < ROSTER_JID_MAX && |b| < ROSTER_JID_MAX && Bare(jid) == b
    ensures Announcement(a, PresenceFrom(jid, None))
            in Announcements(map[], [Entry(jid, 1, 0, 0, false)], Subscribed, a, b)
    ensures (a, b) !in Edges(Apply(map[], Subscribed, a, b))
  {
    var s, x := [Entry(jid, 1, 0, 0, false)], Announcement(a, PresenceFrom(jid, None));
    assert Consistent(map[]) by { assert forall u, v :: Agree(map[], u, v); }
    ApplyEdges(map[], Subscribed, a, b);
    hide Bare, Announcements, Apply;
    assert s[0] in s && IsResource(s, b, a, x);
    assert Agree(map[], b, a);
    PresencesAnnounced(map[], s, Subscribed, a, b, x);
  }

  lemma {:induction false} NotPresences(verb: Verb, a: Jid, b: Jid)
    ensures !SubscriptionPacket(verb, a, b).PresenceFrom? && !SubscriptionPacket(Unsubscribed, b, a).PresenceFrom?
  {
  }

  lemma {:induction false} PushOwner(owner: Jid, contact: Jid, item: Item)
    ensures Push(owner, contact, item).bare == owner
  {
  }

  // ---------------------------------------------------- presence broadcasts

  /** Contacts that a presence of `owner` goes to: their row is "from" or "both". */
  predicate Listens(r: Rosters, owner: Jid, contact: Jid) {
    (owner, contact) in r && r[(owner, contact)].sub.HasFrom()
  }

  /** What one broadcast by `full` (of `bare`) hands to the session `jid`. */
  ghost function BroadcastShare(r: Rosters, m: map<Jid, Entry>, bare: Jid, full: Jid, p: Packet, down: set<Sink>,
                                jid: Jid): seq<Packet> {
    if jid !in m || m[jid].sink in down then [] else
      (if (bare, Bare(jid)) in r && r[(bare, Bare(jid))].sub in {FromContact, Both} then [p] else [])
      + if Bare(jid) == bare && jid != full then [p] else []
  }

  /** What the listing has handed to `jid` once the contacts `done` are served. */
  ghost function Heard(r: Rosters, s: seq<Entry>, bare: Jid, done: set<Jid>, p: Packet, down: set<Sink>,
                       jid: Jid): seq<Packet> {
    if Bare(jid) in done && Listens(r, bare, Bare(jid)) && Reachable(AsMap(s), jid, down) then [p] else []
  }

  /** Composition with the subscription protocol: after any run of subscription
      stanzas a broadcast by U reaches each live session of every V subscribed
      to U exactly once, each other live resource of U exactly once, and no
      other session. */
  lemma {:induction false} BroadcastFollowsSubscriptions(ss: seq<Stanza>, m: map<Jid, Entry>, bare: Jid, full: Jid,
                                                         p: Packet, down: set<Sink>, jid: Jid)
    requires forall s :: s in ss ==> Proper(s)
    ensures BroadcastShare(RunRosters(ss), m, bare, full, p, down, jid)
            == if && jid in m && m[jid].sink !in down
                  && ((Bare(jid), bare) in RunEdges(ss) || (Bare(jid) == bare && jid != full))
               then [p] else []
  {
    hide Find, Bare, RunRosters, RunEdges, RunAsks;
    RowsRefineEdges(ss);
    var r, v := RunRosters(ss), Bare(jid);
    assert Agree(r, v, bare);
    EdgeIsHalf(r, v, bare);
    assert Listens(r, bare, v) <==> (v, bare) in RunEdges(ss);
    assert Listens(r, bare, v) ==> bare != v;
  }

  class PresenceServer {
    const server: Router.Server
    var rosters: Rosters

    ghost predicate Valid()
      reads this, server, server.table, server.table.slots, server.store
    {
      server.Valid()
    }

    constructor (server: Router.Server)
      requires server.Valid()
      ensures this.server == server && rosters == map[]
    {
      this.server := server;
      rosters := map[];
    }

    /** The writes since `start` are those of the announcements `list`. */
    ghost predicate Told(start: seq<Write>, list: seq<Announcement>, down: set<Sink>)
      requires Valid()
      reads this, server, server.table, server.table.slots, server.store
    {
      server.table.wire == start + Announced(server.table.Table(), list, down)
    }

    method Announce(x: Announcement, down: set<Sink>, ghost start: seq<Write>, ghost list: seq<Announcement>)
      requires Valid() && Told(start, list, down)
      modifies server.table`wire
      ensures Valid() && server.table.Table() == old(server.table.Table())
      ensures Told(start, list + [x], down)
    {
      AnnouncedStep(start, server.table.Table(), list, x, down);
      hide Fanout, Announced, Inv;
      server.Broadcast(Audience(x.bare, None, false), x.packet, down);
    }

    /** update_subscription followed by the roster push of the new row. */
    method UpdateAndPush(owner: Jid, contact: Jid, item: Item, sub: Sub, down: set<Sink>,
                         ghost start: seq<Write>, ghost list: seq<Announcement>)
      requires Valid() && Told(start, list, down)
      modifies this`rosters, server.table`wire
      ensures Valid() && server.table.Table() == old(server.table.Table())
      ensures rosters == Update(old(rosters), owner, contact, sub, false)
      ensures Told(start, list + [Push(owner, contact, item.(sub := sub, ask := false))], down)
    {
      hide Announced, Inv;
      rosters := Update(rosters, owner, contact, sub, false);
      Announce(Push(owner, contact, item.(sub := sub, ask := false)), down, start, list);
    }

    /** for_each_resource with send_presence_to_subscriber. */
    method SendResources(bare: Jid, to: Jid, down: set<Sink>, ghost start: seq<Write>, ghost list: seq<Announcement>)
      requires Valid() && Told(start, list, down)
      modifies server.table`wire
      ensures Valid() && server.table.Table() == old(server.table.Table())
      ensures Told(start, list + ResourcesOf(server.table.Table(), bare, to), down)
    {
      hide Find, Bare, Announced, Inv;
      var table := server.table;
      ghost var s, more := table.Table(), [];
      var i := 0;
      assert s[..0] == [] && list + more == list;
      while i < table.count
        invariant i <= table.count && Valid() && table.Table() == s
        invariant more == ResourcesOf(s[..i], bare, to)
        invariant Told(start, list + more, down)
      {
        assert s[..i + 1][..i] == s[..i];
        if Bare(table.slots[i].jid) == bare {
          var x := Announcement(to, PresenceFrom(table.slots[i].jid, None));
          Announce(x, down, start, list + more);
          assert list + more + [x] == list + (more + [x]);
          more := more + [x];
        }
        i := i + 1;
      }
      assert s[..i] == s;
    }

    /** `subscribe`: mark the request, forward it unless already granted. */
    method OnSubscribe(a: Jid, b: Jid, down: set<Sink>, ghost start: seq<Write>)
      requires Valid() && Told(start, [], down)
      modifies this`rosters, server.table`wire
      ensures Valid() && server.table.Table() == old(server.table.Table())
      ensures rosters == Apply(old(rosters), Subscribe, a, b)
      ensures Told(start, Announcements(old(rosters), server.table.Table(), Subscribe, a, b), down)
    {
      hide Announced, Inv;
      var mine, theirs := Row(rosters, a, b), Row(rosters, b, a);
      ghost var list := [];
      if mine.sub != ToContact && mine.sub != Both {
        rosters := Update(rosters, a, b, mine.sub, true);
        var updated := Row(rosters, a, b);
        Announce(Push(a, b, updated), down, start, list);
        list := list + [Push(a, b, updated)];
      }
      if theirs.sub != FromContact && theirs.sub != Both {
        var x := Announcement(b, SubscriptionPacket(Subscribe, a, b));
        Announce(x, down, start, list);
        list := list + [x];
      }
      assert list == Announcements(old(rosters), server.table.Table(), Subscribe, a, b);
    }

    /** `subscribed`: both rows gain their half, unless nothing would change. */
    method OnSubscribed(a: Jid, b: Jid, down: set<Sink>, ghost start: seq<Write>)
      requires Valid() && Told(start, [], down)
      modifies this`rosters, server.table`wire
      ensures Valid() && server.table.Table() == old(server.table.Table())
      ensures rosters == Apply(old(rosters), Subscribed, a, b)
      ensures Told(start, Announcements(old(rosters), server.table.Table(), Subscribed, a, b), down)
    {
      hide Inv, Announced, ResourcesOf, SubscriptionPacket;
      var mine, theirs := Row(rosters, a, b), Row(rosters, b, a);
      var newTheirs := theirs.sub;
      if theirs.sub == Neither { newTheirs := ToContact; } else if theirs.sub == FromContact { newTheirs := Both; }
      var newMine := mine.sub;
      if mine.sub == Neither { newMine := FromContact; } else if mine.sub == ToContact { newMine := Both; }
      if newTheirs == theirs.sub && newMine == mine.sub && !theirs.ask {
        return;
      }
      assert newTheirs == Combine(true, theirs.sub.HasFrom()) && newMine == Combine(mine.sub.HasTo(), true);
      Grant(a, b, mine, theirs, newMine, newTheirs, down, start);
    }

    /** The updates and writes of a grant that changes something; the granter's
        row always has its "from" half then. */
    method Grant(a: Jid, b: Jid, mine: Item, theirs: Item, newMine: Sub, newTheirs: Sub, down: set<Sink>,
                 ghost start: seq<Write>)
      requires Valid() && Told(start, [], down)
      requires newMine == FromContact || newMine == Both
      modifies this`rosters, server.table`wire
      ensures Valid() && server.table.Table() == old(server.table.Table())
      ensures rosters == Update(Update(old(rosters), b, a, newTheirs, false), a, b, newMine, false)
      ensures Told(start, [Push(b, a, theirs.(sub := newTheirs, ask := false)),
                           Push(a, b, mine.(sub := newMine, ask := false)),
                           Announcement(b, SubscriptionPacket(Subscribed, a, b))]
                          + ResourcesOf(server.table.Table(), b, a), down)
    {
      hide Inv, Announced, ResourcesOf, SubscriptionPacket, Update;
      UpdateAndPush(b, a, theirs, newTheirs, down, start, []);
      var x := Push(b, a, theirs.(sub := newTheirs, ask := false));
      assert [] + [x] == [x];
      UpdateAndPush(a, b, mine, newMine, down, start, [x]);
      var y := Push(a, b, mine.(sub := newMine, ask := false));
      assert [x] + [y] == [x, y];
      var z := Announcement(b, SubscriptionPacket(Subscribed, a, b));
      Announce(z, down, start, [x, y]);
      assert [x, y] + [z] == [x, y, z];
      SendResources(b, a, down, start, [x, y, z]);
    }

    /** The rows of a withdrawal: `u`'s subscription to `v` goes away, cancelled
        by `u` or refused by `v`. */
    method Withdraw(u: Jid, v: Jid, uRow: Item, vRow: Item, down: set<Sink>, ghost start: seq<Write>)
      requires Valid() && uRow == Row(rosters, u, v) && vRow == Row(rosters, v, u)
      requires Told(start, [], down)
      modifies this`rosters, server.table`wire
      ensures Valid() && server.table.Table() == old(server.table.Table())
      ensures rosters == Withdrawn(old(rosters), u, v, uRow, vRow)
      ensures Told(start, WithdrawPushes(u, v, uRow, vRow), down)
    {
      hide Announced, Inv;
      ghost var list := [];
      var newU := uRow.sub;
      if uRow.sub == ToContact { newU := Neither; } else if uRow.sub == Both { newU := FromContact; }
      var newV := vRow.sub;
      if vRow.sub == FromContact { newV := Neither; } else if vRow.sub == Both { newV := ToContact; }
      if newU != uRow.sub || uRow.ask {
        UpdateAndPush(u, v, uRow, newU, down, start, list);
        list := list + [Push(u, v, uRow.(sub := newU, ask := false))];
      }
      if newV != vRow.sub {
        UpdateAndPush(v, u, vRow, newV, down, start, list);
        list := list + [Push(v, u, vRow.(sub := newV, ask := false))];
      }
      assert list == WithdrawPushes(u, v, uRow, vRow);
    }

    method OnUnsubscribe(a: Jid, b: Jid, down: set<Sink>, ghost start: seq<Write>)
      requires Valid() && Told(start, [], down)
      modifies this`rosters, server.table`wire
      ensures Valid() && server.table.Table() == old(server.table.Table())
      ensures rosters == Apply(old(rosters), Unsubscribe, a, b)
      ensures Told(start, Announcements(old(rosters), server.table.Table(), Unsubscribe, a, b), down)
    {
      hide Inv, Announced, SubscriptionPacket;
      var mine, theirs := Row(rosters, a, b), Row(rosters, b, a);
      Withdraw(a, b, mine, theirs, down, start);
      ghost var list := WithdrawPushes(a, b, mine, theirs);
      var x := Announcement(b, SubscriptionPacket(Unsubscribe, a, b));
      Announce(x, down, start, list);
      var y := Announcement(a, SubscriptionPacket(Unsubscribed, b, a));
      Announce(y, down, start, list + [x]);
      assert list + [x] + [y] == Announcements(old(rosters), server.table.Table(), Unsubscribe, a, b);
    }

    method OnUnsubscribed(a: Jid, b: Jid, down: set<Sink>, ghost start: seq<Write>)
      requires Valid() && Told(start, [], down)
      modifies this`rosters, server.table`wire
      ensures Valid() && server.table.Table() == old(server.table.Table())
      ensures rosters == Apply(old(rosters), Unsubscribed, a, b)
      ensures Told(start, Announcements(old(rosters), server.table.Table(), Unsubscribed, a, b), down)
    {
      hide Inv, Announced, SubscriptionPacket;
      var mine, theirs := Row(rosters, a, b), Row(rosters, b, a);
      Withdraw(b, a, theirs, mine, down, start);
      Announce(Announcement(b, SubscriptionPacket(Unsubscribed, a, b)), down, start,
               WithdrawPushes(b, a, theirs, mine));
    }

    /** handle_subscription: a stanza without a target is ignored. */
    method HandleSubscription(verb: Verb, from: Jid, to: Option<string>, down: set<Sink>)
      requires Valid()
      modifies this`rosters, server.table`wire
      ensures Valid() && server.table.Table() == old(server.table.Table())
      ensures to == None || to == Some("") ==> rosters == old(rosters) && server.table.wire == old(server.table.wire)
      ensures to.Some? && to != Some("") ==>
                && rosters == Apply(old(rosters), verb, from, Bare(to.value))
                && server.table.wire == old(server.table.wire)
                     + Announced(server.table.Table(),
                                 Announcements(old(rosters), server.table.Table(), verb, from, Bare(to.value)), down)
      ensures old(server.table.wire) <= server.table.wire
      ensures to.Some? && to != Some("") && Orderly(old(rosters), from, Bare(to.value)) ==>
                forall jid :: Inbox(server.table.wire[|old(server.table.wire)|..], jid)
                              == if Reachable(AsMap(server.table.Table()), jid, down)
                                 then Owed(old(rosters), server.table.Table(), verb, from, Bare(to.value), Bare(jid))
                                 else []
    {
      hide Find, Bare, Fanout, Apply, Announcements, Announced, Inbox, AsMap, Owed, Orderly, Inv;
      if to.None? || to.value == "" {
        return;
      }
      var target := Bare(to.value);
      ghost var start := server.table.wire;
      AnnouncedNone(server.table.Table(), down);
      assert Told(start, [], down);
      match verb {
        case Subscribe => OnSubscribe(from, target, down, start);
        case Subscribed => OnSubscribed(from, target, down, start);
        case Unsubscribe => OnUnsubscribe(from, target, down, start);
        case Unsubscribed => OnUnsubscribed(from, target, down, start);
      }
      ghost var s, list := server.table.Table(), Announcements(old(rosters), server.table.Table(), verb, from, target);
      assert server.table.wire[|start|..] == Announced(s, list, down);
      if Orderly(old(rosters), from, target) {
        forall jid
          ensures Inbox(Announced(s, list, down), jid)
                  == if Reachable(AsMap(s), jid, down)
                     then Owed(old(rosters), s, verb, from, target, Bare(jid)) else []
        {
          AnnouncementsAreOwed(old(rosters), s, verb, from, target, down, jid);
        }
      }
    }

    /** storage_roster_list with broadcast_to_subscriber: the rows of `bare` in
        whatever order the listing gives them. */
    method BroadcastToContacts(bare: Jid, p: Packet, down: set<Sink>) returns (ghost delta: seq<Write>)
      requires Valid()
      modifies server.table`wire
      ensures Valid() && server.table.Table() == old(server.table.Table())
      ensures server.table.wire == old(server.table.wire) + delta
      ensures forall jid :: Inbox(delta, jid)
                            == if Listens(rosters, bare, Bare(jid)) && Reachable(AsMap(server.table.Table()), jid, down)
                               then [p] else []
    {
      hide Find, Bare, Fanout, Inbox, AsMap, Inv;
      var table := server.table;
      ghost var s := table.Table();
      var todo := set k | k in rosters && k.0 == bare :: k.1;
      ghost var all := todo;
      assert forall v :: Listens(rosters, bare, v) ==> v in all by {
        forall v | Listens(rosters, bare, v) ensures v in all {
          assert (bare, v) in rosters;
        }
      }
      delta := [];
      forall jid ensures Inbox(delta, jid) == [] { InboxEmpty(jid); }
      while todo != {}
        invariant todo <= all
        invariant Valid() && table.Table() == s
        invariant table.wire == old(table.wire) + delta
        invariant forall jid :: Inbox(delta, jid) == Heard(rosters, s, bare, all - todo, p, down, jid)
        decreases todo
      {
        var contact :| contact in todo;
        var item := rosters[(bare, contact)];
        if item.sub == FromContact || item.sub == Both {
          var a := Audience(contact, None, false);
          server.Broadcast(a, p, down);
          forall jid
            ensures Inbox(delta + Fanout(s, a, p, down), jid)
                    == Heard(rosters, s, bare, all - (todo - {contact}), p, down, jid)
          {
            AudienceOfBare(s, contact, p, down, jid);
            InboxConcat(delta, Fanout(s, a, p, down), jid);
          }
          delta := delta + Fanout(s, a, p, down);
        }
        todo := todo - {contact};
      }
    }

    /** broadcast_presence: the roster, then the sender's own other resources. */
    method BroadcastPresence(bare: Jid, full: Jid, kind: Option<string>, down: set<Sink>)
      requires Valid()
      modifies server.table`wire
      ensures Valid() && server.table.Table() == old(server.table.Table())
      ensures old(server.table.wire) <= server.table.wire
      ensures forall jid :: Inbox(server.table.wire[|old(server.table.wire)|..], jid)
                            == BroadcastShare(rosters, AsMap(server.table.Table()), bare, full,
                                              PresenceFrom(full, kind), down, jid)
    {
      hide Find, Bare, Fanout, Inbox, AsMap, Inv;
      var table := server.table;
      ghost var s, m := table.Table(), AsMap(table.Table());
      var p := PresenceFrom(full, kind);
      ghost var delta := BroadcastToContacts(bare, p, down);
      var others := Audience(bare, Some(full), false);
      server.Broadcast(others, p, down);
      ghost var whole := delta + Fanout(s, others, p, down);
      assert table.wire[|old(table.wire)|..] == whole;
      KeysMatch(s);
      forall jid
        ensures Inbox(whole, jid) == BroadcastShare(rosters, m, bare, full, p, down, jid)
      {
        InboxConcat(delta, Fanout(s, others, p, down), jid);
        FanoutInbox(s, others, p, down, jid);
      }
    }

    /** Unavailable presence: tell subscribers and own other resources, then
        leave the table. */
    method Unavailable(bare: Jid, full: Jid, down: set<Sink>)
      requires Valid()
      modifies server.table, server.table.slots
      ensures Valid()
      ensures server.View()
              == Next(old(server.View()), Op.Unregister(full), server.store.stamp).(wire := server.table.wire)
      ensures old(server.table.wire) <= server.table.wire
      ensures forall jid :: Inbox(server.table.wire[|old(server.table.wire)|..], jid)
                            == BroadcastShare(rosters, AsMap(old(server.table.Table())), bare, full,
                                              PresenceFrom(full, Some("unavailable")), down, jid)
    {
      hide Find, Bare, Inbox, AsMap, Unregistered, Inv;
      BroadcastPresence(bare, full, Some("unavailable"), down);
      server.Unregister(full);
    }

    /** xmpp_presence_on_disconnect: only a registered session is announced. */
    method OnDisconnect(full: Jid, bare: Jid, down: set<Sink>)
      requires Valid()
      modifies server.table, server.table.slots
      ensures Valid()
      ensures server.View()
              == Next(old(server.View()), Op.Unregister(full), server.store.stamp).(wire := server.table.wire)
      ensures old(server.table.wire) <= server.table.wire
      ensures forall jid :: Inbox(server.table.wire[|old(server.table.wire)|..], jid)
                            == if full in AsMap(old(server.table.Table()))
                               then BroadcastShare(rosters, AsMap(old(server.table.Table())), bare, full,
                                                   PresenceFrom(full, Some("unavailable")), down, jid)
                               else []
    {
      SlotOfMap(server.table.Table(), full);
      hide Find, Bare, Inbox, AsMap, Inv;
      var i := server.table.FindSlot(full);
      if i == server.table.count {
        forall jid ensures Inbox([], jid) == [] { InboxEmpty(jid); }
        return;
      }
      Unavailable(bare, full, down);
    }

    /** handle_initial_presence: register, set the clamped priority, broadcast. */
    method InitialPresence(who: Client, priority: Option<int>, now: nat, down: set<Sink>)
      requires Valid()
      modifies server.table, server.table.slots, server.store
      ensures Valid()
      ensures var n := Next(old(server.View()), Op.Register(who, now, down), server.store.stamp);
              && server.View() == n.(slots := Prioritised(n.slots, who.jid, priority), wire := server.table.wire)
              && AsMap(server.table.Table())
                 == (var m := AsMap(n.slots);
                     if priority.None? || who.jid !in m then m else
                       var p := priority.value;
                       m[who.jid := m[who.jid].(priority := if p < -128 then -128 else if p > 127 then 127 else p)])
              && n.wire <= server.table.wire
              && forall jid :: Inbox(server.table.wire[|n.wire|..], jid)
                               == BroadcastShare(rosters, AsMap(server.table.Table()), Bare(who.jid), who.jid,
                                                 PresenceFrom(who.jid, None), down, jid)
    {
      hide Find, Bare, Inbox, AsMap, Next, WithPriority, Inv;
      server.Register(who, now, down);
      ghost var n := server.View();
      if priority.Some? {
        var p := priority.value;
        if p < -128 {
          p := -128;
        }
        if p > 127 {
          p := 127;
        }
        server.SetPriority(who.jid, p);
        PriorityStep(n, who.jid, p, server.store.stamp);
        PrioritisedMap(n.slots, who.jid, p);
      }
      BroadcastPresence(Bare(who.jid), who.jid, None, down);
    }
  }

  lemma {:induction false} PrioritisedMap(s: seq<Entry>, jid: Jid, priority: int)
    requires Distinct(s)
    ensures var m := AsMap(s);
            AsMap(WithPriority(s, jid, priority)) == if jid in m then m[jid := m[jid].(priority := priority)] else m
  {
    UpdatesRefineMap(s, jid, false, 0, priority);
  }

  lemma {:induction false} PriorityStep(n: Net, jid: Jid, priority: int, stamp: int -> string)
    ensures Next(n, Op.SetPriority(jid, priority), stamp) == n.(slots := WithPriority(n.slots, jid, priority))
  {
    hide WithPriority;
  }

  function Clamp(p: int): int {
    if p < -128 then -128 else if p > 127 then 127 else p
  }

  ghost function Prioritised(s: seq<Entry>, jid: Jid, priority: Option<int>): seq<Entry> {
    if priority.Some? then WithPriority(s, jid, Clamp(priority.value)) else s
  }

  lemma {:induction false} InboxEmpty(jid: Jid)
    ensures Inbox([], jid) == []
  {
  }

  lemma {:induction false} AudienceOfBare(s: seq<Entry>, bare: Jid, p: Packet, down: set<Sink>, jid: Jid)
    requires Distinct(s)
    ensures Inbox(Fanout(s, Audience(bare, None, false), p, down), jid)
            == if Bare(jid) == bare && Reachable(AsMap(s), jid, down) then [p] else []
  {
    FanoutInbox(s, Audience(bare, None, false), p, down, jid);
    KeysMatch(s);
  }

  ghost function WithdrawPushes(u: Jid, v: Jid, uRow: Item, vRow: Item): seq<Announcement> {
    (if uRow.sub.HasTo() || uRow.ask
     then [Push(u, v, uRow.(sub := Combine(false, uRow.sub.HasFrom()), ask := false))] else [])
    + if vRow.sub.HasFrom() then [Push(v, u, vRow.(sub := Combine(vRow.sub.HasTo(), false), ask := false))] else []
  }

  ghost function Withdrawn(r: Rosters, u: Jid, v: Jid, uRow: Item, vRow: Item): Rosters {
    var r' := if uRow.sub.HasTo() || uRow.ask
              then Update(r, u, v, Combine(false, uRow.sub.HasFrom()), false) else r;
    if vRow.sub.HasFrom() then Update(r', v, u, Combine(vRow.sub.HasTo(), false), false) else r'
  }

  lemma {:induction false} AnnouncedStep(start: seq<Write>, s: seq<Entry>, list: seq<Announcement>, x: Announcement,
                                         down: set<Sink>)
    ensures start + Announced(s, list + [x], down)
            == start + Announced(s, list, down) + Fanout(s, Audience(x.bare, None, false), x.packet, down)
  {
    AnnouncedOne(s, x, down);
    AnnouncedConcat(s, list, [x], down);
  }

  lemma {:induction false} AnnouncedNone(s: seq<Entry>, down: set<Sink>)
    ensures Announced(s, [], down) == []
  {
  }
}
