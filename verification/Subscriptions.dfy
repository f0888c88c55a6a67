/** The subscription protocol of xmpp_presence.c (section 3 and Appendix A of
    RFC 6121): two roster rows for each pair of users, and the set of directed
    subscriptions those rows stand for. */
module Subscriptions {
  import opened Jids

  const ROSTER_JID_MAX: nat := 2048

  datatype Sub = Neither | ToContact | FromContact | Both {
    predicate HasTo() { ToContact? || Both? }
    predicate HasFrom() { FromContact? || Both? }

    function Name(): string {
      match this
      case Neither => "none"
      case ToContact => "to"
      case FromContact => "from"
      case Both => "both"
    }
  }

  /** A roster row; `ask` is a pending outbound request. */
  datatype Item = Item(name: string, sub: Sub, ask: bool)

  /** The roster table, keyed by (owner, contact). */
  type Rosters = map<(Jid, Jid), Item>

  datatype Verb = Subscribe | Subscribed | Unsubscribe | Unsubscribed

  /** The row as handle_subscription reads it: absent rows are "none". */
  function Row(r: Rosters, owner: Jid, contact: Jid): Item {
    if (owner, contact) in r then r[(owner, contact)] else Item("", Neither, false)
  }

  /** update_subscription: keeps the name, and stores the contact through a
      2048-octet field. */
  function Update(r: Rosters, owner: Jid, contact: Jid, sub: Sub, ask: bool): Rosters {
    r[(owner, Cut(contact, ROSTER_JID_MAX)) := Item(Row(r, owner, contact).name, sub, ask)]
  }

  function Combine(hasTo: bool, hasFrom: bool): (s: Sub)
    ensures s.HasTo() == hasTo && s.HasFrom() == hasFrom
  {
    if hasTo && hasFrom then Both else if hasTo then ToContact else if hasFrom then FromContact else Neither
  }

  /** The effect of `verb` sent by `a` to `b` on the roster table, in terms of
      the to and from halves of the two rows. */
  function Apply(r: Rosters, verb: Verb, a: Jid, b: Jid): Rosters {
    var mine, theirs := Row(r, a, b), Row(r, b, a);
    match verb
    case Subscribe =>
      if mine.sub.HasTo() then r else Update(r, a, b, mine.sub, true)
    case Subscribed =>
      if theirs.sub.HasTo() && mine.sub.HasFrom() && !theirs.ask then r
      else
        var r' := Update(r, b, a, Combine(true, theirs.sub.HasFrom()), false);
        Update(r', a, b, Combine(mine.sub.HasTo(), true), false)
    case Unsubscribe =>
      var r' := if mine.sub.HasTo() || mine.ask
                then Update(r, a, b, Combine(false, mine.sub.HasFrom()), false) else r;
      if theirs.sub.HasFrom() then Update(r', b, a, Combine(theirs.sub.HasTo(), false), false) else r'
    case Unsubscribed =>
      var r' := if theirs.sub.HasTo() || theirs.ask
                then Update(r, b, a, Combine(false, theirs.sub.HasFrom()), false) else r;
      if mine.sub.HasFrom() then Update(r', a, b, Combine(mine.sub.HasTo(), false), false) else r'
  }

  // --------------------------------------------------------- the edge view

  /** (u, v) is an edge when u's row for v says u is subscribed to v. */
  ghost function Edges(r: Rosters): set<(Jid, Jid)> {
    set k | k in r && r[k].sub.HasTo()
  }

  /** The two rows of a pair tell the same story. */
  ghost predicate Agree(r: Rosters, u: Jid, v: Jid) {
    Row(r, u, v).sub.HasTo() <==> Row(r, v, u).sub.HasFrom()
  }

  ghost predicate Consistent(r: Rosters) {
    forall u, v :: Agree(r, u, v)
  }

  /** A request is pending only where there is no subscription yet. */
  ghost predicate AskMeansWaiting(r: Rosters) {
    forall k :: k in r && r[k].ask ==> !r[k].sub.HasTo()
  }

  ghost predicate NoSelfRows(r: Rosters) {
    forall k :: k in r ==> k.0 != k.1
  }

  /** What each stanza means for the set of subscriptions. */
  function EdgeStep(edges: set<(Jid, Jid)>, verb: Verb, a: Jid, b: Jid): set<(Jid, Jid)> {
    match verb
    case Subscribe => edges
    case Subscribed => edges + {(b, a)}
    case Unsubscribe => edges - {(a, b)}
    case Unsubscribed => edges - {(b, a)}
  }

  /** Requests in flight: (u, v) when u asked and still waits for v. */
  ghost function Asks(r: Rosters): set<(Jid, Jid)> {
    set k | k in r && r[k].ask
  }

  /** What each stanza means for the requests in flight. A grant, a refusal and
      a withdrawal also drop the request in the other direction whenever they
      rewrite that row. */
  function AskStep(edges: set<(Jid, Jid)>, asks: set<(Jid, Jid)>, verb: Verb, a: Jid, b: Jid): set<(Jid, Jid)> {
    match verb
    case Subscribe => if (a, b) in edges then asks else asks + {(a, b)}
    case Subscribed => if (b, a) in edges && (b, a) !in asks then asks else asks - {(a, b), (b, a)}
    case Unsubscribe => if (a, b) in edges then asks - {(a, b), (b, a)} else asks - {(a, b)}
    case Unsubscribed => if (b, a) in edges then asks - {(a, b), (b, a)} else asks - {(b, a)}
  }

  datatype Stanza = Stanza(verb: Verb, from: Jid, to: Jid)

  /** A stanza between two different users whose JIDs fit a roster row. */
  predicate Proper(s: Stanza) {
    s.from != s.to && |s.from| < ROSTER_JID_MAX && |s.to| < ROSTER_JID_MAX
  }

  ghost function RunRosters(ss: seq<Stanza>): Rosters {
    if ss == [] then map[] else
      var s := ss[|ss| - 1];
      Apply(RunRosters(ss[..|ss| - 1]), s.verb, s.from, s.to)
  }

  ghost function RunEdges(ss: seq<Stanza>): set<(Jid, Jid)> {
    if ss == [] then {} else
      var s := ss[|ss| - 1];
      EdgeStep(RunEdges(ss[..|ss| - 1]), s.verb, s.from, s.to)
  }

  ghost function RunAsks(ss: seq<Stanza>): set<(Jid, Jid)> {
    if ss == [] then {} else
      var front, s := ss[..|ss| - 1], ss[|ss| - 1];
      AskStep(RunEdges(front), RunAsks(front), s.verb, s.from, s.to)
  }

  /** One stanza touches at most the two rows of its pair. */
  lemma ApplyRows(r: Rosters, verb: Verb, a: Jid, b: Jid, u: Jid, v: Jid)
    requires |a| < ROSTER_JID_MAX && |b| < ROSTER_JID_MAX
    requires (u, v) != (a, b) && (u, v) != (b, a)
    ensures Row(Apply(r, verb, a, b), u, v) == Row(r, u, v)
  {
  }

  /** The two rows of the pair after the stanza, half by half. */
  lemma ApplyPair(r: Rosters, verb: Verb, a: Jid, b: Jid)
    requires a != b && |a| < ROSTER_JID_MAX && |b| < ROSTER_JID_MAX
    requires Agree(r, a, b) && Agree(r, b, a)
    ensures var r' := Apply(r, verb, a, b);
            var mine, theirs := Row(r, a, b).sub, Row(r, b, a).sub;
            var mine', theirs' := Row(r', a, b).sub, Row(r', b, a).sub;
            && mine'.HasTo() == (mine.HasTo() && verb != Unsubscribe)
            && theirs'.HasFrom() == mine'.HasTo()
            && theirs'.HasTo() == ((theirs.HasTo() || verb == Subscribed) && verb != Unsubscribed)
            && mine'.HasFrom() == theirs'.HasTo()
  {
  }

  lemma ApplyEdges(r: Rosters, verb: Verb, a: Jid, b: Jid)
    requires a != b && |a| < ROSTER_JID_MAX && |b| < ROSTER_JID_MAX && Consistent(r)
    ensures Edges(Apply(r, verb, a, b)) == EdgeStep(Edges(r), verb, a, b)
  {
    var r' := Apply(r, verb, a, b);
    assert Agree(r, a, b) && Agree(r, b, a);
    ApplyPair(r, verb, a, b);
    forall u, v
      ensures (u, v) in Edges(r') <==> (u, v) in EdgeStep(Edges(r), verb, a, b)
    {
      EdgeIsHalf(r, u, v);
      EdgeIsHalf(r', u, v);
      if (u, v) != (a, b) && (u, v) != (b, a) {
        ApplyRows(r, verb, a, b, u, v);
      }
    }
  }

  lemma EdgeIsHalf(r: Rosters, u: Jid, v: Jid)
    ensures (u, v) in Edges(r) <==> Row(r, u, v).sub.HasTo()
  {
  }

  lemma ApplyConsistent(r: Rosters, verb: Verb, a: Jid, b: Jid)
    requires a != b && |a| < ROSTER_JID_MAX && |b| < ROSTER_JID_MAX && Consistent(r)
    ensures Consistent(Apply(r, verb, a, b))
  {
    var r' := Apply(r, verb, a, b);
    assert Agree(r, a, b) && Agree(r, b, a);
    ApplyPair(r, verb, a, b);
    forall u, v
      ensures Agree(r', u, v)
    {
      if (u, v) != (a, b) && (u, v) != (b, a) {
        assert Agree(r, u, v);
        ApplyRows(r, verb, a, b, u, v);
        ApplyRows(r, verb, a, b, v, u);
      }
    }
  }

  lemma ApplyAskPair(r: Rosters, verb: Verb, a: Jid, b: Jid)
    requires a != b && |a| < ROSTER_JID_MAX && |b| < ROSTER_JID_MAX
    requires Agree(r, a, b) && Agree(r, b, a)
    ensures var asks' := AskStep(Edges(r), Asks(r), verb, a, b);
            && Row(Apply(r, verb, a, b), a, b).ask == ((a, b) in asks')
            && Row(Apply(r, verb, a, b), b, a).ask == ((b, a) in asks')
  {
  }

  lemma ApplyAsks(r: Rosters, verb: Verb, a: Jid, b: Jid)
    requires a != b && |a| < ROSTER_JID_MAX && |b| < ROSTER_JID_MAX && Consistent(r)
    ensures Asks(Apply(r, verb, a, b)) == AskStep(Edges(r), Asks(r), verb, a, b)
  {
    var r' := Apply(r, verb, a, b);
    assert Agree(r, a, b) && Agree(r, b, a);
    ApplyAskPair(r, verb, a, b);
    forall u, v
      ensures (u, v) in Asks(r') <==> (u, v) in AskStep(Edges(r), Asks(r), verb, a, b)
    {
      assert (u, v) in Asks(r) <==> Row(r, u, v).ask;
      assert (u, v) in Asks(r') <==> Row(r', u, v).ask;
      if (u, v) != (a, b) && (u, v) != (b, a) {
        ApplyRows(r, verb, a, b, u, v);
      }
    }
  }

  lemma ApplyAsk(r: Rosters, verb: Verb, a: Jid, b: Jid)
    requires a != b && |a| < ROSTER_JID_MAX && |b| < ROSTER_JID_MAX
    requires AskMeansWaiting(r) && NoSelfRows(r)
    ensures AskMeansWaiting(Apply(r, verb, a, b)) && NoSelfRows(Apply(r, verb, a, b))
  {
  }

  /** For every run of subscription stanzas between different users, from empty
      rosters: the rows stand for exactly the set of subscriptions that the
      stanzas grant and withdraw and the set of requests in flight, the two rows
      of every pair agree, and `ask` is set only on "none" and "from" rows. */
  lemma {:induction false} RowsRefineEdges(ss: seq<Stanza>)
    requires forall s :: s in ss ==> Proper(s)
    ensures Edges(RunRosters(ss)) == RunEdges(ss)
    ensures Asks(RunRosters(ss)) == RunAsks(ss)
    ensures Consistent(RunRosters(ss))
    ensures AskMeansWaiting(RunRosters(ss))
    ensures NoSelfRows(RunRosters(ss))
  {
    if ss != [] {
      var front, s := ss[..|ss| - 1], ss[|ss| - 1];
      assert s in ss;
      RowsRefineEdges(front);
      var r := RunRosters(front);
      ApplyEdges(r, s.verb, s.from, s.to);
      ApplyConsistent(r, s.verb, s.from, s.to);
      ApplyAsks(r, s.verb, s.from, s.to);
      ApplyAsk(r, s.verb, s.from, s.to);
    }
  }

  /** Sent to oneself, a stanza updates the same row twice. Agreement then
      survives exactly when there is nothing to grant or withdraw. */
  lemma {:induction false} SelfSubscription(r: Rosters, verb: Verb, a: Jid, b: Jid)
    requires |a| < ROSTER_JID_MAX && |b| < ROSTER_JID_MAX && Consistent(r)
    ensures Consistent(Apply(r, verb, a, b)) <==>
              || a != b
              || verb == Subscribe
              || (verb == Subscribed && Row(r, a, a).sub == Both)
              || (verb in {Unsubscribe, Unsubscribed} && Row(r, a, a).sub == Neither)
  {
    var r' := Apply(r, verb, a, b);
    assert Agree(r, a, a);
    if a != b {
      ApplyConsistent(r, verb, a, b);
    } else {
      forall u, v | (u, v) != (a, a)
        ensures Agree(r', u, v)
      {
        assert Agree(r, u, v);
        ApplyRows(r, verb, a, a, u, v);
        ApplyRows(r, verb, a, a, v, u);
      }
      assert Consistent(r') <==> Agree(r', a, a);
    }
  }

  /** It happens: granting oneself a subscription leaves a row "from" only. */
  lemma {:induction false} SelfGrantDisagrees()
    ensures !Consistent(Apply(map[], Subscribed, "a@x", "a@x"))
  {
    assert Agree(map[], "a@x", "a@x");
    SelfSubscription(map[], Subscribed, "a@x", "a@x");
    assert Row(map[], "a@x", "a@x").sub == Neither;
  }

  // ----------------------------------------------------- told from the stanzas

  /** A grant by `v` to `u` that neither of them took back since. */
  ghost predicate GrantStands(ss: seq<Stanza>, u: Jid, v: Jid) {
    exists i :: 0 <= i < |ss| && ss[i] == Stanza(Subscribed, v, u) && NotTakenBack(ss[i + 1..], u, v)
  }

  ghost predicate NotTakenBack(ss: seq<Stanza>, u: Jid, v: Jid) {
    forall s :: s in ss ==> s != Stanza(Unsubscribe, u, v) && s != Stanza(Unsubscribed, v, u)
  }

  predicate TakesBack(s: Stanza, u: Jid, v: Jid) {
    s == Stanza(Unsubscribe, u, v) || s == Stanza(Unsubscribed, v, u)
  }

  lemma {:induction false} NotTakenBackMore(ss: seq<Stanza>, s: Stanza, u: Jid, v: Jid)
    ensures NotTakenBack(ss + [s], u, v) <==> NotTakenBack(ss, u, v) && !TakesBack(s, u, v)
  {
    var all := ss + [s];
    assert s in all && forall x :: x in ss ==> x in all;
    assert forall x :: x in all ==> x in ss || x == s;
    if NotTakenBack(all, u, v) {
      forall x | x in ss ensures x != Stanza(Unsubscribe, u, v) && x != Stanza(Unsubscribed, v, u) {
        assert x in all;
      }
    }
  }

  lemma {:induction false} GrantStandsMore(ss: seq<Stanza>, s: Stanza, u: Jid, v: Jid)
    ensures GrantStands(ss + [s], u, v)
            <==> s == Stanza(Subscribed, v, u) || (GrantStands(ss, u, v) && !TakesBack(s, u, v))
  {
    hide NotTakenBack;
    var all := ss + [s];
    forall i | 0 <= i < |ss|
      ensures all[i] == ss[i]
      ensures NotTakenBack(all[i + 1..], u, v) <==> NotTakenBack(ss[i + 1..], u, v) && !TakesBack(s, u, v)
    {
      assert all[i + 1..] == ss[i + 1..] + [s];
      NotTakenBackMore(ss[i + 1..], s, u, v);
    }
    assert all[|ss|] == s && all[|ss| + 1..] == [];
    NothingTakenBack(u, v);
  }

  lemma {:induction false} NothingTakenBack(u: Jid, v: Jid)
    ensures NotTakenBack([], u, v)
  {
  }

  lemma {:induction false} EdgeIffGrantStands(ss: seq<Stanza>, u: Jid, v: Jid)
    ensures (u, v) in RunEdges(ss) <==> GrantStands(ss, u, v)
  {
    if ss != [] {
      var front, s := ss[..|ss| - 1], ss[|ss| - 1];
      assert ss == front + [s];
      EdgeIffGrantStands(front, u, v);
      GrantStandsMore(front, s, u, v);
      hide GrantStands;
    }
  }

  /** The rows, told from the stanzas alone: u's row for v says "to" or "both" if
      and only if v granted u a subscription that neither took back since, and
      v's row for u then says "from" or "both". */
  lemma {:induction false} RowsTellHistory(ss: seq<Stanza>, u: Jid, v: Jid)
    requires forall s :: s in ss ==> Proper(s)
    ensures var mine, theirs := Row(RunRosters(ss), u, v).sub, Row(RunRosters(ss), v, u).sub;
            && (mine == ToContact || mine == Both <==> GrantStands(ss, u, v))
            && (theirs == FromContact || theirs == Both <==> GrantStands(ss, u, v))
  {
    hide RunRosters, RunEdges, RunAsks, GrantStands, Row;
    RowsRefineEdges(ss);
    EdgeIffGrantStands(ss, u, v);
    EdgeIsHalf(RunRosters(ss), u, v);
    assert Agree(RunRosters(ss), u, v);
  }
}
