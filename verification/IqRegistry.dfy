/** The IQ handler registry of xmpp_iq_dispatch.c: an array re-sorted lazily by
    a stable insertion sort, and the dispatch that walks it. */
module IqRegistry {
  import opened Options
  import opened Jids

  const MAX_HANDLERS: nat := 64

  /** A registered copy of a handler entry; `serial` tells the copies apart and
      grows with registration. */
  datatype Handler = Handler(ns: string, kind: Option<string>, fn: nat, priority: int, serial: nat)

  // ---------------------------------------------------------------- the order

  /** Tried before: higher priority, then registered earlier. */
  predicate Before(a: Handler, b: Handler) {
    a.priority > b.priority || (a.priority == b.priority && a.serial < b.serial)
  }

  ghost predicate Descending(s: seq<Handler>) {
    forall i, j :: 0 <= i < j < |s| ==> s[i].priority >= s[j].priority
  }

  /** Equal priorities stand in registration order. */
  ghost predicate TiesInOrder(s: seq<Handler>) {
    forall i, j :: 0 <= i < j < |s| && s[i].priority == s[j].priority ==> s[i].serial < s[j].serial
  }

  ghost predicate InCallOrder(s: seq<Handler>) {
    forall i, j :: 0 <= i < j < |s| ==> Before(s[i], s[j])
  }

  /** Insertion from the back: behind everything of at least its priority. */
  ghost function Insert(s: seq<Handler>, x: Handler): seq<Handler> {
    if s == [] || s[|s| - 1].priority >= x.priority then s + [x]
    else Insert(s[..|s| - 1], x) + [s[|s| - 1]]
  }

  ghost function Sorted(s: seq<Handler>): seq<Handler> {
    if s == [] then [] else Insert(Sorted(s[..|s| - 1]), s[|s| - 1])
  }

  lemma {:induction false} InsertFacts(s: seq<Handler>, x: Handler)
    ensures multiset(Insert(s, x)) == multiset(s) + multiset{x}
    ensures |Insert(s, x)| == |s| + 1
  {
    if s != [] && s[|s| - 1].priority < x.priority {
      assert s == s[..|s| - 1] + [s[|s| - 1]];
      InsertFacts(s[..|s| - 1], x);
    }
  }

  lemma {:induction false} InsertMember(s: seq<Handler>, x: Handler, i: nat)
    requires i < |Insert(s, x)|
    ensures Insert(s, x)[i] in s || Insert(s, x)[i] == x
  {
    InsertFacts(s, x);
    assert Insert(s, x)[i] in multiset(Insert(s, x));
  }

  /** Inserting a later registration keeps the call order. */
  lemma {:induction false} InsertKeepsOrder(s: seq<Handler>, x: Handler)
    requires InCallOrder(s)
    requires forall i :: 0 <= i < |s| && s[i].priority == x.priority ==> s[i].serial < x.serial
    ensures InCallOrder(Insert(s, x))
  {
    if s == [] || s[|s| - 1].priority >= x.priority {
      forall i | 0 <= i < |s|
        ensures Before(s[i], x)
      {
        assert i < |s| - 1 ==> Before(s[i], s[|s| - 1]);
      }
    } else {
      var front, last := s[..|s| - 1], s[|s| - 1];
      var placed := Insert(front, x);
      InsertKeepsOrder(front, x);
      forall i | 0 <= i < |placed|
        ensures Before(placed[i], last)
      {
        InsertMember(front, x, i);
        if placed[i] in front {
          var k :| 0 <= k < |front| && front[k] == placed[i];
          assert s[k] == front[k];
        }
      }
    }
  }

  /** The sort loses and invents nothing. */
  lemma {:induction false} SortedSame(s: seq<Handler>)
    ensures multiset(Sorted(s)) == multiset(s) && |Sorted(s)| == |s|
  {
    if s != [] {
      var front, last := s[..|s| - 1], s[|s| - 1];
      assert s == front + [last];
      SortedSame(front);
      InsertFacts(Sorted(front), last);
      hide Insert;
    }
  }

  lemma {:induction false} SortedMember(s: seq<Handler>, i: nat)
    requires i < |Sorted(s)|
    ensures Sorted(s)[i] in s
  {
    hide Sorted;
    SortedSame(s);
    assert Sorted(s)[i] in multiset(Sorted(s));
  }

  /** The sort is stable: from ties in registration order it makes the call
      order, and it loses and invents nothing. */
  lemma {:induction false} SortedFacts(s: seq<Handler>)
    requires TiesInOrder(s)
    ensures InCallOrder(Sorted(s))
    ensures multiset(Sorted(s)) == multiset(s) && |Sorted(s)| == |s|
  {
    SortedSame(s);
    if s != [] {
      var front, last := s[..|s| - 1], s[|s| - 1];
      SortedFacts(front);
      hide Insert, InCallOrder;
      forall i | 0 <= i < |Sorted(front)| && Sorted(front)[i].priority == last.priority
        ensures Sorted(front)[i].serial < last.serial
      {
        SortedMember(front, i);
        var k :| 0 <= k < |front| && front[k] == Sorted(front)[i];
        assert s[k] == front[k];
      }
      InsertKeepsOrder(Sorted(front), last);
    }
  }

  lemma {:induction false} HeadsAgree(s: seq<Handler>, t: seq<Handler>)
    requires InCallOrder(s) && InCallOrder(t) && s != [] && t != []
    requires s[0] in t && t[0] in s
    ensures s[0] == t[0]
  {
    var k :| 0 <= k < |t| && t[k] == s[0];
    var j :| 0 <= j < |s| && s[j] == t[0];
    assert k > 0 ==> Before(t[0], t[k]);
    assert j > 0 ==> Before(s[0], s[j]);
  }

  lemma {:induction false} TailMultiset(s: seq<Handler>)
    requires s != []
    ensures multiset(s[1..]) == multiset(s) - multiset{s[0]}
  {
    assert s == [s[0]] + s[1..];
  }

  /** The call order is unique: it depends only on which registrations are
      alive, not on the history of sorts and removals. */
  lemma {:induction false} CallOrderIsCanonical(s: seq<Handler>, t: seq<Handler>)
    requires InCallOrder(s) && InCallOrder(t) && multiset(s) == multiset(t)
    ensures s == t
  {
    if s == [] {
      assert |multiset(t)| == 0;
    } else {
      assert |multiset(t)| == |s|;
      assert s[0] in multiset(t) && t[0] in multiset(s);
      HeadsAgree(s, t);
      var a, b := s[1..], t[1..];
      TailMultiset(s);
      TailMultiset(t);
      CallOrderIsCanonical(a, b);
      assert s == [s[0]] + a && t == [t[0]] + b;
    }
  }

  // ----------------------------------------------------------------- matching

  /** The '|'-separated tokens of a type list. */
  function Tokens(list: string): (ts: seq<string>)
    ensures |ts| >= 1
    decreases |list|
  {
    var bar := Find(list, '|');
    if bar == |list| then [list] else [list[..bar]] + Tokens(list[bar + 1..])
  }

  /** Tokens put together again with '|' between them. */
  function Joined(ts: seq<string>): string
    requires |ts| >= 1
  {
    if |ts| == 1 then ts[0] else ts[0] + "|" + Joined(ts[1..])
  }

  /** The tokens are the pieces between the bars: none holds a bar, and together
      they are the list. */
  lemma {:induction false} TokensAreSplit(list: string)
    ensures Joined(Tokens(list)) == list
    ensures forall i :: 0 <= i < |Tokens(list)| ==> '|' !in Tokens(list)[i]
    decreases |list|
  {
    TokensUnfolded(list);
    hide Tokens;
    var bar := Find(list, '|');
    if bar < |list| {
      var rest := Tokens(list[bar + 1..]);
      TokensAreSplit(list[bar + 1..]);
      assert Tokens(list)[1..] == rest && Tokens(list)[0] == list[..bar];
      assert list == list[..bar] + "|" + list[bar + 1..];
    }
  }

  /** What the scan compares: it stops at the end of the list, so an empty last
      token is never compared. */
  function Scanned(list: string): seq<string>
    decreases |list|
  {
    var bar := Find(list, '|');
    if list == "" then []
    else if bar == |list| then [list]
    else [list[..bar]] + Scanned(list[bar + 1..])
  }

  predicate Matches(h: Handler, ns: string, kind: string) {
    h.ns == ns && (h.kind.None? || kind in Scanned(h.kind.value))
  }

  lemma {:induction false} EmptyLast(first: string, ts: seq<string>, scanned: seq<string>)
    requires |ts| >= 1 && ts == if ts[|ts| - 1] == "" then scanned + [""] else scanned
    ensures var all := [first] + ts;
            all == if all[|all| - 1] == "" then ([first] + scanned) + [""] else [first] + scanned
  {
    assert ([first] + ts)[|ts|] == ts[|ts| - 1];
  }

  /** The scan compares every token but an empty last one. */
  lemma {:induction false} ScannedIsTokens(list: string)
    ensures Tokens(list) == if Tokens(list)[|Tokens(list)| - 1] == "" then Scanned(list) + [""] else Scanned(list)
    decreases |list|
  {
    hide Tokens, Scanned;
    TokensUnfolded(list);
    ScannedUnfolded(list);
    var bar := Find(list, '|');
    if bar < |list| {
      ScannedIsTokens(list[bar + 1..]);
      EmptyLast(list[..bar], Tokens(list[bar + 1..]), Scanned(list[bar + 1..]));
    }
  }

  lemma {:induction false} TokensUnfolded(list: string)
    ensures var bar := Find(list, '|');
            Tokens(list) == if bar < |list| then [list[..bar]] + Tokens(list[bar + 1..]) else [list]
  {
    hide Find;
  }

  lemma {:induction false} ScannedUnfolded(list: string)
    ensures var bar := Find(list, '|');
            Scanned(list) == if list == "" then []
                             else if bar < |list| then [list[..bar]] + Scanned(list[bar + 1..]) else [list]
  {
    hide Find;
  }

  /** Matching is membership in the token list, exactly unless the type is empty
      and the only empty token is the last one. */
  lemma {:induction false} MatchesIsMembership(h: Handler, ns: string, kind: string)
    requires h.kind.Some?
    ensures var ts := Tokens(h.kind.value);
            (Matches(h, ns, kind) <==> h.ns == ns && kind in ts)
            <==> !(h.ns == ns && kind == "" && ts[|ts| - 1] == "" && "" !in ts[..|ts| - 1])
  {
    var ts, scanned := Tokens(h.kind.value), Scanned(h.kind.value);
    ScannedIsTokens(h.kind.value);
    hide Tokens, Scanned;
    if ts[|ts| - 1] == "" {
      assert ts[..|ts| - 1] == scanned;
    }
  }

  /** It happens: the list "get|" has an empty token that an empty type misses. */
  lemma {:induction false} EmptyTypeIsMissed()
    ensures "" in Tokens("get|") && !Matches(Handler("n", Some("get|"), 0, 0, 0), "n", "")
  {
    hide Tokens, Scanned;
    assert "get" + "|" == "get|";
    TrailingBar("get");
    assert Tokens("get|")[1] == "";
  }

  lemma {:induction false} TrailingBar(head: string)
    requires '|' !in head
    ensures Tokens(head + "|") == [head, ""] && Scanned(head + "|") == [head]
  {
    var list := head + "|";
    FindInConcat(head, '|', "");
    assert list == head + ['|'] + "";
    assert Find(list, '|') == |head| && list[..|head|] == head && list[|head| + 1..] == "";
    TokensUnfolded(list);
    TokensUnfolded("");
    ScannedUnfolded(list);
    ScannedUnfolded("");
    hide Tokens, Scanned, Find;
  }

  // ----------------------------------------------------------------- dispatch

  const IQ_HANDLED: int := 0
  const IQ_ERROR: int := 1

  /** A result that ends the walk. */
  predicate Stops(result: int) {
    result == IQ_HANDLED || result == IQ_ERROR
  }

  /** The handlers called, in order: the matching ones up to the first whose
      result stops the walk. */
  ghost function Called(s: seq<Handler>, ns: string, kind: string, answer: Handler -> int): seq<Handler> {
    if s == [] then []
    else if !Matches(s[0], ns, kind) then Called(s[1..], ns, kind, answer)
    else if Stops(answer(s[0])) then [s[0]]
    else [s[0]] + Called(s[1..], ns, kind, answer)
  }

  ghost predicate AnswersTo(s: seq<Handler>, ns: string, kind: string, answer: Handler -> int) {
    exists i :: 0 <= i < |s| && Matches(s[i], ns, kind) && Stops(answer(s[i]))
  }

  lemma {:induction false} AnswersToIff(s: seq<Handler>, ns: string, kind: string, answer: Handler -> int)
    ensures !AnswersTo(s, ns, kind, answer)
            <==> forall h :: h in s && Matches(h, ns, kind) ==> answer(h) != 0 && answer(h) != 1
  {
    hide Matches;
    if AnswersTo(s, ns, kind, answer) {
      var i :| 0 <= i < |s| && Matches(s[i], ns, kind) && Stops(answer(s[i]));
      assert s[i] in s;
    }
  }

  /** Of the live matching handlers, one is called exactly when no matching
      handler in front of it stopped the walk. */
  lemma {:induction false} CalledIff(s: seq<Handler>, ns: string, kind: string, answer: Handler -> int, x: Handler)
    requires InCallOrder(s) && x in s
    ensures x in Called(s, ns, kind, answer) <==>
              && Matches(x, ns, kind)
              && forall y :: && y in s && Matches(y, ns, kind)
                             && (y.priority > x.priority || (y.priority == x.priority && y.serial < x.serial))
                             ==> answer(y) != 0 && answer(y) != 1
    ensures InCallOrder(Called(s, ns, kind, answer))
    ensures forall y :: y in Called(s, ns, kind, answer) ==> y in s
  {
    var rest := s[1..];
    assert s == [s[0]] + rest;
    hide Matches;
    CalledFacts(rest, ns, kind, answer);
    if x == s[0] {
      forall y | y in s
        ensures !Before(y, x)
      {
        var k :| 0 <= k < |s| && s[k] == y;
        assert k > 0 ==> Before(s[0], s[k]);
      }
    } else {
      assert x in rest;
      CalledIff(rest, ns, kind, answer, x);
      var k :| 0 <= k < |rest| && rest[k] == x;
      assert Before(s[0], s[k + 1]);
    }
    CalledFacts(s, ns, kind, answer);
  }

  lemma {:induction false} CalledFacts(s: seq<Handler>, ns: string, kind: string, answer: Handler -> int)
    requires InCallOrder(s)
    ensures forall y :: y in Called(s, ns, kind, answer) ==> y in s
    ensures InCallOrder(Called(s, ns, kind, answer))
  {
    hide Matches;
    if s != [] {
      var rest := s[1..];
      CalledFacts(rest, ns, kind, answer);
      forall i | 0 <= i < |Called(rest, ns, kind, answer)|
        ensures Before(s[0], Called(rest, ns, kind, answer)[i])
      {
        assert Called(rest, ns, kind, answer)[i] in rest;
        var k :| 0 <= k < |rest| && rest[k] == Called(rest, ns, kind, answer)[i];
        assert Before(s[0], s[k + 1]);
      }
    }
  }

  /** What the header promises: every positive result is an error that has been
      answered, so only negative results let the walk go on. */
  predicate StopsByHeader(result: int) {
    result >= 0
  }

  /** The walk the header promises. */
  ghost function Promised(s: seq<Handler>, ns: string, kind: string, answer: Handler -> int): seq<Handler> {
    if s == [] then []
    else if !Matches(s[0], ns, kind) then Promised(s[1..], ns, kind, answer)
    else if StopsByHeader(answer(s[0])) then [s[0]]
    else [s[0]] + Promised(s[1..], ns, kind, answer)
  }

  /** The first matching handler whose result is not negative answers more than
      1, and another matching handler stands behind it. */
  ghost predicate WalksPast(s: seq<Handler>, ns: string, kind: string, answer: Handler -> int, i: nat, j: nat) {
    && i < j < |s| && Matches(s[i], ns, kind) && Matches(s[j], ns, kind) && answer(s[i]) > 1
    && forall k :: 0 <= k < i && Matches(s[k], ns, kind) ==> !StopsByHeader(answer(s[k]))
  }

  lemma {:induction false} NothingCalled(s: seq<Handler>, ns: string, kind: string, answer: Handler -> int)
    ensures Called(s, ns, kind, answer) == [] <==> forall j :: 0 <= j < |s| ==> !Matches(s[j], ns, kind)
  {
    hide Matches;
    if s != [] {
      NothingCalled(s[1..], ns, kind, answer);
      assert forall j :: 1 <= j < |s| ==> s[j] == s[1..][j - 1];
    }
  }

  /** The dispatcher calls exactly the handlers the header promises, unless an
      error result above 1 is walked past. */
  lemma {:induction false} HeaderIsMetIff(s: seq<Handler>, ns: string, kind: string, answer: Handler -> int)
    ensures Called(s, ns, kind, answer) == Promised(s, ns, kind, answer)
            <==> forall i, j :: !WalksPast(s, ns, kind, answer, i, j)
  {
    hide Matches;
    if s != [] {
      var rest := s[1..];
      assert forall k :: 1 <= k < |s| ==> s[k] == rest[k - 1];
      if !Matches(s[0], ns, kind) || answer(s[0]) < IQ_HANDLED {
        HeaderIsMetIff(rest, ns, kind, answer);
        WalksPastShift(s, ns, kind, answer);
        if Matches(s[0], ns, kind) {
          assert Called(s, ns, kind, answer)[1..] == Called(rest, ns, kind, answer);
          assert Promised(s, ns, kind, answer)[1..] == Promised(rest, ns, kind, answer);
        }
      } else {
        forall i, j | WalksPast(s, ns, kind, answer, i, j) ensures i == 0 {}
        NothingCalled(rest, ns, kind, answer);
        if answer(s[0]) > IQ_ERROR && Called(rest, ns, kind, answer) != [] {
          var j :| 0 <= j < |rest| && Matches(rest[j], ns, kind);
          assert s[j + 1] == rest[j] && WalksPast(s, ns, kind, answer, 0, j + 1);
          assert |Called(s, ns, kind, answer)| > 1;
        }
      }
    }
  }

  lemma {:induction false} WalksPastShift(s: seq<Handler>, ns: string, kind: string, answer: Handler -> int)
    requires s != [] && (!Matches(s[0], ns, kind) || answer(s[0]) < IQ_HANDLED)
    ensures (forall i, j :: !WalksPast(s, ns, kind, answer, i, j))
            <==> forall i, j :: !WalksPast(s[1..], ns, kind, answer, i, j)
  {
    hide Matches;
    var rest := s[1..];
    assert forall k :: 1 <= k < |s| ==> s[k] == rest[k - 1];
    forall i: nat, j: nat | WalksPast(s, ns, kind, answer, i, j)
      ensures i > 0 && WalksPast(rest, ns, kind, answer, i - 1, j - 1)
    {
      forall k | 0 <= k < i - 1 && Matches(rest[k], ns, kind) ensures !StopsByHeader(answer(rest[k])) {
        assert s[k + 1] == rest[k];
      }
    }
    forall i: nat, j: nat | WalksPast(rest, ns, kind, answer, i, j)
      ensures WalksPast(s, ns, kind, answer, i + 1, j + 1)
    {
      assert s[i + 1] == rest[i] && s[j + 1] == rest[j];
      forall k | 0 <= k < i + 1 && Matches(s[k], ns, kind) ensures !StopsByHeader(answer(s[k])) {
        assert k > 0 ==> s[k] == rest[k - 1];
      }
    }
  }

  /** It happens: behind a handler that answers 2 another one is called. */
  lemma {:induction false} ErrorIsWalkedPast(answer: Handler -> int)
    requires forall h :: answer(h) == 2
    ensures exists s :: InCallOrder(s) && Called(s, "n", "get", answer) != Promised(s, "n", "get", answer)
  {
    var a, b := Handler("n", None, 0, 0, 0), Handler("n", None, 1, 0, 1);
    var s := [a, b];
    assert InCallOrder(s) && Matches(a, "n", "get") && Matches(b, "n", "get");
    assert WalksPast(s, "n", "get", answer, 0, 1);
    hide Called, Promised, Matches;
    HeaderIsMetIff(s, "n", "get", answer);
  }

  // -------------------------------------------------------------------- runs

  datatype Registry = Registry(handlers: seq<Handler>, sorted: bool, next: nat)

  datatype Op =
    | Register(ns: string, kind: Option<string>, fn: nat, priority: int)
    | Unregister(ns: string, fn: nat)
    | Dispatch

  /** The first entry with this namespace and function, or |s|. */
  function IndexOf(s: seq<Handler>, ns: string, fn: nat): (i: nat)
    ensures i <= |s|
    ensures i < |s| ==> s[i].ns == ns && s[i].fn == fn
    ensures forall k :: 0 <= k < i ==> !(s[k].ns == ns && s[k].fn == fn)
  {
    if s == [] || (s[0].ns == ns && s[0].fn == fn) then 0 else IndexOf(s[1..], ns, fn) + 1
  }

  ghost function Removed(s: seq<Handler>, ns: string, fn: nat): seq<Handler> {
    var i := IndexOf(s, ns, fn);
    if i == |s| then s else s[..i] + s[i + 1..]
  }

  ghost function Resorted(r: Registry): Registry {
    if r.sorted then r else r.(handlers := Sorted(r.handlers), sorted := true)
  }

  ghost function RegistryStep(r: Registry, op: Op): Registry {
    match op
    case Register(ns, kind, fn, priority) =>
      if |r.handlers| >= MAX_HANDLERS then r
      else Registry(r.handlers + [Handler(ns, kind, fn, priority, r.next)], false, r.next + 1)
    case Unregister(ns, fn) =>
      if IndexOf(r.handlers, ns, fn) == |r.handlers| then r
      else r.(handlers := Removed(r.handlers, ns, fn), sorted := false)
    case Dispatch => Resorted(r)
  }

  ghost function RunRegistry(ops: seq<Op>): Registry {
    if ops == [] then Registry([], true, 0) else RegistryStep(RunRegistry(ops[..|ops| - 1]), ops[|ops| - 1])
  }

  /** Ties are in registration order at all times, and a registry that claims to
      be sorted is. */
  ghost predicate RegistryOk(r: Registry) {
    && |r.handlers| <= MAX_HANDLERS
    && TiesInOrder(r.handlers)
    && (forall i :: 0 <= i < |r.handlers| ==> r.handlers[i].serial < r.next)
    && (r.sorted ==> InCallOrder(r.handlers))
  }

  lemma {:induction false} CallOrderHasTies(s: seq<Handler>)
    requires InCallOrder(s)
    ensures TiesInOrder(s) && Descending(s)
  {
    forall i, j | 0 <= i < j < |s|
      ensures s[i].priority >= s[j].priority && (s[i].priority == s[j].priority ==> s[i].serial < s[j].serial)
    {
      assert Before(s[i], s[j]);
    }
  }

  lemma {:induction false} ResortedOk(r: Registry)
    requires RegistryOk(r)
    ensures RegistryOk(Resorted(r)) && InCallOrder(Resorted(r).handlers)
    ensures multiset(Resorted(r).handlers) == multiset(r.handlers)
  {
    if !r.sorted {
      var t := Sorted(r.handlers);
      SortedFacts(r.handlers);
      CallOrderHasTies(t);
      forall i | 0 <= i < |t|
        ensures t[i].serial < r.next
      {
        assert t[i] in multiset(r.handlers);
      }
    }
  }

  lemma {:induction false} RemoveOk(r: Registry, i: nat)
    requires RegistryOk(r) && i < |r.handlers|
    ensures RegistryOk(r.(handlers := r.handlers[..i] + r.handlers[i + 1..], sorted := false))
  {
    var t := r.handlers[..i] + r.handlers[i + 1..];
    assert forall k :: 0 <= k < |t| ==> t[k] == r.handlers[if k < i then k else k + 1];
  }

  lemma {:induction false} RegistryStepOk(r: Registry, op: Op)
    requires RegistryOk(r)
    ensures RegistryOk(RegistryStep(r, op))
  {
    hide IndexOf, Resorted;
    match op
    case Dispatch => ResortedOk(r);
    case Register(ns, kind, fn, priority) =>
    case Unregister(ns, fn) =>
      var i := IndexOf(r.handlers, ns, fn);
      if i < |r.handlers| {
        RemoveOk(r, i);
      }
  }

  lemma {:induction false} RunRegistryOk(ops: seq<Op>)
    ensures RegistryOk(RunRegistry(ops))
  {
    if ops != [] {
      RunRegistryOk(ops[..|ops| - 1]);
      RegistryStepOk(RunRegistry(ops[..|ops| - 1]), ops[|ops| - 1]);
    }
  }

  /** For every interleaving of registrations, removals and dispatches: the next
      dispatch walks the live handlers in descending priority with ties in
      registration order, and that order is the only one it could be. */
  lemma {:induction false} DispatchOrder(ops: seq<Op>)
    ensures var live, walked := RunRegistry(ops).handlers, Resorted(RunRegistry(ops)).handlers;
            && multiset(walked) == multiset(live)
            && Descending(walked) && TiesInOrder(walked)
            && forall t :: InCallOrder(t) && multiset(t) == multiset(live) ==> t == walked
  {
    RunRegistryOk(ops);
    var r := RunRegistry(ops);
    ResortedOk(r);
    CallOrderHasTies(Resorted(r).handlers);
    forall t | InCallOrder(t) && multiset(t) == multiset(r.handlers)
      ensures t == Resorted(r).handlers
    {
      CallOrderIsCanonical(t, Resorted(r).handlers);
    }
  }

  // ------------------------------------------------- removal and dispatches

  predicate Names(h: Handler, ns: string, fn: nat) {
    h.ns == ns && h.fn == fn
  }

  /** No live entry with this namespace and function outranks the first one. */
  ghost predicate FirstIsHighest(s: seq<Handler>, ns: string, fn: nat) {
    var i := IndexOf(s, ns, fn);
    i < |s| ==> forall k :: 0 <= k < |s| && Names(s[k], ns, fn) ==> s[k].priority <= s[i].priority
  }

  /** Nothing registered under the name: nothing is removed, in any order. */
  lemma {:induction false} SomeNamed(s: seq<Handler>, t: seq<Handler>, ns: string, fn: nat)
    requires multiset(s) == multiset(t)
    ensures IndexOf(s, ns, fn) < |s| <==> IndexOf(t, ns, fn) < |t|
  {
    hide IndexOf;
    if IndexOf(s, ns, fn) < |s| {
      assert s[IndexOf(s, ns, fn)] in multiset(t);
    }
    if IndexOf(t, ns, fn) < |t| {
      assert t[IndexOf(t, ns, fn)] in multiset(s);
    }
  }

  /** In call order the first entry of a name comes before all others of it. */
  lemma {:induction false} FirstNamed(t: seq<Handler>, ns: string, fn: nat, z: Handler)
    requires InCallOrder(t) && z in t && Names(z, ns, fn)
    ensures IndexOf(t, ns, fn) < |t|
    ensures z == t[IndexOf(t, ns, fn)] || Before(t[IndexOf(t, ns, fn)], z)
  {
    hide IndexOf, Before;
    var k :| 0 <= k < |t| && t[k] == z;
    assert IndexOf(t, ns, fn) <= k;
  }

  /** Removing a handler before or after a sort removes the same entry exactly
      when the first entry of that name is also one of the highest priority. */
  lemma {:induction false} RemovalIgnoresSortIff(r: Registry, ns: string, fn: nat)
    requires RegistryOk(r)
    ensures multiset(RegistryStep(r, Unregister(ns, fn)).handlers)
            == multiset(RegistryStep(Resorted(r), Unregister(ns, fn)).handlers)
            <==> FirstIsHighest(r.handlers, ns, fn)
  {
    hide *;
    var s, t := r.handlers, Resorted(r).handlers;
    ResortedOk(r);
    TiesOf(r);
    UnregisterRemoves(r, ns, fn);
    UnregisterRemoves(Resorted(r), ns, fn);
    SomeNamed(s, t, ns, fn);
    if IndexOf(s, ns, fn) < |s| {
      RemovedSame(s, t, ns, fn);
      SameEntryIff(s, t, ns, fn);
    } else {
      NoneIsHighest(s, ns, fn);
      NoneRemoved(s, ns, fn);
      NoneRemoved(t, ns, fn);
    }
  }

  lemma {:induction false} UnregisterRemoves(r: Registry, ns: string, fn: nat)
    ensures RegistryStep(r, Unregister(ns, fn)).handlers == Removed(r.handlers, ns, fn)
    ensures RegistryStep(r, Unregister(ns, fn)).next == r.next
  {
  }

  lemma {:induction false} UnregisterIs(r: Registry, ns: string, fn: nat)
    ensures RegistryStep(r, Unregister(ns, fn))
            == if IndexOf(r.handlers, ns, fn) == |r.handlers| then r
               else r.(handlers := Removed(r.handlers, ns, fn), sorted := false)
  {
    hide Removed;
  }

  lemma {:induction false} RemovedAt(s: seq<Handler>, ns: string, fn: nat)
    requires IndexOf(s, ns, fn) < |s|
    ensures Removed(s, ns, fn) == s[..IndexOf(s, ns, fn)] + s[IndexOf(s, ns, fn) + 1..]
  {
    hide IndexOf;
  }

  lemma {:induction false} NoneRemoved(s: seq<Handler>, ns: string, fn: nat)
    requires IndexOf(s, ns, fn) == |s|
    ensures Removed(s, ns, fn) == s
  {
  }

  lemma {:induction false} RemovedSame(s: seq<Handler>, t: seq<Handler>, ns: string, fn: nat)
    requires multiset(s) == multiset(t) && IndexOf(s, ns, fn) < |s| && IndexOf(t, ns, fn) < |t|
    ensures multiset(Removed(s, ns, fn)) == multiset(Removed(t, ns, fn))
            <==> s[IndexOf(s, ns, fn)] == t[IndexOf(t, ns, fn)]
  {
    hide *;
    RemovedMultiset(s, ns, fn);
    RemovedMultiset(t, ns, fn);
    var x, y := s[IndexOf(s, ns, fn)], t[IndexOf(t, ns, fn)];
    assert x in multiset(s) && y in multiset(t);
    MinusSame(multiset(s), x, y);
  }

  lemma {:induction false} RemovedMultiset(s: seq<Handler>, ns: string, fn: nat)
    requires IndexOf(s, ns, fn) < |s|
    ensures multiset(Removed(s, ns, fn)) == multiset(s) - multiset{s[IndexOf(s, ns, fn)]}
  {
    var i := IndexOf(s, ns, fn);
    hide IndexOf;
    assert s == s[..i] + [s[i]] + s[i + 1..];
  }

  lemma {:induction false} MinusSame(all: multiset<Handler>, x: Handler, y: Handler)
    requires x in all && y in all
    ensures all - multiset{x} == all - multiset{y} <==> x == y
  {
    if x != y {
      assert (all - multiset{x})[x] == all[x] - 1 && (all - multiset{y})[x] == all[x];
    }
  }

  lemma {:induction false} NoneIsHighest(s: seq<Handler>, ns: string, fn: nat)
    requires IndexOf(s, ns, fn) == |s|
    ensures FirstIsHighest(s, ns, fn)
  {
  }

  /** The entry the array order finds and the one the call order finds. */
  lemma {:induction false} SameEntryIff(s: seq<Handler>, t: seq<Handler>, ns: string, fn: nat)
    requires TiesInOrder(s) && InCallOrder(t) && multiset(s) == multiset(t)
    requires IndexOf(s, ns, fn) < |s| && IndexOf(t, ns, fn) < |t|
    ensures s[IndexOf(s, ns, fn)] == t[IndexOf(t, ns, fn)] <==> FirstIsHighest(s, ns, fn)
  {
    hide IndexOf, InCallOrder;
    var i, j := IndexOf(s, ns, fn), IndexOf(t, ns, fn);
    var x, y := s[i], t[j];
    assert x in multiset(t) && y in multiset(s);
    FirstNamed(t, ns, fn, x);
    var m :| 0 <= m < |s| && s[m] == y;
    assert i <= m && Names(s[m], ns, fn);
    forall k | 0 <= k < |s| && Names(s[k], ns, fn)
      ensures s[k] == y || Before(y, s[k])
    {
      assert s[k] in multiset(t);
      FirstNamed(t, ns, fn, s[k]);
    }
  }

  /** The same operations without the dispatches. */
  ghost function Undispatched(ops: seq<Op>): seq<Op> {
    if ops == [] then [] else
      Undispatched(ops[..|ops| - 1]) + if ops[|ops| - 1].Dispatch? then [] else [ops[|ops| - 1]]
  }

  /** A namespace and function are always registered with one priority. */
  ghost predicate OnePriority(ops: seq<Op>) {
    forall i, j :: 0 <= i < j < |ops| ==> !Conflict(ops[i], ops[j])
  }

  predicate Conflict(a: Op, b: Op) {
    a.Register? && b.Register? && a.ns == b.ns && a.fn == b.fn && a.priority != b.priority
  }

  ghost predicate RegisteredBy(h: Handler, ops: seq<Op>) {
    exists i :: && 0 <= i < |ops| && ops[i].Register?
                && ops[i].ns == h.ns && ops[i].fn == h.fn && ops[i].priority == h.priority
  }

  /** An operation brings in no entry but the one it registers. */
  lemma {:induction false} LiveFrom(r: Registry, op: Op, h: Handler)
    requires RegistryOk(r) && h in RegistryStep(r, op).handlers
    ensures h in r.handlers || RegisteredBy(h, [op])
  {
    hide IndexOf, Resorted, RegistryOk;
    match op
    case Dispatch =>
      ResortedOk(r);
      assert h in multiset(r.handlers);
    case Unregister(_, _) =>
    case Register(_, _, _, _) =>
      if h !in r.handlers {
        assert [op][0] == op;
      }
  }

  lemma {:induction false} RegisteredMore(h: Handler, ops: seq<Op>, op: Op)
    requires RegisteredBy(h, ops) || RegisteredBy(h, [op])
    ensures RegisteredBy(h, ops + [op])
  {
    var all := ops + [op];
    assert all[|ops|] == op && forall i :: 0 <= i < |ops| ==> all[i] == ops[i];
  }

  lemma {:induction false} LiveIsRegistered(ops: seq<Op>, h: Handler)
    requires h in RunRegistry(ops).handlers
    ensures RegisteredBy(h, ops)
  {
    hide RegistryStep, RegisteredBy;
    if ops != [] {
      var front, op := ops[..|ops| - 1], ops[|ops| - 1];
      assert front + [op] == ops;
      RunRegistryOk(front);
      LiveFrom(RunRegistry(front), op, h);
      if h in RunRegistry(front).handlers {
        LiveIsRegistered(front, h);
      }
      RegisteredMore(h, front, op);
    }
  }

  /** Two registries with the same live entries and one priority for the name
      remove the same entry: the one registered first. */
  lemma {:induction false} SameFirst(s: seq<Handler>, t: seq<Handler>, ns: string, fn: nat)
    requires TiesInOrder(s) && TiesInOrder(t) && multiset(s) == multiset(t)
    requires OneEach(s)
    requires IndexOf(s, ns, fn) < |s| && IndexOf(t, ns, fn) < |t|
    ensures s[IndexOf(s, ns, fn)] == t[IndexOf(t, ns, fn)]
  {
    hide IndexOf;
    var i, j := IndexOf(s, ns, fn), IndexOf(t, ns, fn);
    assert s[i] in multiset(t) && t[j] in multiset(s);
    var m :| 0 <= m < |s| && s[m] == t[j];
    var k :| 0 <= k < |t| && t[k] == s[i];
    assert i <= m && j <= k;
  }

  lemma {:induction false} OnePriorityLive(ops: seq<Op>, x: Handler, y: Handler)
    requires OnePriority(ops) && x in RunRegistry(ops).handlers && y in RunRegistry(ops).handlers
    requires x.ns == y.ns && x.fn == y.fn
    ensures x.priority == y.priority
  {
    LiveIsRegistered(ops, x);
    LiveIsRegistered(ops, y);
  }

  /** Live entries of one name have one priority. */
  ghost predicate OneEach(s: seq<Handler>) {
    forall x, y :: x in s && y in s && x.ns == y.ns && x.fn == y.fn ==> x.priority == y.priority
  }

  lemma {:induction false} SameStep(r: Registry, t: Registry, op: Op)
    requires RegistryOk(r) && RegistryOk(t) && !op.Dispatch?
    requires multiset(r.handlers) == multiset(t.handlers) && r.next == t.next && OneEach(r.handlers)
    ensures multiset(RegistryStep(r, op).handlers) == multiset(RegistryStep(t, op).handlers)
    ensures RegistryStep(r, op).next == RegistryStep(t, op).next
  {
    hide IndexOf, RegistryOk, OneEach;
    assert |r.handlers| == |multiset(t.handlers)| == |t.handlers|;
    if op.Unregister? {
      TiesOf(r);
      TiesOf(t);
      hide TiesInOrder;
      SameRemoval(r.handlers, t.handlers, op.ns, op.fn);
    }
  }

  lemma {:induction false} SameRemoval(s: seq<Handler>, t: seq<Handler>, ns: string, fn: nat)
    requires TiesInOrder(s) && TiesInOrder(t) && multiset(s) == multiset(t) && OneEach(s)
    ensures multiset(Removed(s, ns, fn)) == multiset(Removed(t, ns, fn))
  {
    hide *;
    SomeNamed(s, t, ns, fn);
    if IndexOf(s, ns, fn) < |s| {
      SameFirst(s, t, ns, fn);
      RemovedSame(s, t, ns, fn);
    } else {
      NoneRemoved(s, ns, fn);
      NoneRemoved(t, ns, fn);
    }
  }

  lemma {:induction false} TiesOf(r: Registry)
    requires RegistryOk(r)
    ensures TiesInOrder(r.handlers)
  {
  }

  /** When every name is registered with one priority, the live handlers do not
      depend on when dispatches sorted the array in between. */
  lemma {:induction false} LiveSetIgnoresDispatch(ops: seq<Op>)
    requires OnePriority(ops)
    ensures multiset(RunRegistry(ops).handlers) == multiset(RunRegistry(Undispatched(ops)).handlers)
    ensures RunRegistry(ops).next == RunRegistry(Undispatched(ops)).next
  {
    if ops != [] {
      var front, op := ops[..|ops| - 1], ops[|ops| - 1];
      assert OnePriority(front);
      LiveSetIgnoresDispatch(front);
      var r, t := RunRegistry(front), RunRegistry(Undispatched(front));
      RunRegistryOk(front);
      RunRegistryOk(Undispatched(front));
      if op.Dispatch? {
        ResortedOk(r);
        assert Undispatched(ops) == Undispatched(front);
      } else {
        assert OneEach(r.handlers) by {
          forall x, y | x in r.handlers && y in r.handlers && x.ns == y.ns && x.fn == y.fn
            ensures x.priority == y.priority
          {
            OnePriorityLive(front, x, y);
          }
        }
        SameStep(r, t, op);
        assert Undispatched(ops) == Undispatched(front) + [op];
        assert (Undispatched(front) + [op])[..|Undispatched(front)|] == Undispatched(front);
      }
    }
  }

  lemma {:induction false} RunMore(ops: seq<Op>, op: Op)
    ensures RunRegistry(ops + [op]) == RegistryStep(RunRegistry(ops), op)
    ensures Undispatched(ops + [op]) == Undispatched(ops) + if op.Dispatch? then [] else [op]
  {
    hide RegistryStep;
    assert (ops + [op])[..|ops|] == ops;
  }

  /** Two copies of one handler, the later one with the higher priority. */
  lemma {:induction false} TwoCopies() returns (ops: seq<Op>)
    ensures Undispatched(ops) == ops && !FirstIsHighest(RunRegistry(ops).handlers, "n", 0)
  {
    var a, b := Op.Register("n", None, 0, 0), Op.Register("n", None, 0, 1);
    ops := [] + [a] + [b];
    RunMore([], a);
    RunMore([] + [a], b);
    var s := RunRegistry(ops).handlers;
    assert s == [Handler("n", None, 0, 0, 0), Handler("n", None, 0, 1, 1)];
    assert IndexOf(s, "n", 0) == 0 && Names(s[1], "n", 0);
  }

  lemma {:induction false} DispatchSorts(r: Registry)
    ensures RegistryStep(r, Dispatch) == Resorted(r)
  {
    hide Resorted;
  }

  /** With two priorities it can matter: one dispatch changes which copy goes. */
  lemma {:induction false} DispatchChangesRemoval()
    ensures exists ops :: multiset(RunRegistry(ops).handlers) != multiset(RunRegistry(Undispatched(ops)).handlers)
  {
    hide *;
    var ops := TwoCopies();
    var remove := Op.Unregister("n", 0);
    var all := ops + [Dispatch] + [remove];
    RunRegistryOk(ops);
    RemovalIgnoresSortIff(RunRegistry(ops), "n", 0);
    RunMore(ops, Dispatch);
    RunMore(ops + [Dispatch], remove);
    RunMore(ops, remove);
    DispatchSorts(RunRegistry(ops));
    assert ops + [] == ops;
    assert Undispatched(all) == ops + [remove];
  }

  // -------------------------------------------------------------- imperative

  class HandlerRegistry {
    const handlers: array<Handler>
    var count: nat
    var sorted: bool
    var next: nat

    /** The array has its room; the sort keeps this halfway through. */
    ghost predicate Ready()
      reads this
    {
      handlers.Length == MAX_HANDLERS && count <= MAX_HANDLERS
    }

    /** Between calls: ties in registration order, and sorted if it says so. */
    ghost predicate Valid()
      reads this, handlers
    {
      Ready() && RegistryOk(View())
    }

    ghost function View(): Registry
      requires Ready()
      reads this, handlers
    {
      Registry(handlers[..count], sorted, next)
    }

    constructor ()
      ensures Valid() && fresh(handlers) && View() == Registry([], true, 0)
    {
      handlers := new Handler[MAX_HANDLERS](_ => Handler("", None, 0, 0, 0));
      count, sorted, next := 0, true, 0;
    }

    /** The inner loop of the sort: shift lower priorities up by one. */
    method ShiftUp(i: nat, key: Handler) returns (j: nat)
      requires Ready() && i < count
      modifies handlers
      ensures j <= i && (j > 0 ==> old(handlers[j - 1]).priority >= key.priority)
      ensures forall m :: j <= m < i ==> old(handlers[m]).priority < key.priority
      ensures forall m :: 0 <= m < j || i < m < count ==> handlers[m] == old(handlers[m])
      ensures forall m :: j < m <= i ==> handlers[m] == old(handlers[m - 1])
    {
      j := i;
      while j > 0 && handlers[j - 1].priority < key.priority
        invariant 0 <= j <= i
        invariant forall m :: 0 <= m < j || i < m < count ==> handlers[m] == old(handlers[m])
        invariant forall m :: j < m <= i ==> handlers[m] == old(handlers[m - 1])
        invariant forall m :: j <= m < i ==> old(handlers[m]).priority < key.priority
      {
        handlers[j] := handlers[j - 1];
        j := j - 1;
      }
    }

    /** One round of the sort: `handlers[i]` goes to its place in front. */
    method InsertAt(i: nat)
      requires Ready() && i < count
      modifies handlers
      ensures handlers[..i + 1] == Insert(old(handlers[..i]), old(handlers[i]))
      ensures forall m :: i < m < count ==> handlers[m] == old(handlers[m])
    {
      hide Insert;
      var key := handlers[i];
      ghost var s := handlers[..i];
      var j := ShiftUp(i, key);
      handlers[j] := key;
      InsertIs(s, key, j);
      assert handlers[..i + 1] == s[..j] + [key] + s[j..];
    }

    /** sort_handlers. */
    method SortHandlers()
      requires Ready()
      modifies this`sorted, handlers
      ensures Ready() && View() == Resorted(old(View()))
    {
      hide Sorted, Insert;
      if sorted {
        return;
      }
      InsertionSort();
      sorted := true;
    }

    /** The outer loop of the sort. */
    method InsertionSort()
      requires Ready()
      modifies handlers
      ensures handlers[..count] == Sorted(old(handlers[..count]))
    {
      ghost var was := handlers[..count];
      SortedOfOne(was);
      hide Sorted, Insert;
      var i := 1;
      while i < count
        invariant 1 <= i && (count == 0 || i <= count)
        invariant count > 0 ==> handlers[..i] == Sorted(was[..i])
        invariant forall m :: i <= m < count ==> handlers[m] == was[m]
      {
        InsertAt(i);
        assert handlers[..i + 1] == Sorted(was[..i + 1]) by {
          SortedStep(was, i);
        }
        i := i + 1;
      }
      if count > 0 {
        assert was[..i] == was;
      }
    }

    /** iq_handler_register of an entry with a handler and a namespace. */
    method RegisterHandler(ns: string, kind: Option<string>, fn: nat, priority: int) returns (ok: bool)
      requires Valid()
      modifies this, handlers
      ensures Valid() && View() == RegistryStep(old(View()), Op.Register(ns, kind, fn, priority))
      ensures ok <==> old(count) <= 63
    {
      RegistryStepOk(View(), Op.Register(ns, kind, fn, priority));
      if count >= MAX_HANDLERS {
        return false;
      }
      hide RegistryOk;
      handlers[count] := Handler(ns, kind, fn, priority, next);
      count, next, sorted := count + 1, next + 1, false;
      assert handlers[..count] == old(handlers[..count]) + [handlers[count - 1]];
      return true;
    }

    /** iq_handler_unregister: remove the first match by shifting. */
    method UnregisterHandler(ns: string, fn: nat)
      requires Valid()
      modifies this, handlers
      ensures Valid() && View() == RegistryStep(old(View()), Op.Unregister(ns, fn))
    {
      ghost var r := View();
      RegistryStepOk(r, Op.Unregister(ns, fn));
      UnregisterIs(r, ns, fn);
      hide RegistryStep, RegistryOk, Removed;
      var i := FindHandler(ns, fn);
      if i < count {
        RemovedAt(r.handlers, ns, fn);
        hide IndexOf;
        RemoveAt(i);
      }
    }

    method RemoveAt(i: nat)
      requires Ready() && i < count
      modifies this, handlers
      ensures Ready() && next == old(next) && !sorted
      ensures var was := old(handlers[..count]); handlers[..count] == was[..i] + was[i + 1..]
    {
      ghost var was := handlers[..count];
      ShiftDown(i);
      count := count - 1;
      sorted := false;
      ghost var left := was[..i] + was[i + 1..];
      assert forall k :: 0 <= k < count ==> handlers[k] == left[k];
    }

    method FindHandler(ns: string, fn: nat) returns (i: nat)
      requires Ready()
      ensures i == IndexOf(handlers[..count], ns, fn)
    {
      i := 0;
      while i < count && !(handlers[i].ns == ns && handlers[i].fn == fn)
        invariant i <= count
        invariant forall k :: 0 <= k < i ==> !(handlers[k].ns == ns && handlers[k].fn == fn)
      {
        i := i + 1;
      }
      ghost var s := handlers[..count];
      assert forall k :: 0 <= k < count ==> s[k] == handlers[k];
    }

    method ShiftDown(i: nat)
      requires Ready() && i < count
      modifies handlers
      ensures forall k :: 0 <= k < i ==> handlers[k] == old(handlers[k])
      ensures forall k :: i <= k < count - 1 ==> handlers[k] == old(handlers[k + 1])
    {
      var j := i;
      while j < count - 1
        invariant i <= j <= count - 1
        invariant forall k :: 0 <= k < i ==> handlers[k] == old(handlers[k])
        invariant forall k :: i <= k < j ==> handlers[k] == old(handlers[k + 1])
        invariant forall k :: j <= k < count ==> handlers[k] == old(handlers[k])
      {
        handlers[j] := handlers[j + 1];
        j := j + 1;
      }
    }

    /** handler_matches: a scan for token boundaries. */
    static method HandlerMatches(h: Handler, ns: string, kind: string) returns (yes: bool)
      ensures yes <==> Matches(h, ns, kind)
    {
      if h.ns != ns {
        return false;
      }
      if h.kind.None? {
        return true;
      }
      var p := h.kind.value;
      while p != ""
        invariant kind in Scanned(h.kind.value) <==> kind in Scanned(p)
        decreases |p|
      {
        var seg := Find(p, '|');
        if p[..seg] == kind {
          assert p[..seg] == Scanned(p)[0];
          return true;
        }
        if seg < |p| {
          assert Scanned(p) == [p[..seg]] + Scanned(p[seg + 1..]);
        }
        p := if seg < |p| then p[seg + 1..] else "";
      }
      return false;
    }

    /** iq_dispatch behind its namespace check: sort, then walk. `answer` is what
        each handler function returns; `missing` asks for feature-not-implemented. */
    method DispatchIq(ns: string, kind: string, answer: Handler -> int) returns (calls: seq<Handler>, missing: bool)
      requires Valid()
      modifies this`sorted, handlers
      ensures Valid() && View() == RegistryStep(old(View()), Dispatch)
      ensures InCallOrder(View().handlers) && multiset(View().handlers) == multiset(old(View()).handlers)
      ensures calls == Called(View().handlers, ns, kind, answer)
      ensures missing <==> forall h :: h in View().handlers && Matches(h, ns, kind) ==> answer(h) != 0 && answer(h) != 1
    {
      ResortedOk(View());
      hide Called, AnswersTo, Resorted, RegistryOk, InCallOrder;
      SortHandlers();
      calls, missing := Walk(ns, kind, answer);
      AnswersToIff(View().handlers, ns, kind, answer);
    }

    /** The loop over the handlers. */
    method Walk(ns: string, kind: string, answer: Handler -> int) returns (calls: seq<Handler>, missing: bool)
      requires Ready()
      ensures calls == Called(View().handlers, ns, kind, answer)
      ensures missing <==> !AnswersTo(View().handlers, ns, kind, answer)
    {
      hide Matches, Called;
      ghost var s := handlers[..count];
      calls := [];
      var i := 0;
      assert s[0..] == s;
      while i < count
        invariant i <= count
        invariant calls + Called(s[i..], ns, kind, answer) == Called(s, ns, kind, answer)
        invariant forall k :: 0 <= k < i ==> !(Matches(s[k], ns, kind) && Stops(answer(s[k])))
      {
        CalledStep(s, i, ns, kind, answer);
        ghost var later := Called(s[i + 1..], ns, kind, answer);
        var h := handlers[i];
        var m := HandlerMatches(h, ns, kind);
        if m {
          var result := answer(h);
          if result == IQ_HANDLED || result == IQ_ERROR {
            return calls + [h], false;
          }
          assert calls + ([h] + later) == (calls + [h]) + later;
          calls := calls + [h];
        }
        i := i + 1;
      }
      CalledNone(ns, kind, answer);
      assert s[i..] == [];
      return calls, true;
    }
  }

  lemma {:induction false} CalledNone(ns: string, kind: string, answer: Handler -> int)
    ensures Called([], ns, kind, answer) == []
  {
  }

  lemma {:induction false} CalledStep(s: seq<Handler>, i: nat, ns: string, kind: string, answer: Handler -> int)
    requires i < |s|
    ensures Called(s[i..], ns, kind, answer)
            == if !Matches(s[i], ns, kind) then Called(s[i + 1..], ns, kind, answer)
               else if Stops(answer(s[i])) then [s[i]]
               else [s[i]] + Called(s[i + 1..], ns, kind, answer)
  {
    hide Matches;
    assert s[i..][1..] == s[i + 1..];
  }

  /** Insertion puts `x` at the place where everything before has at least its
      priority and everything behind has less. */
  lemma {:induction false} InsertIs(s: seq<Handler>, x: Handler, j: nat)
    requires j <= |s| && (j > 0 ==> s[j - 1].priority >= x.priority)
    requires forall m :: j <= m < |s| ==> s[m].priority < x.priority
    ensures Insert(s, x) == s[..j] + [x] + s[j..]
  {
    if j == |s| {
      assert s[..j] == s && s[j..] == [];
    } else {
      var front := s[..|s| - 1];
      InsertIs(front, x, j);
      assert front[..j] == s[..j] && front[j..] + [s[|s| - 1]] == s[j..];
    }
  }

  lemma {:induction false} SortedOfOne(s: seq<Handler>)
    ensures s == [] ==> Sorted(s) == []
    ensures s != [] ==> Sorted(s[..1]) == s[..1]
  {
    if s != [] {
      assert s[..1][..0] == [];
    }
  }

  lemma {:induction false} SortedStep(s: seq<Handler>, i: nat)
    requires i < |s|
    ensures Sorted(s[..i + 1]) == Insert(Sorted(s[..i]), s[i])
  {
    assert s[..i + 1][..i] == s[..i];
  }
}
