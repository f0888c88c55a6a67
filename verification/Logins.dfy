/** Nobody is logged in without a message that proves it: over every run of a
    connection, an authenticated stream points to the very events it read. */
module Logins {
  import opened Options
  import opened Jids
  import opened Base64
  import opened SaslPlain
  import opened Streams
  import opened StreamRuns
  import opened StreamSteps

  /** An event of the parser with its surroundings. */
  type Seen = (ParserEvent, Env)

  // ----------------------------------------------------------- which events count

  predicate IsLogin(x: Seen, mechanism: string) {
    && x.0.OnElement? && x.0.element.name == "auth" && x.0.element.mechanism == Some(mechanism)
    && x.0.element.text.Some?
  }

  /** PLAIN credentials that are granted for this account table and domain. */
  ghost predicate GrantsPlain(x: Seen, users: Users, domain: string, data: seq<Octet>) {
    && IsLogin(x, "PLAIN") && users == x.1.users && data == Decode(x.0.element.text.value)
    && PlainOutcome(users, domain, data).verdict == Granted
  }

  /** A SCRAM answer that is granted. */
  predicate GrantsScram(x: Seen) {
    IsLogin(x, "SCRAM-SHA-256") && x.0.element.text.value != "" && x.1.scramFinal == FinalGranted
  }

  /** A first SCRAM message that is challenged under this name. */
  predicate Challenges(x: Seen, user: string) {
    && IsLogin(x, "SCRAM-SHA-256") && x.0.element.text.value != ""
    && x.1.scramFirst.Challenge? && x.1.scramFirst.user == user
  }

  ghost predicate HasPlain(seen: iset<Seen>, users: Users, domain: string, data: seq<Octet>) {
    exists x :: x in seen && GrantsPlain(x, users, domain, data)
  }

  ghost predicate HasScram(seen: iset<Seen>, user: string) {
    (exists x :: x in seen && GrantsScram(x)) && HasChallenge(seen, user)
  }

  ghost predicate HasChallenge(seen: iset<Seen>, user: string) {
    exists x :: x in seen && Challenges(x, user)
  }

  ghost predicate Supported(seen: iset<Seen>, granted: Option<Evidence>) {
    match granted
    case None => false
    case Some(ByPlain(users, domain, data)) => HasPlain(seen, users, domain, data)
    case Some(ByScram(user)) => HasScram(seen, user)
  }

  /** The evidence of an authenticated stream, and the challenge of one that waits
      for an answer, are among the events seen. */
  ghost predicate Justified(s: Session, seen: iset<Seen>) {
    && (AuthedPhase(s.phase) ==> Supported(seen, s.history.granted))
    && (s.phase == SaslNegotiating ==> HasChallenge(seen, s.scramUser))
  }

  // ------------------------------------------------------------------- one event

  /** Outside the login phases nothing about the login changes. */
  lemma {:induction false} OutsideLogin(s: Session, ev: ParserEvent, env: Env)
    requires s.phase != FeaturesPostTls && s.phase != SaslNegotiating
    ensures var s' := Handle(s, ev, env);
            && (AuthedPhase(s'.phase) ==> AuthedPhase(s.phase) && s'.history.granted == s.history.granted)
            && s'.phase != SaslNegotiating
  {
    if Emits(s.parser, ev) {
      match ev
      case OnOpen(o) => OpenKeeps(s.(parser := Inside), o, env);
      case OnElement(e) => ElementKeeps(s, e, env);
      case OnEnd => EndKeeps(s.(parser := Ended), env);
    }
    hide StreamStart, StreamEnd, OnStanza;
  }

  lemma {:induction false} OpenKeeps(s: Session, o: StreamOpen, env: Env)
    ensures var s' := StreamStart(s, o, env);
            && (AuthedPhase(s'.phase) ==> AuthedPhase(s.phase)) && s'.history.granted == s.history.granted
            && (s'.phase == SaslNegotiating ==> s.phase == SaslNegotiating) && s'.scramUser == s.scramUser
  {
    hide ValidOpen, NewDomain, StreamError, Started;
    ErrorKeeps(s, env);
    StartedKeeps(s.(domain := NewDomain(s.domain, o.to)), env);
  }

  lemma {:induction false} ErrorKeeps(s: Session, env: Env)
    ensures var s' := StreamError(s, env);
            && (s'.phase == s.phase || s'.phase == Closing) && s'.history.granted == s.history.granted
            && s'.scramUser == s.scramUser
    ensures Violation(s, env).phase == Closing && Violation(s, env).history.granted == s.history.granted
  {
  }

  lemma {:induction false} StartedKeeps(s: Session, env: Env)
    ensures var s' := Started(s, env);
            && (AuthedPhase(s'.phase) ==> AuthedPhase(s.phase)) && s'.history.granted == s.history.granted
            && (s'.phase == SaslNegotiating ==> s.phase == SaslNegotiating) && s'.scramUser == s.scramUser
  {
    hide Enter;
    match s.phase
    case ConnectedTcp => EnterKeeps(s, StreamOpened, FeaturesReceived, Opened, env);
    case TlsNegotiated => EnterKeeps(s, RestartedPostTls, FeaturesPostTls, RestartedTls, env);
    case StarttlsSent => EnterKeeps(s, RestartedPostTls, FeaturesPostTls, RestartedTls, env);
    case SaslSuccess => EnterKeeps(s, RestartedPostSasl, Bound, RestartedSasl, env);
    case _ =>
  }

  lemma {:induction false} EnterKeeps(s: Session, transient: Phase, stable: Phase, m: Milestone, env: Env)
    ensures var s' := Enter(s, transient, stable, m, env);
            && (s'.phase == stable || s'.phase == transient) && s'.history.granted == s.history.granted
            && s'.scramUser == s.scramUser
  {
    hide Marked;
    MarkedKeepsLogin(s, m);
  }

  lemma {:induction false} MarkedKeepsLogin(s: Session, m: Milestone)
    ensures Marked(s, m).history.granted == s.history.granted && Marked(s, m).scramUser == s.scramUser
  {
  }

  lemma {:induction false} EndKeeps(s: Session, env: Env)
    ensures var s' := StreamEnd(s, env); s'.phase == s.phase || s'.phase == Closing
    ensures StreamEnd(s, env).history.granted == s.history.granted
  {
  }

  lemma {:induction false} ElementKeeps(s: Session, e: Element, env: Env)
    requires s.phase != FeaturesPostTls && s.phase != SaslNegotiating
    ensures var s' := OnStanza(s, e, env);
            && (AuthedPhase(s'.phase) ==> AuthedPhase(s.phase) && s'.history.granted == s.history.granted)
            && s'.phase != SaslNegotiating
  {
    hide BeforeTls, Binding, StreamManagement, IsStanza, InSmNs;
    SmKeepsLogin(s, e, env);
    match s.phase
    case FeaturesReceived => BeforeTlsIsNoLogin(s, e, env);
    case Bound => BindingKeeps(s, e, env);
    case Online =>
    case _ =>
  }

  lemma {:induction false} BeforeTlsIsNoLogin(s: Session, e: Element, env: Env)
    ensures BeforeTls(s, e, env).phase in {Closing, Closed, StarttlsSent}
  {
    hide IsAuth, IsStarttls, InTlsNs, MechanismOf, Violation;
    ErrorKeeps(s, env);
  }

  lemma {:induction false} SmKeepsLogin(s: Session, e: Element, env: Env)
    ensures var s' := StreamManagement(s, e, env); s'.phase == s.phase && s'.history.granted == s.history.granted
  {
    hide SmElementOf;
  }

  lemma {:induction false} BindingKeeps(s: Session, e: Element, env: Env)
    requires s.phase == Bound
    ensures var s' := Binding(s, e, env);
            s'.phase in {Bound, Online, Closing} && s'.history.granted == s.history.granted
  {
    hide InSmNs, IsBindRequest, Wanted, ValidResource, Cut, StreamManagement, Violation, JoinJid;
    SmKeepsLogin(s, e, env);
    ErrorKeeps(s, env);
  }

  lemma {:induction false} EventOutside(s: Session, ev: ParserEvent, env: Env)
    requires s.phase == FeaturesPostTls || s.phase == SaslNegotiating
    requires !ev.OnElement? || s.parser != Inside
    ensures var s' := Handle(s, ev, env);
            && !AuthedPhase(s'.phase) && (s'.phase == SaslNegotiating ==> s.phase == SaslNegotiating)
            && s'.scramUser == s.scramUser
  {
    hide StreamStart;
    if Emits(s.parser, ev) && ev.OnOpen? {
      OpenKeeps(s.(parser := Inside), ev.open, env);
    }
  }

  /** What a successful login records. */
  lemma {:induction false} PlainRecords(s: Session, text: CString, env: Env)
    requires s.phase == FeaturesPostTls || s.phase == SaslNegotiating
    ensures var s' := AuthPlain(s, text, env);
            && s'.phase != SaslNegotiating
            && (AuthedPhase(s'.phase) ==>
                  && s'.history.granted == Some(ByPlain(env.users, s.domain, Decode(text)))
                  && PlainOutcome(env.users, s.domain, Decode(text)).verdict == Granted)
  {
    hide PlainOutcome, Decode;
  }

  lemma {:induction false} ScramRecords(s: Session, text: Option<CString>, env: Env)
    requires s.phase == FeaturesPostTls || s.phase == SaslNegotiating
    ensures var s' := AuthScram(s, text, env);
            && (s'.phase == SaslNegotiating ==>
                  && s.phase == FeaturesPostTls && !Silent(text)
                  && env.scramFirst.Challenge? && s'.scramUser == env.scramFirst.user)
            && (AuthedPhase(s'.phase) ==>
                  && s.phase == SaslNegotiating && !Silent(text) && env.scramFinal == FinalGranted
                  && s'.history.granted == Some(ByScram(s.scramUser)))
  {
    hide Cut;
  }

  lemma {:induction false} LoginJustified(s: Session, e: Element, env: Env, seen: iset<Seen>)
    requires s.parser == Inside && (s.phase == FeaturesPostTls || s.phase == SaslNegotiating)
    requires Justified(s, seen) && (OnElement(e), env) in seen
    ensures Justified(Handle(s, OnElement(e), env), seen)
  {
    hide Handle, Violation, AuthScram, AuthPlain, FailureThen, PlainOutcome, Decode;
    LoginHandler(s, e, env);
    EndsThere(s, env);
    var x := (OnElement(e), env);
    if e.name == "auth" && e.mechanism == Some("SCRAM-SHA-256") {
      ScramRecords(s, e.text, env);
      if !Silent(e.text) {
        assert env.scramFinal == FinalGranted ==> GrantsScram(x);
        assert env.scramFirst.Challenge? ==> Challenges(x, env.scramFirst.user);
      }
    } else if e.name == "auth" && e.mechanism == Some("PLAIN") && e.text.Some? {
      PlainRecords(s, e.text.value, env);
      var data := Decode(e.text.value);
      assert PlainOutcome(env.users, s.domain, data).verdict == Granted ==> GrantsPlain(x, env.users, s.domain, data);
    }
  }

  lemma {:induction false} EndsThere(s: Session, env: Env)
    ensures Violation(s, env).phase == Closing && FailureThen(s, Closed, env).phase == Closed
  {
  }

  lemma {:induction false} HandleJustified(s: Session, ev: ParserEvent, env: Env, seen: iset<Seen>)
    requires Justified(s, seen) && (ev, env) in seen
    ensures Justified(Handle(s, ev, env), seen)
  {
    hide Handle, Supported, HasChallenge;
    if s.phase != FeaturesPostTls && s.phase != SaslNegotiating {
      OutsideLogin(s, ev, env);
    } else if ev.OnElement? && s.parser == Inside {
      LoginJustified(s, ev.element, env, seen);
    } else {
      EventOutside(s, ev, env);
    }
  }

  // --------------------------------------------------------------------- all of it

  ghost predicate Within(c: Chunk, seen: iset<Seen>) {
    forall x :: x in c.events ==> x in seen
  }

  ghost predicate AllWithin(chunks: seq<Chunk>, seen: iset<Seen>) {
    forall c :: c in chunks ==> Within(c, seen)
  }

  ghost predicate InputWithin(i: Input, seen: iset<Seen>) {
    && AllWithin(i.rest, seen)
    && (i.Read? ==> Within(i.plain, seen) && AllWithin(i.chunks, seen))
  }

  lemma {:induction false} EventsJustified(s: Session, evs: seq<Seen>, seen: iset<Seen>)
    requires Justified(s, seen) && forall x :: x in evs ==> x in seen
    ensures Justified(HandleAll(s, evs), seen)
  {
    hide Handle, Justified;
    if evs != [] {
      var x := evs[|evs| - 1];
      assert x in evs && x == (x.0, x.1);
      EventsJustified(s, evs[..|evs| - 1], seen);
      HandleJustified(HandleAll(s, evs[..|evs| - 1]), x.0, x.1, seen);
    }
  }

  lemma {:induction false} FeedJustified(s: Session, c: Chunk, seen: iset<Seen>)
    requires Justified(s, seen) && Within(c, seen)
    ensures Justified(Feed(s, c), seen)
  {
    hide HandleAll, Supported, HasChallenge;
    EventsJustified(Prepared(s), c.events, seen);
  }

  lemma {:induction false} FeedAllJustified(s: Session, chunks: seq<Chunk>, seen: iset<Seen>)
    requires Justified(s, seen) && AllWithin(chunks, seen)
    ensures Justified(FeedAll(s, chunks), seen)
  {
    hide Feed, Justified, Within;
    if chunks != [] {
      assert chunks[|chunks| - 1] in chunks;
      FeedAllJustified(s, chunks[..|chunks| - 1], seen);
      FeedJustified(FeedAll(s, chunks[..|chunks| - 1]), chunks[|chunks| - 1], seen);
    }
  }

  lemma {:induction false} DecryptedJustified(c: Conn, chunks: seq<Chunk>, goodbye: bool, rest: seq<Chunk>,
                                              seen: iset<Seen>)
    requires Justified(c.session, seen) && AllWithin(chunks, seen) && AllWithin(rest, seen)
    ensures Justified(Decrypted(c, chunks, goodbye, rest).session, seen)
    decreases |chunks|
  {
    hide Feed, FeedAll, Rejects, Justified, Within;
    FeedAllJustified(c.session, rest, seen);
    if chunks != [] {
      assert chunks[0] in chunks;
      var c' := c.(session := Feed(c.session, chunks[0]));
      FeedJustified(c.session, chunks[0], seen);
      FeedAllJustified(c'.session, rest, seen);
      DecryptedJustified(c', chunks[1..], goodbye, rest, seen);
    }
  }

  lemma {:induction false} SecuredJustified(c: Conn, seen: iset<Seen>)
    ensures Justified(Secured(c).session, seen)
  {
  }

  lemma {:induction false} StepJustified(c: Conn, i: Input, seen: iset<Seen>)
    requires Justified(c.session, seen) && InputWithin(i, seen)
    ensures Justified(Step(c, i).session, seen)
  {
    hide Feed, FeedAll, Rejects, Decrypted, Secured, Supported, HasChallenge, Within, AllWithin;
    FeedAllJustified(c.session, i.rest, seen);
    if i.Read? {
      FeedJustified(c.session, i.plain, seen);
      SecuredJustified(c, seen);
      DecryptedJustified(c, i.chunks, i.goodbye, i.rest, seen);
      DecryptedJustified(Secured(c), i.chunks, i.goodbye, i.rest, seen);
    }
  }

  /** The event was read in one of the inputs. */
  ghost predicate Happened(inputs: seq<Input>, x: Seen) {
    exists i :: i in inputs && InInput(i, x)
  }

  ghost predicate InInput(i: Input, x: Seen) {
    || (exists c :: c in i.rest && x in c.events)
    || (i.Read? && (x in i.plain.events || exists c :: c in i.chunks && x in c.events))
  }

  lemma {:induction false} InputIsWithin(i: Input, seen: iset<Seen>)
    requires forall x :: InInput(i, x) ==> x in seen
    ensures InputWithin(i, seen)
  {
    forall c | c in i.rest ensures Within(c, seen) {
      forall x | x in c.events ensures x in seen { assert InInput(i, x); }
    }
    if i.Read? {
      forall x | x in i.plain.events ensures x in seen { assert InInput(i, x); }
      forall c | c in i.chunks ensures Within(c, seen) {
        forall x | x in c.events ensures x in seen { assert InInput(i, x); }
      }
    }
  }

  lemma {:induction false} RunJustified(inputs: seq<Input>, seen: iset<Seen>)
    requires forall i :: i in inputs ==> InputWithin(i, seen)
    ensures Justified(RunConn(inputs).session, seen)
  {
    hide InputWithin, Step;
    if inputs != [] {
      var front, i := inputs[..|inputs| - 1], inputs[|inputs| - 1];
      assert i in inputs;
      RunJustified(front, seen);
      hide Justified;
      StepJustified(RunConn(front), i, seen);
    }
  }

  /** The messages read prove this login. */
  ghost predicate Evidenced(inputs: seq<Input>, granted: Option<Evidence>) {
    match granted
    case None => false
    case Some(ByPlain(users, domain, data)) =>
      exists x :: Happened(inputs, x) && GrantsPlain(x, users, domain, data)
    case Some(ByScram(user)) =>
      && (exists x :: Happened(inputs, x) && GrantsScram(x))
      && (exists x :: Happened(inputs, x) && Challenges(x, user))
  }

  /** In every run, a stream that is authenticated by PLAIN read credentials that
      are granted with the account table of that moment, and a stream that is
      authenticated by SCRAM read a granted answer and a first message challenged
      under its name. */
  lemma {:induction false} LoginIsEvidenced(inputs: seq<Input>)
    ensures var s := RunConn(inputs).session;
            AuthedPhase(s.phase) ==> Evidenced(inputs, s.history.granted)
  {
    var seen := iset x: Seen | Happened(inputs, x);
    forall i | i in inputs ensures InputWithin(i, seen) {
      forall x | InInput(i, x) ensures x in seen { assert Happened(inputs, x); }
      InputIsWithin(i, seen);
    }
    hide RunConn, InputWithin, Happened, GrantsPlain, GrantsScram, Challenges;
    RunJustified(inputs, seen);
  }

  /** A run in which no SCRAM answer is granted authenticates by PLAIN or not at
      all, and one in which no PLAIN credentials are granted either, not at all. */
  lemma {:induction false} NoGrantNoLogin(inputs: seq<Input>)
    requires forall x :: Happened(inputs, x) ==> x.1.scramFinal != FinalGranted
    ensures var s := RunConn(inputs).session;
            && (AuthedPhase(s.phase) ==> s.history.granted.Some? && s.history.granted.value.ByPlain?)
            && ((forall x, domain :: Happened(inputs, x) && IsLogin(x, "PLAIN") ==>
                   PlainOutcome(x.1.users, domain, Decode(x.0.element.text.value)).verdict != Granted)
                ==> !AuthedPhase(s.phase))
  {
    hide RunConn, Happened, PlainOutcome, Decode;
    LoginIsEvidenced(inputs);
  }
}
