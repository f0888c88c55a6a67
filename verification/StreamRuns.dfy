/** What every run of a connection keeps: the TLS gate, the order of
    negotiation, the authenticated identity, the budget of authentication
    attempts, the number of closing tags, and the bound JID. */
module StreamRuns {
  import opened Options
  import opened Jids
  import opened Base64
  import opened SaslPlain
  import opened Streams

  // ------------------------------------------------- the order of milestones

  /** How far the negotiation got, read off the milestones alone. */
  datatype Stage = Begun | Open | TlsAsked | Secure | Restarted | Waiting | Proved | Reopened | Finished

  /** The order RFC 6120 prescribes, with retries back to the TLS restart. */
  function NextStage(st: Stage, m: Milestone): Option<Stage> {
    match m
    case Opened => if st == Begun then Some(Open) else None
    case StartTls => if st == Open then Some(TlsAsked) else None
    case Handshook => if st == TlsAsked then Some(Secure) else None
    case RestartedTls => if st == Secure then Some(Restarted) else None
    case Challenged => if st == Restarted then Some(Waiting) else None
    case Refused => if st == Restarted || st == Waiting then Some(Secure) else None
    case Authenticated => if st == Restarted || st == Waiting then Some(Proved) else None
    case RestartedSasl => if st == Proved then Some(Reopened) else None
    case BoundTo => if st == Reopened then Some(Finished) else None
  }

  ghost function Scan(path: seq<Milestone>): Option<Stage> {
    if path == [] then Some(Begun) else
      match Scan(path[..|path| - 1])
      case None => None
      case Some(st) => NextStage(st, path[|path| - 1])
  }

  lemma {:induction false} ScanMore(path: seq<Milestone>, m: Milestone)
    ensures Scan(path + [m]) == match Scan(path) case None => None case Some(st) => NextStage(st, m)
  {
    assert (path + [m])[..|path|] == path;
  }

  /** A finished path starts with open, starttls, handshake and ends with
      authentication, restart, bind. */
  lemma {:induction false} FinishedPath(path: seq<Milestone>)
    requires Scan(path) == Some(Finished)
    ensures |path| >= 7 && path[..3] == [Opened, StartTls, Handshook] && path[3] == RestartedTls
    ensures path[|path| - 3..] == [Authenticated, RestartedSasl, BoundTo]
  {
    var n := |path|;
    var a := path[..n - 1];
    assert Scan(a) == Some(Reopened);
    var b := a[..n - 2];
    assert Scan(b) == Some(Proved);
    var c := b[..n - 3];
    assert c == path[..n - 3] && (Scan(c) == Some(Restarted) || Scan(c) == Some(Waiting));
    SecurePath(c);
    assert path[..n - 3] + path[n - 3..] == path;
  }

  lemma {:induction false} SecurePath(path: seq<Milestone>)
    requires Scan(path) in {Some(Secure), Some(Restarted), Some(Waiting)}
    ensures |path| >= 3 && path[..3] == [Opened, StartTls, Handshook]
    ensures Scan(path) != Some(Secure) || |path| > 3 ==> |path| > 3 && path[3] == RestartedTls
  {
    var n := |path|;
    var a := path[..n - 1];
    if path[n - 1] == Handshook {
      var b := path[..n - 2];
      assert a[..n - 2] == b && Scan(a) == Some(TlsAsked) && Scan(b) == Some(Open);
      assert b[..n - 3] == path[..n - 3] && Scan(path[..n - 3]) == Some(Begun);
      BegunPath(path[..n - 3]);
    } else {
      SecurePath(a);
      assert a[..3] == path[..3];
    }
  }

  lemma {:induction false} BegunPath(path: seq<Milestone>)
    requires Scan(path) == Some(Begun)
    ensures path == []
  {
  }

  // ------------------------------------------------------- session invariants

  predicate PlainPhase(p: Phase) {
    p.ConnectedTcp? || p.StreamOpened? || p.FeaturesReceived? || p.StarttlsSent? || Ending(p)
  }

  predicate SecurePhase(p: Phase) {
    p.TlsNegotiated? || p.RestartedPostTls? || p.FeaturesPostTls? || p.SaslNegotiating? || AuthedPhase(p) || Ending(p)
  }

  predicate AuthedPhase(p: Phase) {
    p.SaslSuccess? || p.RestartedPostSasl? || p.Bound? || p.Online?
  }

  /** The stage a phase stands for; an ended session may be at any stage. */
  predicate AtStage(p: Phase, st: Stage) {
    match p
    case ConnectedTcp => st == Begun
    case StreamOpened => st == Begun
    case FeaturesReceived => st == Open
    case StarttlsSent => st == TlsAsked
    case TlsNegotiated => st == Secure
    case RestartedPostTls => st == Secure
    case FeaturesPostTls => st == Restarted
    case SaslNegotiating => st == Waiting
    case SaslSuccess => st == Proved
    case RestartedPostSasl => st == Proved
    case Bound => st == Reopened
    case Online => st == Finished
    case Closing => true
    case Closed => true
    case _ => false
  }

  ghost predicate OnPath(s: Session) {
    Scan(s.history.path).Some? && AtStage(s.phase, Scan(s.history.path).value)
  }

  /** Before the handshake only plaintext phases, no authentication, and a
      pending STARTTLS is still served by the parser that saw it. */
  ghost predicate Gated(s: Session, secured: bool) {
    if secured then SecurePhase(s.phase) && !s.starttlsProceed
    else
      && PlainPhase(s.phase) && !s.parserReset
      && s.failedAuth == s.history.calls == 0 && s.boundJid == "" && !s.history.revived
      && (s.phase == StarttlsSent ==> s.starttlsProceed)
      && (s.starttlsProceed ==> s.parser != Fresh && (s.phase.StarttlsSent? || s.phase.Closing?)
                                && Scan(s.history.path) == Some(TlsAsked))
  }

  /** The identity is the one the successful call set. */
  predicate Identified(s: Session) {
    AuthedPhase(s.phase) ==> s.history.granted.Some? && Proves(s.history.granted.value, s.authcid)
  }

  /** At most two calls for each counted failure, and one more while a
      challenge is out. */
  predicate Budget(s: Session) {
    && s.history.retries <= s.failedAuth <= 3
    && s.history.calls <= 6
    && (s.failedAuth == 3 ==> Ending(s.phase))
    && (!Ending(s.phase) && !AuthedPhase(s.phase) ==>
          s.history.calls <= 2 * s.failedAuth + if s.phase == SaslNegotiating then 1 else 0)
  }

  predicate FewCloses(s: Session) {
    s.history.closes <= (if Ending(s.phase) then 1 else 0) + (if s.history.revived then 1 else 0) + s.history.smCloses
  }

  /** Names fit their fields, and a bound JID is the printed triple. */
  predicate Named(s: Session) {
    && |s.domain| < DOMAIN_BUF_SIZE
    && |s.authcid| < AUTHCID_BUF_SIZE && !HasForbidden(s.authcid)
    && |s.scramUser| < AUTHCID_BUF_SIZE && !HasForbidden(s.scramUser)
    && (s.phase.Bound? || s.phase.Online? || s.boundJid != "" ==>
          s.parser != Fresh && !s.parserReset && !s.starttlsProceed)
    && (s.phase.Online? ==> s.boundJid != "")
    && (s.boundJid != "" ==>
          && (s.phase.Bound? || s.phase.Online? || Ending(s.phase))
          && s.boundJid == JoinJid(s.authcid, s.domain, s.resource)
          && ValidResource(s.resource))
  }

  predicate AuthPhase(p: Phase) {
    p.FeaturesPostTls? || p.SaslNegotiating?
  }

  ghost predicate SessionOk(s: Session, secured: bool) {
    && (s.parser == Fresh ==> !s.parserReset) && OnPath(s) && Gated(s, secured) && Identified(s)
    && Budget(s) && FewCloses(s) && Named(s)
  }

  // ------------------------------------------------- one event keeps them all

  /** Moving to an end: at most one closing tag, and only from a phase that was
      not an end. */
  ghost predicate Ends(s: Session, s': Session) {
    && Ending(s'.phase)
    && s' == s.(phase := s'.phase, pendingError := s'.pendingError, history := s.history.(closes := s'.history.closes))
    && s.history.closes <= s'.history.closes <= s.history.closes + 1
    && (Ending(s.phase) ==> s'.history.closes == s.history.closes)
  }

  lemma {:induction false} EndOk(s: Session, s': Session, secured: bool)
    requires (s.parser == Fresh ==> !s.parserReset) && OnPath(s) && Gated(s, secured) && FewCloses(s) && Named(s)
    requires s.history.retries <= s.failedAuth <= 3 && s.history.calls <= 6
    requires Ends(s, s') && (s.starttlsProceed ==> s'.phase == Closing)
    ensures SessionOk(s', secured)
  {
    hide Scan, Proves, HasForbidden, ValidResource, JoinJid;
  }

  lemma {:induction false} ViolationEnds(s: Session, env: Env)
    ensures Ends(s, Violation(s, env)) && Violation(s, env).phase == Closing
    ensures Ends(s, StreamEnd(s, env)) || StreamEnd(s, env) == s
    ensures !Ending(s.phase) ==> Ends(s, FailureThen(s, Closing, env)) && Ends(s, FailureThen(s, Closed, env))
  {
  }

  lemma {:induction false} StreamErrorOk(s: Session, env: Env, secured: bool)
    requires SessionOk(s, secured)
    ensures SessionOk(StreamError(s, env), secured)
  {
    hide Scan, Proves, HasForbidden, ValidResource, JoinJid;
  }

  lemma {:induction false} StreamEndOk(s: Session, env: Env, secured: bool)
    requires SessionOk(s, secured) && s.parser == Inside
    ensures SessionOk(StreamEnd(s.(parser := Ended), env), secured)
  {
    hide Scan, Proves, HasForbidden, ValidResource, JoinJid;
  }

  lemma {:induction false} ParserStarts(s: Session, domain: string, secured: bool)
    requires SessionOk(s, secured) && s.parser == Fresh && |domain| < DOMAIN_BUF_SIZE
    ensures SessionOk(s.(parser := Inside, domain := domain), secured)
    ensures !s.starttlsProceed && s.boundJid == ""
  {
    hide Scan, Proves, HasForbidden, ValidResource, JoinJid;
  }

  /** The three stream starts: phase, transient, stable, milestone. */
  ghost predicate Start(s: Session, transient: Phase, stable: Phase, m: Milestone) {
    || (s.phase == ConnectedTcp && transient == StreamOpened && stable == FeaturesReceived && m == Opened)
    || (s.phase == TlsNegotiated && transient == RestartedPostTls && stable == FeaturesPostTls && m == RestartedTls)
    || (s.phase == SaslSuccess && transient == RestartedPostSasl && stable == Bound && m == RestartedSasl)
  }

  lemma {:induction false} TransientOk(s: Session, transient: Phase, stable: Phase, m: Milestone, secured: bool)
    requires SessionOk(s, secured) && !s.starttlsProceed && Start(s, transient, stable, m)
    ensures SessionOk(s.(phase := transient), secured)
  {
    hide Scan, Proves, HasForbidden, ValidResource, JoinJid;
  }

  lemma {:induction false} StableOk(s: Session, transient: Phase, stable: Phase, m: Milestone, secured: bool)
    requires SessionOk(s, secured) && !s.starttlsProceed && !s.parserReset && s.parser == Inside
    requires Start(s, transient, stable, m)
    ensures SessionOk(Marked(s, m).(phase := stable), secured)
  {
    hide Scan, Proves, HasForbidden, ValidResource, JoinJid;
    ScanMore(s.history.path, m);
  }

  lemma {:induction false} EnterOk(s: Session, transient: Phase, stable: Phase, m: Milestone, env: Env, secured: bool)
    requires SessionOk(s, secured) && !s.starttlsProceed && !s.parserReset && s.parser == Inside
    requires Start(s, transient, stable, m)
    ensures SessionOk(Enter(s, transient, stable, m, env), secured)
  {
    hide SessionOk;
    TransientOk(s, transient, stable, m, secured);
    PendingErrorOk(s.(phase := transient), secured);
    StableOk(s, transient, stable, m, secured);
  }

  lemma {:induction false} PendingErrorOk(s: Session, secured: bool)
    requires SessionOk(s, secured)
    ensures SessionOk(s.(pendingError := true), secured)
  {
    hide Scan, Proves, HasForbidden, ValidResource, JoinJid;
  }

  lemma {:induction false} StreamStartOk(s: Session, o: StreamOpen, env: Env, secured: bool)
    requires SessionOk(s, secured) && s.parser == Fresh
    ensures SessionOk(StreamStart(s.(parser := Inside), o, env), secured)
  {
    ParserStarts(s, s.domain, secured);
    ParserStarts(s, NewDomain(s.domain, o.to), secured);
    assert s.phase != StarttlsSent;
    hide ValidOpen, NewDomain, SessionOk, Enter, StreamError;
    var s' := s.(parser := Inside, domain := NewDomain(s.domain, o.to));
    StreamErrorOk(s.(parser := Inside), env, secured);
    PendingErrorOk(s', secured);
    match s.phase
    case ConnectedTcp => EnterOk(s', StreamOpened, FeaturesReceived, Opened, env, secured);
    case TlsNegotiated => EnterOk(s', RestartedPostTls, FeaturesPostTls, RestartedTls, env, secured);
    case SaslSuccess => EnterOk(s', RestartedPostSasl, Bound, RestartedSasl, env, secured);
    case _ =>
  }

  lemma {:induction false} ViolationOk(s: Session, env: Env, secured: bool)
    requires SessionOk(s, secured)
    ensures SessionOk(Violation(s, env), secured)
    ensures !Ending(s.phase) && !s.starttlsProceed ==>
              SessionOk(FailureThen(s, Closing, env), secured) && SessionOk(FailureThen(s, Closed, env), secured)
  {
    hide Scan, Proves, HasForbidden, ValidResource, JoinJid, Violation, FailureThen;
    ViolationEnds(s, env);
    EndOk(s, Violation(s, env), secured);
    if !Ending(s.phase) && !s.starttlsProceed {
      EndOk(s, FailureThen(s, Closing, env), secured);
      EndOk(s, FailureThen(s, Closed, env), secured);
    }
  }

  lemma {:induction false} StartTlsOk(s: Session, secured: bool)
    requires SessionOk(s, secured) && s.phase == FeaturesReceived && s.parser == Inside
    ensures !s.starttlsProceed
    ensures SessionOk(Marked(s, StartTls).(starttlsProceed := true, phase := StarttlsSent), secured)
  {
    hide Scan, Proves, HasForbidden, ValidResource, JoinJid;
    ScanMore(s.history.path, StartTls);
  }

  lemma {:induction false} BeforeTlsOk(s: Session, e: Element, env: Env, secured: bool)
    requires SessionOk(s, secured) && s.phase == FeaturesReceived && s.parser == Inside
    ensures SessionOk(BeforeTls(s, e, env), secured)
  {
    hide SessionOk, IsAuth, IsStarttls, InTlsNs, MechanismOf, Violation, FailureThen;
    StartTlsOk(s, secured);
    ViolationOk(s, env, secured);
  }

  /** The session right after a handler call in an authentication phase. */
  ghost predicate JustCalled(s: Session, s': Session) {
    && s' == Called(s).(authcid := s'.authcid, failedAuth := s'.failedAuth)
    && s.failedAuth <= s'.failedAuth <= s.failedAuth + 1
    && |s'.authcid| < AUTHCID_BUF_SIZE && !HasForbidden(s'.authcid)
  }

  lemma {:induction false} CallThenEnd(s: Session, s': Session, end: Session, secured: bool)
    requires SessionOk(s, secured) && AuthPhase(s.phase) && s.parser == Inside
    requires JustCalled(s, s') && Ends(s', end)
    ensures SessionOk(end, secured)
  {
    hide Scan, Proves, HasForbidden, ValidResource, JoinJid;
    EndOk(s', end, secured);
  }

  lemma {:induction false} CallThenSuccess(s: Session, s': Session, ev: Evidence, secured: bool)
    requires SessionOk(s, secured) && AuthPhase(s.phase) && s.parser == Inside
    requires JustCalled(s, s') && s'.failedAuth == s.failedAuth && Proves(ev, s'.authcid)
    ensures SessionOk(Success(s', ev), secured)
  {
    hide Scan, Proves, HasForbidden, ValidResource, JoinJid;
    ScanMore(s.history.path, Authenticated);
  }

  lemma {:induction false} CallThenRetry(s: Session, s': Session, secured: bool)
    requires SessionOk(s, secured) && AuthPhase(s.phase) && s.parser == Inside
    requires JustCalled(s, s') && s'.failedAuth == s.failedAuth
    ensures s.failedAuth + 1 < 3 ==> SessionOk(Retried(s'), secured)
    ensures forall end :: s.failedAuth + 1 >= 3 && Ends(Retried(s'), end) ==> SessionOk(end, secured)
  {
    hide Scan, Proves, HasForbidden, ValidResource, JoinJid;
    ScanMore(s.history.path, Refused);
    forall end | s.failedAuth + 1 >= 3 && Ends(Retried(s'), end)
      ensures SessionOk(end, secured)
    {
      EndOk(Retried(s'), end, secured);
    }
  }

  lemma {:induction false} AuthPlainOk(s: Session, text: CString, env: Env, secured: bool)
    requires SessionOk(s, secured) && AuthPhase(s.phase) && s.parser == Inside
    ensures SessionOk(AuthPlain(s, text, env), secured)
  {
    var o := PlainOutcome(env.users, s.domain, Decode(text));
    KeptAuthcidIsClean(env.users, s.domain, Decode(text));
    hide Scan, HasForbidden, ValidResource, JoinJid, PlainOutcome, Decode;
    var s' := Called(s).(authcid := if o.authcid.Some? then o.authcid.value else s.authcid);
    assert JustCalled(s, s');
    hide SessionOk, Violation, Success, Retried;
    match o.verdict
    case Granted => CallThenSuccess(s, s', ByPlain(env.users, s.domain, Decode(text)), secured);
    case Terminal =>
      ViolationEnds(s', env);
      CallThenEnd(s, s', Violation(s', env), secured);
    case Retry =>
      CallThenRetry(s, s', secured);
      ViolationEnds(Retried(s'), env);
  }

  lemma {:induction false} ChallengeOk(s: Session, user: CleanName, secured: bool)
    requires SessionOk(s, secured) && s.phase == FeaturesPostTls && s.parser == Inside
    ensures SessionOk(Marked(Called(s), Challenged).(phase := SaslNegotiating, scramUser := user), secured)
  {
    hide Scan, Proves, HasForbidden, ValidResource, JoinJid;
    ScanMore(s.history.path, Challenged);
  }

  lemma {:induction false} JustCalledScram(s: Session, secured: bool)
    requires SessionOk(s, secured)
    ensures JustCalled(s, Called(s))
    ensures JustCalled(s, Called(s).(failedAuth := s.failedAuth + 1))
    ensures JustCalled(s, Called(s).(authcid := Cut(s.scramUser, AUTHCID_BUF_SIZE)))
  {
    hide Scan, Proves, HasForbidden, ValidResource, JoinJid;
  }

  lemma {:induction false} AuthScramOk(s: Session, text: Option<CString>, env: Env, secured: bool)
    requires SessionOk(s, secured) && AuthPhase(s.phase) && s.parser == Inside
    ensures SessionOk(AuthScram(s, text, env), secured)
  {
    hide SessionOk, Violation, Success, Retried;
    var s' := Called(s);
    var failed := s'.(failedAuth := s.failedAuth + 1);
    var named := s'.(authcid := Cut(s.scramUser, AUTHCID_BUF_SIZE));
    JustCalledScram(s, secured);
    ViolationEnds(failed, env);
    CallThenEnd(s, failed, Violation(failed, env), secured);
    if Silent(text) {
    } else if s.phase != SaslNegotiating {
      if env.scramFirst.Challenge? {
        ChallengeOk(s, env.scramFirst.user, secured);
      }
    } else {
      match env.scramFinal
      case FinalGranted => CallThenSuccess(s, named, ByScram(s.scramUser), secured);
      case FinalTerminal =>
      case FinalRetry =>
        CallThenRetry(s, s', secured);
        assert Ends(Retried(s'), Retried(s').(phase := Closing));
    }
  }

  lemma {:induction false} AuthenticatingOk(s: Session, e: Element, env: Env, secured: bool)
    requires SessionOk(s, secured) && AuthPhase(s.phase) && s.parser == Inside
    ensures SessionOk(Authenticating(s, e, env), secured)
  {
    hide SessionOk, IsAuth, MechanismOf, AuthPlain, AuthScram, Violation, FailureThen;
    NoProceedInside(s, secured);
    ViolationOk(s, env, secured);
    PendingErrorOk(s, secured);
    match MechanismOf(e)
    case Plain =>
      if e.text.Some? {
        AuthPlainOk(s, e.text.value, env, secured);
      }
    case Scram => AuthScramOk(s, e.text, env, secured);
    case _ =>
  }

  lemma {:induction false} NoProceedInside(s: Session, secured: bool)
    requires SessionOk(s, secured) && AuthPhase(s.phase)
    ensures !s.starttlsProceed
  {
  }

  lemma {:induction false} StreamManagementOk(s: Session, e: Element, env: Env, secured: bool)
    requires SessionOk(s, secured)
    ensures SessionOk(StreamManagement(s, e, env), secured)
  {
    hide Scan, Proves, HasForbidden, ValidResource, JoinJid, SmElementOf;
  }

  lemma {:induction false} GeneratedIsValid(g: Generated)
    ensures ValidResource(g)
  {
    forall i | 0 <= i < |g|
      ensures !ForbiddenResourceChar(g[i])
    {
      HexIsAllowed(g[i]);
    }
  }

  lemma HexIsAllowed(c: char)
    requires c in "0123456789abcdef"
    ensures !ForbiddenResourceChar(c)
  {
  }

  /** The JID of a clean session prints without truncation. */
  lemma {:induction false} JidFits(authcid: string, domain: string, resource: string)
    requires |authcid| < AUTHCID_BUF_SIZE && |domain| < DOMAIN_BUF_SIZE && |resource| <= 1023
    ensures Cut(JoinJid(authcid, domain, resource), JID_BUF_SIZE) == JoinJid(authcid, domain, resource)
    ensures JoinJid(authcid, domain, resource) != ""
  {
  }

  lemma {:induction false} BoundAsOk(s: Session, resource: string, secured: bool)
    requires SessionOk(s, secured) && s.phase == Bound && ValidResource(resource)
    ensures SessionOk(BoundAs(s, resource), secured) && BoundAs(s, resource).boundJid != ""
  {
    JidFits(s.authcid, s.domain, resource);
    hide Scan, Proves, HasForbidden, ValidResource, JoinJid, Cut;
  }

  lemma {:induction false} OnlineOk(s: Session, secured: bool)
    requires SessionOk(s, secured) && s.phase == Bound && s.boundJid != ""
    ensures SessionOk(Marked(s, BoundTo).(phase := Online), secured)
  {
    ScanMore(s.history.path, BoundTo);
    hide Scan, Proves, HasForbidden, ValidResource, JoinJid;
  }

  lemma {:induction false} BindingOk(s: Session, e: Element, env: Env, secured: bool)
    requires SessionOk(s, secured) && s.phase == Bound
    ensures SessionOk(Binding(s, e, env), secured)
  {
    hide SessionOk, InSmNs, IsBindRequest, StreamManagement, Violation, Wanted, Cut, ValidResource, JoinJid;
    StreamManagementOk(s, e, env, secured);
    PendingErrorOk(s, secured);
    ViolationOk(s, env, secured);
    GeneratedIsValid(env.generated);
    var resource := if Wanted(e) != "" then Wanted(e) else env.generated;
    if ValidResource(resource) {
      ResourceUncut(resource);
      BoundAsOk(s, resource, secured);
      PendingErrorOk(BoundAs(s, resource), secured);
      OnlineOk(BoundAs(s, resource), secured);
    }
  }

  lemma {:induction false} ResourceUncut(r: string)
    requires ValidResource(r)
    ensures Cut(r, 1024) == r
  {
  }

  lemma {:induction false} HandleOk(s: Session, ev: ParserEvent, env: Env, secured: bool)
    requires SessionOk(s, secured)
    ensures SessionOk(Handle(s, ev, env), secured)
  {
    hide StreamStart, StreamEnd, BeforeTls, Authenticating, Binding, StreamManagement, IsStanza, InSmNs;
    if Emits(s.parser, ev) {
      match ev
      case OnOpen(o) => StreamStartOk(s, o, env, secured);
      case OnEnd => StreamEndOk(s, env, secured);
      case OnElement(e) => OnStanzaOk(s, e, env, secured);
    }
  }

  lemma {:induction false} OnStanzaOk(s: Session, e: Element, env: Env, secured: bool)
    requires SessionOk(s, secured) && s.parser == Inside
    ensures SessionOk(OnStanza(s, e, env), secured)
  {
    hide StreamStart, StreamEnd, BeforeTls, Authenticating, Binding, StreamManagement, IsStanza, InSmNs, SessionOk;
    match s.phase
    case FeaturesReceived => BeforeTlsOk(s, e, env, secured);
    case FeaturesPostTls => AuthenticatingOk(s, e, env, secured);
    case SaslNegotiating => AuthenticatingOk(s, e, env, secured);
    case Bound => BindingOk(s, e, env, secured);
    case Online => StreamManagementOk(s, e, env, secured);
    case _ =>
  }

  // -------------------------------------------------------- feeding and reading

  lemma {:induction false} PreparedOk(s: Session, secured: bool)
    requires SessionOk(s, secured) && !s.starttlsProceed
    ensures SessionOk(Prepared(s), secured)
  {
    hide Scan, Proves, HasForbidden, ValidResource, JoinJid;
  }

  lemma {:induction false} HandleAllOk(s: Session, evs: seq<(ParserEvent, Env)>, secured: bool)
    requires SessionOk(s, secured)
    ensures SessionOk(HandleAll(s, evs), secured)
  {
    hide SessionOk, Handle;
    if evs != [] {
      var (ev, env) := evs[|evs| - 1];
      HandleAllOk(s, evs[..|evs| - 1], secured);
      HandleOk(HandleAll(s, evs[..|evs| - 1]), ev, env, secured);
    }
  }

  lemma {:induction false} FeedOk(s: Session, c: Chunk, secured: bool)
    requires SessionOk(s, secured) && !s.starttlsProceed
    ensures SessionOk(Feed(s, c), secured)
  {
    hide SessionOk, HandleAll, Prepared, StreamError;
    PreparedOk(s, secured);
    HandleAllOk(Prepared(s), c.events, secured);
    StreamErrorOk(HandleAll(Prepared(s), c.events), c.env, secured);
  }

  /** On the TLS side no plaintext upgrade is ever pending. */
  lemma {:induction false} SecuredFeed(s: Session, c: Chunk)
    requires SessionOk(s, true)
    ensures SessionOk(Feed(s, c), true)
  {
    hide Scan, Proves, HasForbidden, ValidResource, JoinJid, Feed;
    FeedOk(s, c, true);
  }

  lemma {:induction false} FeedAllOk(s: Session, chunks: seq<Chunk>)
    requires SessionOk(s, true)
    ensures SessionOk(FeedAll(s, chunks), true)
  {
    hide SessionOk, Feed;
    if chunks != [] {
      FeedAllOk(s, chunks[..|chunks| - 1]);
      SecuredFeed(FeedAll(s, chunks[..|chunks| - 1]), chunks[|chunks| - 1]);
    }
  }

  /** A session whose STARTTLS has been taken over by the connection. */
  ghost predicate Upgrading(s: Session) {
    !s.starttlsProceed && SessionOk(s.(starttlsProceed := true), false)
  }

  /** The connection invariant: feeding is either plaintext before any upgrade,
      or decrypted after a finished handshake. */
  ghost predicate ConnOk(c: Conn) {
    if c.hsDone then c.isTls && SessionOk(c.session, true)
    else if c.isTls then Upgrading(c.session)
    else if c.open then SessionOk(c.session, false) && !c.session.starttlsProceed
    else SessionOk(c.session, false) || Upgrading(c.session)
  }

  lemma {:induction false} CloseConnOk(c: Conn, rest: seq<Chunk>)
    requires ConnOk(c)
    ensures ConnOk(CloseConn(c, rest))
  {
    hide SessionOk, FeedAll, Upgrading;
    if c.isTls && c.hsDone {
      FeedAllOk(c.session, rest);
    }
  }

  lemma {:induction false} DecryptedOk(c: Conn, chunks: seq<Chunk>, goodbye: bool, rest: seq<Chunk>)
    requires ConnOk(c) && c.hsDone
    ensures ConnOk(Decrypted(c, chunks, goodbye, rest))
    decreases |chunks|
  {
    hide SessionOk, Feed, Rejects, CloseConn, Upgrading;
    if chunks == [] {
      CloseConnOk(c, rest);
    } else {
      SecuredFeed(c.session, chunks[0]);
      var c' := c.(session := Feed(c.session, chunks[0]));
      CloseConnOk(c', rest);
      DecryptedOk(c', chunks[1..], goodbye, rest);
    }
  }

  lemma {:induction false} SecuredOk(c: Conn)
    requires ConnOk(c) && c.isTls && !c.hsDone
    ensures ConnOk(Secured(c))
  {
    hide Scan, Proves, HasForbidden, ValidResource, JoinJid;
    ScanMore(c.session.history.path, Handshook);
  }

  lemma {:induction false} PlainReadOk(c: Conn, chunk: Chunk, tlsReady: bool)
    requires ConnOk(c) && c.open && !c.isTls && !c.hsDone
    ensures ConnOk(PlainRead(c, chunk, tlsReady))
  {
    hide SessionOk, Feed, Rejects;
    FeedOk(c.session, chunk, false);
    var s := Feed(c.session, chunk);
    if s.starttlsProceed {
      assert s.(starttlsProceed := false).(starttlsProceed := true) == s;
    }
  }

  lemma {:induction false} StepOk(c: Conn, i: Input)
    requires ConnOk(c)
    ensures ConnOk(Step(c, i))
  {
    hide SessionOk, Upgrading, CloseConn, Decrypted, Secured, PlainRead;
    if c.open {
      CloseConnOk(c, i.rest);
      if i.Read? {
        if !c.isTls {
          PlainReadOk(c, i.plain, i.tlsReady);
        } else if c.hsDone {
          DecryptedOk(c, i.chunks, i.goodbye, i.rest);
        } else {
          SecuredOk(c);
          SecuredDone(c);
          DecryptedOk(Secured(c), i.chunks, i.goodbye, i.rest);
        }
      }
    }
  }

  lemma {:induction false} SecuredDone(c: Conn)
    ensures Secured(c).hsDone
  {
  }

  lemma {:induction false} RunConnOk(inputs: seq<Input>)
    ensures ConnOk(RunConn(inputs))
  {
    if inputs == [] {
      assert !HasForbidden("");
    } else {
      hide ConnOk, Step;
      RunConnOk(inputs[..|inputs| - 1]);
      StepOk(RunConn(inputs[..|inputs| - 1]), inputs[|inputs| - 1]);
    }
  }

  // ---------------------------------------------------------- main statements

  /** The authcid comes from a SCRAM exchange, or from a PLAIN message that
      named a known enabled account with exactly its password. */
  ghost predicate Accountable(s: Session) {
    match s.history.granted
    case None => false
    case Some(ByScram(user)) => s.authcid == Cut(user, AUTHCID_BUF_SIZE)
    case Some(ByPlain(users, domain, data)) =>
      exists authzid, authcid, passwd ::
        && Splits(data, authzid, authcid, passwd) && Admits(users, domain, authzid, authcid, passwd)
        && s.authcid == Cut(Text(authcid), AUTHCID_BUF_SIZE)
  }

  lemma {:induction false} IdentifiedIsAccountable(s: Session)
    requires Identified(s) && AuthedPhase(s.phase)
    ensures Accountable(s)
  {
    hide PlainOutcome, Splits, Admits, Text, Cut;
    match s.history.granted.value
    case ByScram(user) =>
    case ByPlain(users, domain, data) =>
      GrantedIff(users, domain, data);
      var authzid, authcid, passwd :|
        Splits(data, authzid, authcid, passwd) && Admits(users, domain, authzid, authcid, passwd);
  }

  /** In every run, the authcid of a session that PLAIN authenticated is the one
      in the message exactly when that has at most 1023 octets. */
  lemma {:induction false} IdentityIsExactIff(inputs: seq<Input>)
    ensures var s := RunConn(inputs).session;
            AuthedPhase(s.phase) && s.history.granted.Some? && s.history.granted.value.ByPlain? ==>
              forall authzid, authcid, passwd :: Splits(s.history.granted.value.data, authzid, authcid, passwd) ==>
                (s.authcid == Text(authcid) <==> |authcid| <= 1023)
  {
    hide RunConn, Scan, PlainOutcome, Splits, Text;
    RunConnOk(inputs);
    var s := RunConn(inputs).session;
    if AuthedPhase(s.phase) && s.history.granted.Some? && s.history.granted.value.ByPlain? {
      var ev := s.history.granted.value;
      forall authzid, authcid, passwd | Splits(ev.data, authzid, authcid, passwd)
        ensures s.authcid == Text(authcid) <==> |authcid| <= 1023
      {
        KeptAuthcidIff(ev.users, ev.domain, ev.data, authzid, authcid, passwd);
      }
    }
  }

  /** In every run, any phase from TLS_NEGOTIATED on implies a finished
      handshake, the authenticated phases imply that the identity is still the one
      a successful call set, and ONLINE is reached only by open, starttls,
      handshake, restart, authentication, restart, bind, in that order. */
  lemma {:induction false} NegotiationIsOrdered(inputs: seq<Input>)
    ensures var c := RunConn(inputs);
            && (!PlainPhase(c.session.phase) ==> c.hsDone && SecurePhase(c.session.phase))
            && (AuthedPhase(c.session.phase) ==> Accountable(c.session))
            && OnPath(c.session)
            && (c.session.phase == Online ==>
                  var path := c.session.history.path;
                  && |path| >= 7
                  && path[..4] == [Opened, StartTls, Handshook, RestartedTls]
                  && path[|path| - 3..] == [Authenticated, RestartedSasl, BoundTo])
  {
    hide RunConn, Scan, Accountable, Proves;
    RunConnOk(inputs);
    var c := RunConn(inputs);
    if AuthedPhase(c.session.phase) {
      IdentifiedIsAccountable(c.session);
    }
    if c.session.phase == Online {
      FinishedPath(c.session.history.path);
    }
  }

  /** Whatever a client sends, at most six handler calls are evaluated and at
      most three of them fail retryably, and after the third the session is
      ended for good: no input changes its history any more. */
  lemma {:induction false} AuthenticationIsBounded(inputs: seq<Input>)
    ensures var c := RunConn(inputs);
            var h := c.session.history;
            && h.calls <= 6 && h.retries <= 3
            && (h.calls > 0 ==> c.hsDone)
            && (h.retries == 3 ==>
                  Ending(c.session.phase) && forall i :: Step(c, i).session.history == h)
  {
    hide RunConn, Scan, Step;
    RunConnOk(inputs);
    var c := RunConn(inputs);
    if c.session.history.retries == 3 {
      assert Ending(c.session.phase) && c.hsDone;
      forall i ensures Step(c, i).session.history == c.session.history {
        EndingAbsorbsStep(c, i);
      }
    }
  }

  /** CLOSING and CLOSED are absorbing under one event: nothing is evaluated,
      no closing tag is written. */
  lemma {:induction false} EndingAbsorbsEvent(s: Session, ev: ParserEvent, env: Env)
    requires Ending(s.phase)
    ensures Handle(s, ev, env).phase == s.phase && Handle(s, ev, env).history == s.history
  {
    hide ValidOpen, NewDomain;
  }

  lemma {:induction false} EndingAbsorbsEvents(s: Session, evs: seq<(ParserEvent, Env)>)
    requires Ending(s.phase)
    ensures HandleAll(s, evs).phase == s.phase && HandleAll(s, evs).history == s.history
  {
    hide Handle;
    if evs != [] {
      EndingAbsorbsEvents(s, evs[..|evs| - 1]);
      EndingAbsorbsEvent(HandleAll(s, evs[..|evs| - 1]), evs[|evs| - 1].0, evs[|evs| - 1].1);
    }
  }

  /** CLOSING and CLOSED are absorbing under xmpp_feed. */
  lemma {:induction false} EndingAbsorbsFeed(s: Session, c: Chunk)
    requires Ending(s.phase)
    ensures Feed(s, c).phase == s.phase && Feed(s, c).history == s.history
  {
    hide HandleAll;
    EndingAbsorbsEvents(Prepared(s), c.events);
  }

  lemma {:induction false} EndingAbsorbsFeeds(s: Session, chunks: seq<Chunk>)
    requires Ending(s.phase)
    ensures FeedAll(s, chunks).phase == s.phase && FeedAll(s, chunks).history == s.history
  {
    hide Feed;
    if chunks != [] {
      EndingAbsorbsFeeds(s, chunks[..|chunks| - 1]);
      EndingAbsorbsFeed(FeedAll(s, chunks[..|chunks| - 1]), chunks[|chunks| - 1]);
    }
  }

  lemma {:induction false} EndingAbsorbsDecrypted(c: Conn, chunks: seq<Chunk>, goodbye: bool, rest: seq<Chunk>)
    requires Ending(c.session.phase)
    ensures var c' := Decrypted(c, chunks, goodbye, rest);
            c'.session.phase == c.session.phase && c'.session.history == c.session.history
    decreases |chunks|
  {
    hide Feed, Rejects, FeedAll;
    if chunks == [] {
      EndingAbsorbsFeeds(c.session, rest);
    } else {
      var c' := c.(session := Feed(c.session, chunks[0]));
      EndingAbsorbsFeed(c.session, chunks[0]);
      EndingAbsorbsFeeds(c'.session, rest);
      EndingAbsorbsDecrypted(c', chunks[1..], goodbye, rest);
    }
  }

  /** The handshake result is accepted whatever the phase is. */
  predicate Revivable(c: Conn) {
    c.open && c.isTls && !c.hsDone
  }

  lemma {:induction false} EndingAbsorbsStep(c: Conn, i: Input)
    requires Ending(c.session.phase) && !Revivable(c)
    ensures Step(c, i).session.phase == c.session.phase && Step(c, i).session.history == c.session.history
  {
    hide Feed, Rejects, FeedAll, Decrypted;
    if c.open {
      EndingAbsorbsFeeds(c.session, i.rest);
      if i.Read? {
        if !c.isTls {
          EndingAbsorbsFeed(c.session, i.plain);
        } else {
          EndingAbsorbsDecrypted(c, i.chunks, i.goodbye, i.rest);
        }
      }
    }
  }

  /** An ended session stays ended under every input, with nothing evaluated and
      no closing tag written, exactly when no handshake is outstanding on it. */
  lemma {:induction false} EndingIsAbsorbingIff(c: Conn)
    requires Ending(c.session.phase)
    ensures (forall i :: Step(c, i).session.phase == c.session.phase && Step(c, i).session.history == c.session.history)
            <==> !Revivable(c)
  {
    if Revivable(c) {
      var i := Read(Garbage, false, false, Done, [], false, []);
      assert Step(c, i) == Secured(c);
      assert Step(c, i).session.phase == TlsNegotiated;
    } else {
      forall i
        ensures Step(c, i).session.phase == c.session.phase && Step(c, i).session.history == c.session.history
      {
        EndingAbsorbsStep(c, i);
      }
    }
  }

  /** Over every run: at most one closing tag, plus one if a handshake completed
      on an already closed stream, plus one for each stream management error. */
  lemma {:induction false} ClosingTagsAreFew(inputs: seq<Input>)
    ensures var h := RunConn(inputs).session.history;
            h.closes <= 1 + (if h.revived then 1 else 0) + h.smCloses
  {
    hide RunConn, Scan;
    RunConnOk(inputs);
  }

  /** Every write succeeds, there is one account, and SCRAM challenges whoever
      asks and then refuses the proof. */
  const GoodEnv := Env(true, true, true, map["a@localhost" := User(Some([98]), false)],
                       Challenge("a"), FinalRetry, "00000000", false, true)
  const GoodOpen := StreamOpen("stream", "jabber:client", STREAM_NS, Some("1.0"), None)
  const AskTls := Element("starttls", Some(TLS_NS), None, None, None, None)
  const AskSm := Element("enable", Some(SM_NS), None, None, None, None)

  /** NUL a NUL b in base64: the account "a" with its password "b". */
  const CREDENTIALS: CString := "AGEAYg=="
  const AskPlain := Element("auth", None, None, Some("PLAIN"), Some(CREDENTIALS), None)

  /** A bind request for the resource "r". */
  const AskBind := Element("iq", None, Some("set"), None, None, Some(Some("r")))

  /** A SCRAM message; what the exchange answers to its text is in `GoodEnv`. */
  function AskScram(text: CString): Element {
    Element("auth", None, None, Some("SCRAM-SHA-256"), Some(text), None)
  }

  function Fed(events: seq<ParserEvent>): Chunk {
    Chunk(seq(|events|, i requires 0 <= i < |events| => (events[i], GoodEnv)), true, GoodEnv)
  }

  /** A buffer that does not parse. */
  const Garbage := Chunk([], false, GoodEnv)

  /** Input with that one buffer, on whichever path the connection reads. */
  const GarbageRead := Read(Garbage, false, false, Done, [Garbage], false, [])

  /** A buffer that does not parse is answered by a closing tag outside the
      ended phases. */
  lemma {:induction false} GarbageCloses(s: Session)
    requires !Ending(s.phase)
    ensures Feed(s, Garbage).history.closes == s.history.closes + 1
    ensures Rejects(s, Garbage)
  {
    assert HandleAll(Prepared(s), []) == Prepared(s);
  }

  /** Exactly when a connection can be made to write another closing tag: it is
      open and its stream has not ended, or a handshake is outstanding on it. */
  lemma {:induction false} FurtherTagIff(c: Conn)
    ensures (exists i :: Step(c, i).session.history.closes > c.session.history.closes)
            <==> (c.open && !Ending(c.session.phase)) || Revivable(c)
  {
    if (c.open && !Ending(c.session.phase)) || Revivable(c) {
      FurtherTag(c);
      assert Step(c, GarbageRead).session.history.closes > c.session.history.closes;
    } else if c.open {
      forall i ensures Step(c, i).session.history.closes == c.session.history.closes {
        EndingAbsorbsStep(c, i);
      }
    }
  }

  lemma {:induction false} FurtherTag(c: Conn)
    requires c.open && (!Ending(c.session.phase) || Revivable(c))
    ensures Step(c, GarbageRead).session.history.closes == c.session.history.closes + 1
  {
    assert [Garbage][1..] == [];
    var s := if Revivable(c) then Secured(c).session else c.session;
    assert !Ending(s.phase) && s.history.closes == c.session.history.closes;
    GarbageCloses(s);
    hide Feed, Rejects, Secured, Ending;
    assert FeedAll(Feed(s, Garbage), []) == Feed(s, Garbage);
  }

  /** In every run: a tag can follow a tag only if a handshake completed on a
      closed stream, is still outstanding on one, or stream management failed;
      and it can follow exactly if the connection is open and the stream has not
      ended or a handshake is outstanding. */
  lemma {:induction false} TagAfterTagIff(inputs: seq<Input>)
    ensures var c := RunConn(inputs);
            var h := c.session.history;
            var more := exists i :: Step(c, i).session.history.closes > h.closes;
            && (more <==> (c.open && !Ending(c.session.phase)) || Revivable(c))
            && (h.closes > 0 && more ==> h.revived || h.smCloses > 0 || Revivable(c))
  {
    hide RunConn, Scan, Step;
    RunConnOk(inputs);
    FurtherTagIff(RunConn(inputs));
  }

  // ------------------------------------------------------- runs with two tags

  lemma {:induction false} HandleAllMore(s: Session, evs: seq<(ParserEvent, Env)>, x: (ParserEvent, Env))
    ensures HandleAll(s, []) == s
    ensures HandleAll(s, evs + [x]) == Handle(HandleAll(s, evs), x.0, x.1)
  {
    hide Handle;
    assert (evs + [x])[..|evs|] == evs;
  }

  ghost function After(s: Session, ev: ParserEvent): Session {
    Handle(s, ev, GoodEnv)
  }

  /** Feeding events one after the other. */
  lemma {:induction false} FedMore(s: Session, events: seq<ParserEvent>, ev: ParserEvent)
    ensures HandleAll(s, Fed([]).events) == s
    ensures HandleAll(s, Fed(events + [ev]).events) == After(HandleAll(s, Fed(events).events), ev)
  {
    hide Handle;
    HandleAllMore(s, Fed(events).events, (ev, GoodEnv));
    assert Fed(events + [ev]).events == Fed(events).events + [(ev, GoodEnv)];
  }

  lemma {:induction false} FedFour(s: Session, a: ParserEvent, b: ParserEvent, c: ParserEvent, d: ParserEvent)
    ensures HandleAll(s, Fed([a, b]).events) == After(After(s, a), b)
    ensures HandleAll(s, Fed([a, b, c]).events) == After(After(After(s, a), b), c)
    ensures HandleAll(s, Fed([a, b, c, d]).events) == After(After(After(After(s, a), b), c), d)
  {
    hide HandleAll, After, Fed;
    assert [] + [a] == [a] && [a] + [b] == [a, b] && [a, b] + [c] == [a, b, c] && [a, b, c] + [d] == [a, b, c, d];
    FedMore(s, [], a);
    FedMore(s, [a], b);
    FedMore(s, [a, b], c);
    FedMore(s, [a, b, c], d);
  }

  lemma {:induction false} FedParses(events: seq<ParserEvent>)
    ensures Fed(events).wellFormed
  {
  }

  /** The fields a session keeps while it moves on without an error. */
  predicate SameSoFar(s: Session, s': Session) {
    && s'.pendingError == s.pendingError && s'.smEnabled == s.smEnabled
    && s'.history.closes == s.history.closes && s'.history.smCloses == s.history.smCloses
    && s'.history.revived == s.history.revived
  }

  predicate SameAttempts(s: Session, s': Session) {
    && s'.failedAuth == s.failedAuth
    && s'.history.calls == s.history.calls && s'.history.retries == s.history.retries
  }

  /** The domain of a header without `to`. */
  predicate Local(s: Session) {
    s.domain == "" || s.domain == "localhost"
  }

  lemma {:induction false} AfterOpen(s: Session)
    requires s.parser == Fresh && s.phase in {ConnectedTcp, TlsNegotiated, SaslSuccess} && Local(s)
    ensures var s' := After(s, OnOpen(GoodOpen));
            && s'.parser == Inside && SameSoFar(s, s') && SameAttempts(s, s')
            && s'.domain == "localhost" && s'.authcid == s.authcid
            && s'.phase == if s.phase == ConnectedTcp then FeaturesReceived
                           else if s.phase == TlsNegotiated then FeaturesPostTls else Bound
  {
  }

  lemma {:induction false} AfterStarttls(s: Session)
    requires s.parser == Inside && s.phase == FeaturesReceived
    ensures var s' := After(s, OnElement(AskTls));
            && s'.parser == Inside && SameSoFar(s, s') && SameAttempts(s, s') && s'.domain == s.domain
            && s'.phase == StarttlsSent && s'.starttlsProceed
  {
  }

  /** The one account logs in by PLAIN. */
  lemma {:induction false} AfterPlain(s: Session)
    requires s.parser == Inside && s.phase == FeaturesPostTls && s.domain == "localhost"
    ensures var s' := After(s, OnElement(AskPlain));
            && s'.parser == Inside && SameSoFar(s, s') && s'.domain == s.domain && s'.authcid == "a"
            && s'.phase == SaslSuccess && s'.parserReset
  {
    hide AuthPlain, AuthScram, Violation, FailureThen;
    assert After(s, OnElement(AskPlain)) == AuthPlain(s, CREDENTIALS, GoodEnv);
    PlainGranted(s);
  }

  lemma {:induction false} PlainGranted(s: Session)
    requires s.domain == "localhost"
    ensures var s' := AuthPlain(s, CREDENTIALS, GoodEnv);
            && s'.parser == s.parser && SameSoFar(s, s') && s'.domain == s.domain && s'.authcid == "a"
            && s'.phase == SaslSuccess && s'.parserReset
  {
    CredentialsDecode();
    CredentialsGranted();
    hide PlainOutcome, Decode, Violation, Retried;
  }

  lemma {:induction false} CredentialsDecode()
    ensures Decode(CREDENTIALS) == [0, 97, 0, 98]
  {
    hide Decode, Groups, Block, Encode;
    RoundTrip([0, 97, 0, 98]);
    VectorBlocks();
    EncodeFour(0, 97, 0, 98);
    assert Encode([0, 97, 0, 98]) == "AGEA" + "Yg==" == CREDENTIALS;
  }

  lemma {:induction false} EncodeFour(a: Octet, b: Octet, c: Octet, d: Octet)
    ensures Encode([a, b, c, d]) == Block(Groups([a, b, c])) + Block(Groups([d]))
  {
    var data := [a, b, c, d];
    assert Head(data) == [a, b, c] && Tail(data) == [d] && Head([d]) == [d] && Tail([d]) == [];
    hide Groups, Block, Encode, Head, Tail;
    EncodeStep(data);
    EncodeStep([d]);
    EncodeStep([]);
    assert Block(Groups([d])) + "" == Block(Groups([d]));
  }

  lemma {:induction false} CredentialsGranted()
    ensures PlainOutcome(GoodEnv.users, "localhost", [0, 97, 0, 98]) == Outcome(Granted, Some("a"))
  {
    var authzid: seq<Octet>, authcid: seq<Octet>, passwd: seq<Octet> := [], [97], [98];
    assert Splits([0, 97, 0, 98], authzid, authcid, passwd);
    assert Text(authcid) == "a" && AccountJid(authcid, "localhost") == "a@localhost";
    assert !HasForbidden("a") by { assert 'a' !in FORBIDDEN; }
    assert Admits(GoodEnv.users, "localhost", authzid, authcid, passwd);
    OutcomeMeans(GoodEnv.users, "localhost", [0, 97, 0, 98], authzid, authcid, passwd);
  }

  /** A SCRAM message is answered by the challenge, or its proof is refused. */
  lemma {:induction false} AfterScram(s: Session, text: CString)
    requires s.parser == Inside && (s.phase == FeaturesPostTls || s.phase == SaslNegotiating) && text != ""
    ensures var s' := After(s, OnElement(AskScram(text)));
            var refused := s.phase == SaslNegotiating;
            && s'.parser == Inside && SameSoFar(s, s') && s'.domain == s.domain
            && s'.history.calls == s.history.calls + 1
            && s'.failedAuth == s.failedAuth + (if refused then 1 else 0)
            && s'.history.retries == s.history.retries + (if refused then 1 else 0)
            && (!refused ==> s'.phase == SaslNegotiating)
            && (refused && s.failedAuth < 2 ==> s'.phase == TlsNegotiated && s'.parserReset)
  {
    hide Cut, AuthPlain, Violation, FailureThen, Success;
    assert After(s, OnElement(AskScram(text))) == AuthScram(s, Some(text), GoodEnv);
  }

  lemma {:induction false} AfterEnable(s: Session)
    requires s.parser == Inside && s.phase == Bound
    ensures var s' := After(s, OnElement(AskSm));
            && s'.parser == Inside && s'.phase == Bound && s'.smEnabled && s'.history.revived == s.history.revived
            && (!s.smEnabled ==> SameSoFar(s, s'.(smEnabled := false)))
            && (s.smEnabled ==> && s'.pendingError && s'.history.closes == s.history.closes + 1
                                && s'.history.smCloses == s.history.smCloses + 1)
  {
  }

  lemma {:induction false} AfterBind(s: Session)
    requires s.parser == Inside && s.phase == Bound && s.domain == "localhost" && s.authcid == "a"
    ensures var s' := After(s, OnElement(AskBind));
            && s'.phase == Online && SameSoFar(s, s') && s'.boundJid == "a@localhost/r"
            && BoundTo in s'.history.path
  {
    assert ValidResource("r") && Cut("r", 1024) == "r";
    assert JoinJid("a", "localhost", "r") == "a@localhost/r";
    hide StreamManagement, Violation, ValidResource;
    var s' := After(s, OnElement(AskBind));
    assert s'.history.path[|s.history.path|] == BoundTo;
  }

  lemma {:induction false} AfterEnd(s: Session)
    requires s.parser == Inside && !Ending(s.phase)
    ensures var s' := After(s, OnEnd);
            && s'.phase == Closing && s'.starttlsProceed == s.starttlsProceed && s'.pendingError == s.pendingError
            && s'.domain == s.domain && s'.history == s.history.(closes := s.history.closes + 1)
  {
  }

  /** Two reads: one in plaintext that starts TLS, one that completes the
      handshake and brings the buffers `chunks`. */
  lemma {:induction false} TwoReads(plain: Chunk, chunks: seq<Chunk>)
    ensures var i := Read(plain, true, false, WantMore, [], false, []);
            var j := Read(plain, true, false, Done, chunks, false, []);
            var s := Feed(InitialSession, plain);
            !Rejects(InitialSession, plain) && s.starttlsProceed ==>
              RunConn([i, j])
              == Decrypted(Secured(Conn(s.(starttlsProceed := false), true, false, true)), chunks, false, [])
  {
    var i, j := Read(plain, true, false, WantMore, [], false, []), Read(plain, true, false, Done, chunks, false, []);
    assert [i, j][..1] == [i] && [i][..0] == [];
    hide Feed, Rejects, Decrypted, Secured;
    assert RunConn([i]) == Step(InitialConn, i);
    assert RunConn([i, j]) == Step(Step(InitialConn, i), j);
  }

  /** Both extra terms are needed. A client that sends starttls and the closing
      tag in one segment, then shakes hands, restarts and closes again, is
      answered by two closing tags. */
  lemma {:induction false} SecondTagAfterRevival()
    ensures exists inputs ::
              var h := RunConn(inputs).session.history; h.closes == 2 && h.revived && h.smCloses == 0
  {
    var plain, again := Fed([OnOpen(GoodOpen), OnElement(AskTls), OnEnd]), Fed([OnOpen(GoodOpen), OnEnd]);
    var i, j := Read(plain, true, false, WantMore, [], false, []), Read(plain, true, false, Done, [again], false, []);
    StartAndClose(plain);
    TwoReads(plain, [again]);
    var c := Conn(Feed(InitialSession, plain).(starttlsProceed := false), true, false, true);
    SecondSegment(c, again);
    hide RunConn, Decrypted, Secured, Feed;
    assert RunConn([i, j]) == Decrypted(Secured(c), [again], false, []);
  }

  lemma {:induction false} StartAndClose(plain: Chunk)
    requires plain == Fed([OnOpen(GoodOpen), OnElement(AskTls), OnEnd])
    ensures !Rejects(InitialSession, plain)
    ensures var s := Feed(InitialSession, plain);
            s.phase == Closing && s.starttlsProceed && s.history.closes == 1 && s.history.smCloses == 0 && Local(s)
  {
    var s0 := Prepared(InitialSession);
    hide HandleAll, Fed, After;
    FedFour(s0, OnOpen(GoodOpen), OnElement(AskTls), OnEnd, OnEnd);
    FedParses([OnOpen(GoodOpen), OnElement(AskTls), OnEnd]);
    AfterOpen(s0);
    AfterStarttls(After(s0, OnOpen(GoodOpen)));
    AfterEnd(After(After(s0, OnOpen(GoodOpen)), OnElement(AskTls)));
  }

  lemma {:induction false} SecondSegment(c: Conn, again: Chunk)
    requires again == Fed([OnOpen(GoodOpen), OnEnd])
    requires Revivable(c) && c.session.phase == Closing && Local(c.session)
    ensures var c' := Decrypted(Secured(c), [again], false, []);
            && c'.session.history.closes == c.session.history.closes + 1
            && c'.session.history.revived && c'.session.history.smCloses == c.session.history.smCloses
  {
    var s0 := Prepared(Secured(c).session);
    hide HandleAll, Fed, After;
    FedFour(s0, OnOpen(GoodOpen), OnEnd, OnEnd, OnEnd);
    FedParses([OnOpen(GoodOpen), OnEnd]);
    assert [again][1..] == [];
    AfterOpen(s0);
    AfterEnd(After(s0, OnOpen(GoodOpen)));
  }

  /** A session after the handshake, before anything else happened to it. */
  predicate JustSecured(s: Session) {
    && s.phase == TlsNegotiated && s.parserReset && Local(s) && !s.smEnabled && !s.starttlsProceed
    && s.failedAuth == s.history.calls == s.history.retries == 0
    && s.history.closes == s.history.smCloses == 0 && !s.history.revived
  }

  /** A new connection that asks for TLS, completes the handshake and brings the
      buffers `chunks`. */
  lemma {:induction false} SecureRun(chunks: seq<Chunk>) returns (inputs: seq<Input>, c: Conn)
    ensures RunConn(inputs) == Decrypted(c, chunks, false, [])
    ensures c.open && JustSecured(c.session)
  {
    var plain := Fed([OnOpen(GoodOpen), OnElement(AskTls)]);
    hide RunConn, Secured, Feed, Rejects, Decrypted, Fed;
    StartOnly(plain);
    TwoReads(plain, chunks);
    var asked := Conn(Feed(InitialSession, plain).(starttlsProceed := false), true, false, true);
    SecuredSession(asked);
    inputs := [Read(plain, true, false, WantMore, [], false, []), Read(plain, true, false, Done, chunks, false, [])];
    c := Secured(asked);
  }

  lemma {:induction false} StartOnly(plain: Chunk)
    requires plain == Fed([OnOpen(GoodOpen), OnElement(AskTls)])
    ensures !Rejects(InitialSession, plain)
    ensures var s := Feed(InitialSession, plain);
            && s.phase == StarttlsSent && s.starttlsProceed && Local(s)
            && SameSoFar(InitialSession, s) && SameAttempts(InitialSession, s)
  {
    var s0 := Prepared(InitialSession);
    hide HandleAll, Fed, After;
    FedFour(s0, OnOpen(GoodOpen), OnElement(AskTls), OnEnd, OnEnd);
    FedParses([OnOpen(GoodOpen), OnElement(AskTls)]);
    AfterOpen(s0);
    AfterStarttls(After(s0, OnOpen(GoodOpen)));
  }

  lemma {:induction false} SecuredSession(c: Conn)
    requires c.session.phase == StarttlsSent && Local(c.session) && !c.session.starttlsProceed && c.open
    requires SameSoFar(InitialSession, c.session) && SameAttempts(InitialSession, c.session)
    ensures Secured(c).open && JustSecured(Secured(c).session)
  {
  }

  lemma {:induction false} TwoBuffers(c: Conn, a: Chunk, b: Chunk)
    requires !Rejects(c.session, a)
    ensures Decrypted(c, [a, b], false, []).session == Feed(Feed(c.session, a), b)
  {
    hide Feed, Rejects;
    assert [a, b][1..] == [b];
    OneBuffer(c.(session := Feed(c.session, a)), b);
  }

  lemma {:induction false} OneBuffer(c: Conn, a: Chunk)
    ensures Decrypted(c, [a], false, []).session == Feed(c.session, a)
  {
    hide Feed, Rejects;
    assert [a][1..] == [];
    assert FeedAll(Feed(c.session, a), []) == Feed(c.session, a);
  }

  /** The buffer that logs in by PLAIN. */
  lemma {:induction false} LoginSegment(s: Session, login: Chunk)
    requires login == Fed([OnOpen(GoodOpen), OnElement(AskPlain)]) && JustSecured(s)
    ensures !Rejects(s, login)
    ensures var s' := Feed(s, login);
            && s'.phase == SaslSuccess && s'.parserReset && s'.domain == "localhost" && s'.authcid == "a"
            && !s'.smEnabled && s'.history.closes == s'.history.smCloses == 0 && !s'.history.revived
  {
    var s0 := Prepared(s);
    hide HandleAll, Fed, After;
    FedFour(s0, OnOpen(GoodOpen), OnElement(AskPlain), OnEnd, OnEnd);
    FedParses([OnOpen(GoodOpen), OnElement(AskPlain)]);
    AfterOpen(s0);
    AfterPlain(After(s0, OnOpen(GoodOpen)));
  }

  /** A stream management error writes its closing tag and stays in the phase.
      A client that logs in, enables stream management twice and closes is
      answered by two closing tags. */
  lemma {:induction false} SecondTagAfterSmError()
    ensures exists inputs ::
              var h := RunConn(inputs).session.history; h.closes == 2 && !h.revived && h.smCloses == 1
  {
    var login := Fed([OnOpen(GoodOpen), OnElement(AskPlain)]);
    var twice := Fed([OnOpen(GoodOpen), OnElement(AskSm), OnElement(AskSm), OnEnd]);
    hide RunConn, Feed, Rejects, Decrypted, Fed;
    var inputs, c := SecureRun([login, twice]);
    LoginSegment(c.session, login);
    SmSegment(Feed(c.session, login), twice);
    TwoBuffers(c, login, twice);
    assert RunConn(inputs).session.history == Feed(Feed(c.session, login), twice).history;
  }

  lemma {:induction false} SmSegment(s: Session, twice: Chunk)
    requires twice == Fed([OnOpen(GoodOpen), OnElement(AskSm), OnElement(AskSm), OnEnd])
    requires s.phase == SaslSuccess && s.parserReset && Local(s) && !s.smEnabled
    requires s.history.closes == s.history.smCloses == 0
    ensures var h := Feed(s, twice).history; h.closes == 2 && h.smCloses == 1 && h.revived == s.history.revived
  {
    var s0, open, sm := Prepared(s), OnOpen(GoodOpen), OnElement(AskSm);
    hide HandleAll, Fed, After;
    FedFour(s0, open, sm, sm, OnEnd);
    FedParses([open, sm, sm, OnEnd]);
    var s1 := After(s0, open);
    var s2 := After(s1, sm);
    AfterOpen(s0);
    AfterEnable(s1);
    AfterEnable(s2);
    AfterEnd(After(s2, sm));
  }

  /** A client that logs in and binds is online under its JID. */
  lemma {:induction false} OnlineHappens() returns (inputs: seq<Input>)
    ensures var s := RunConn(inputs).session;
            s.phase == Online && s.boundJid == "a@localhost/r" && BoundTo in s.history.path
  {
    var login, bind := Fed([OnOpen(GoodOpen), OnElement(AskPlain)]), Fed([OnOpen(GoodOpen), OnElement(AskBind)]);
    hide RunConn, Feed, Rejects, Decrypted, Fed;
    var c;
    inputs, c := SecureRun([login, bind]);
    LoginSegment(c.session, login);
    BindSegment(Feed(c.session, login), bind);
    TwoBuffers(c, login, bind);
  }

  lemma {:induction false} BindSegment(s: Session, bind: Chunk)
    requires bind == Fed([OnOpen(GoodOpen), OnElement(AskBind)])
    requires s.phase == SaslSuccess && s.parserReset && s.domain == "localhost" && s.authcid == "a"
    ensures var s' := Feed(s, bind);
            s'.phase == Online && s'.boundJid == "a@localhost/r" && BoundTo in s'.history.path
  {
    var s0 := Prepared(s);
    hide HandleAll, Fed, After;
    FedFour(s0, OnOpen(GoodOpen), OnElement(AskBind), OnEnd, OnEnd);
    FedParses([OnOpen(GoodOpen), OnElement(AskBind)]);
    AfterOpen(s0);
    AfterBind(After(s0, OnOpen(GoodOpen)));
  }

  /** The budget of attempts is used up: three SCRAM exchanges, each with a
      challenge and a refused proof, are six calls and three retries. */
  lemma {:induction false} SixCallsHappen(first: CString, final: CString)
    requires first != "" && final != ""
    ensures exists inputs :: var h := RunConn(inputs).session.history; h.calls == 6 && h.retries == 3
  {
    var try := Fed([OnOpen(GoodOpen), OnElement(AskScram(first)), OnElement(AskScram(final))]);
    hide RunConn, Feed, Rejects, Decrypted, Fed;
    var inputs, c := SecureRun([try, try, try]);
    var s := c.session;
    TrySegment(s, try, first, final);
    TrySegment(Feed(s, try), try, first, final);
    TrySegment(Feed(Feed(s, try), try), try, first, final);
    ThreeBuffers(c, try, try, try);
    assert RunConn(inputs).session.history == Feed(Feed(Feed(s, try), try), try).history;
  }

  lemma {:induction false} ThreeBuffers(c: Conn, a: Chunk, b: Chunk, d: Chunk)
    requires !Rejects(c.session, a) && !Rejects(Feed(c.session, a), b)
    ensures Decrypted(c, [a, b, d], false, []).session == Feed(Feed(Feed(c.session, a), b), d)
  {
    hide Feed, Rejects;
    assert [a, b, d][1..] == [b, d];
    TwoBuffers(c.(session := Feed(c.session, a)), b, d);
  }

  lemma {:induction false} TrySegment(s: Session, try: Chunk, first: CString, final: CString)
    requires first != "" && final != ""
    requires try == Fed([OnOpen(GoodOpen), OnElement(AskScram(first)), OnElement(AskScram(final))])
    requires s.phase == TlsNegotiated && s.parserReset && Local(s) && s.failedAuth < 3
    ensures !Rejects(s, try)
    ensures var s' := Feed(s, try);
            && s'.failedAuth == s.failedAuth + 1 && Local(s')
            && s'.history.calls == s.history.calls + 2 && s'.history.retries == s.history.retries + 1
            && (s.failedAuth < 2 ==> s'.phase == TlsNegotiated && s'.parserReset)
  {
    var s0, open := Prepared(s), OnOpen(GoodOpen);
    var x, y := OnElement(AskScram(first)), OnElement(AskScram(final));
    hide HandleAll, Fed, After;
    FedFour(s0, open, x, y, OnEnd);
    FedParses([open, x, y]);
    var s1 := After(s0, open);
    AfterOpen(s0);
    AfterScram(s1, first);
    AfterScram(After(s1, x), final);
  }

  // ------------------------------------------------------- bound once and for all

  /** The session was online at some time. */
  predicate Settled(s: Session) {
    BoundTo in s.history.path && s.boundJid != ""
  }

  /** Nothing follows a bind. */
  lemma {:induction false} BindIsLast(path: seq<Milestone>)
    requires Scan(path).Some? && BoundTo in path
    ensures Scan(path) == Some(Finished)
  {
    var front, last := path[..|path| - 1], path[|path| - 1];
    assert path == front + [last];
    if last != BoundTo {
      BindIsLast(front);
    }
  }

  lemma {:induction false} SettledPhase(s: Session, secured: bool)
    requires SessionOk(s, secured) && Settled(s)
    ensures (s.phase == Online || Ending(s.phase)) && secured
    ensures s.parser != Fresh && !s.parserReset && !s.starttlsProceed
  {
    BindIsLast(s.history.path);
    hide Scan, Proves, HasForbidden, ValidResource, JoinJid;
  }

  /** The same session for whoever asks for its address. */
  predicate SameAddress(s: Session, s': Session) {
    Settled(s') && s'.boundJid == s.boundJid
  }

  lemma {:induction false} HandleKeepsAddress(s: Session, ev: ParserEvent, env: Env)
    requires SessionOk(s, true) && Settled(s)
    ensures SameAddress(s, Handle(s, ev, env))
  {
    SettledPhase(s, true);
    hide SessionOk, SmElementOf, IsStanza, InSmNs;
  }

  lemma {:induction false} HandleAllKeepsAddress(s: Session, evs: seq<(ParserEvent, Env)>)
    requires SessionOk(s, true) && Settled(s)
    ensures SameAddress(s, HandleAll(s, evs))
  {
    hide SessionOk, Handle, Settled;
    if evs != [] {
      var front := evs[..|evs| - 1];
      var (ev, env) := evs[|evs| - 1];
      HandleAllKeepsAddress(s, front);
      HandleAllOk(s, front, true);
      HandleKeepsAddress(HandleAll(s, front), ev, env);
    }
  }

  lemma {:induction false} FeedKeepsAddress(s: Session, c: Chunk)
    requires SessionOk(s, true) && Settled(s)
    ensures SameAddress(s, Feed(s, c))
  {
    SettledPhase(s, true);
    PreparedOk(s, true);
    hide SessionOk, HandleAll;
    HandleAllKeepsAddress(Prepared(s), c.events);
  }

  lemma {:induction false} FeedAllKeepsAddress(s: Session, chunks: seq<Chunk>)
    requires SessionOk(s, true) && Settled(s)
    ensures SameAddress(s, FeedAll(s, chunks))
  {
    hide SessionOk, Feed, Settled;
    if chunks != [] {
      var front := chunks[..|chunks| - 1];
      FeedAllKeepsAddress(s, front);
      FeedAllOk(s, front);
      FeedKeepsAddress(FeedAll(s, front), chunks[|chunks| - 1]);
    }
  }

  lemma {:induction false} DecryptedKeepsAddress(c: Conn, chunks: seq<Chunk>, goodbye: bool, rest: seq<Chunk>)
    requires SessionOk(c.session, true) && Settled(c.session)
    ensures SameAddress(c.session, Decrypted(c, chunks, goodbye, rest).session)
    decreases |chunks|
  {
    hide SessionOk, Feed, Rejects, FeedAll, Settled;
    FeedAllKeepsAddress(c.session, rest);
    if chunks != [] {
      var c' := c.(session := Feed(c.session, chunks[0]));
      FeedKeepsAddress(c.session, chunks[0]);
      SecuredFeed(c.session, chunks[0]);
      FeedAllKeepsAddress(c'.session, rest);
      DecryptedKeepsAddress(c', chunks[1..], goodbye, rest);
    }
  }

  /** A settled session stands behind a finished handshake. */
  lemma {:induction false} SettledIsSecured(c: Conn)
    requires ConnOk(c) && Settled(c.session)
    ensures c.isTls && c.hsDone && SessionOk(c.session, true)
  {
    hide Scan, Proves, HasForbidden, ValidResource, JoinJid;
  }

  /** Once a connection was online its JID never changes, whatever it reads. */
  lemma {:induction false} StepKeepsAddress(c: Conn, i: Input)
    requires ConnOk(c) && Settled(c.session)
    ensures SameAddress(c.session, Step(c, i).session)
  {
    SettledIsSecured(c);
    hide SessionOk, FeedAll, Decrypted, Settled;
    FeedAllKeepsAddress(c.session, i.rest);
    if i.Read? {
      DecryptedKeepsAddress(c, i.chunks, i.goodbye, i.rest);
    }
  }

  /** Being online is being settled. */
  lemma {:induction false} OnlineIsSettled(c: Conn)
    requires ConnOk(c) && c.session.phase == Online
    ensures Settled(c.session)
  {
    hide Proves, HasForbidden, ValidResource, JoinJid;
    FinishedPath(c.session.history.path);
    var path := c.session.history.path;
    assert path[|path| - 3..][2] == path[|path| - 1];
  }

  /** A settled session went through the whole negotiation. */
  lemma {:induction false} SettledPath(c: Conn)
    requires ConnOk(c) && Settled(c.session)
    ensures var path := c.session.history.path;
            && |path| >= 7 && path[..4] == [Opened, StartTls, Handshook, RestartedTls]
            && path[|path| - 3..] == [Authenticated, RestartedSasl, BoundTo]
    ensures |c.session.boundJid| < JID_BUF_SIZE
  {
    SettledIsSecured(c);
    BindIsLast(c.session.history.path);
    FinishedPath(c.session.history.path);
    JidFits(c.session.authcid, c.session.domain, c.session.resource);
    hide Scan, Proves, HasForbidden;
  }

  /** In every reachable session the bound JID is authcid@domain/resource
      without truncation; stripping it gives back authcid@domain exactly when
      the domain the client named holds no '/'. */
  lemma {:induction false} BoundJidIsExact(inputs: seq<Input>)
    ensures var s := RunConn(inputs).session;
            s.boundJid != "" ==>
              && s.boundJid == s.authcid + "@" + s.domain + "/" + s.resource
              && |s.boundJid| < JID_BUF_SIZE
              && ValidResource(s.resource)
              && (Bare(s.boundJid) == s.authcid + "@" + s.domain <==> '/' !in s.domain)
  {
    hide RunConn, Scan;
    RunConnOk(inputs);
    var s := RunConn(inputs).session;
    if s.boundJid != "" {
      BoundIsNamed(RunConn(inputs));
      CleanHasNoSlash(s.authcid);
      BareOfBoundJid(s.authcid, s.domain, s.resource);
    }
  }

  lemma {:induction false} BoundIsNamed(c: Conn)
    requires ConnOk(c)
    ensures Named(c.session.(starttlsProceed := false))
  {
    hide Scan, Proves, HasForbidden, ValidResource, JoinJid;
  }

  lemma {:induction false} CleanHasNoSlash(s: string)
    requires !HasForbidden(s)
    ensures '/' !in s
  {
    assert FORBIDDEN[3] == '/';
    forall i | 0 <= i < |s|
      ensures s[i] != '/'
    {
      assert s[i] !in FORBIDDEN;
    }
  }
}
