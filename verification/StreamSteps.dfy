/** Stream negotiation step by step, in the names and values of the wire: which
    element in which phase leads where, what it writes and what it counts. */
module StreamSteps {
  import opened Options
  import opened Jids
  import opened Base64
  import opened SaslPlain
  import opened Streams

  /** Closing tags and the pending error after an event, against before. */
  predicate Writes(s: Session, s': Session, tag: bool, error: bool) {
    && s'.history.closes == s.history.closes + (if tag then 1 else 0)
    && (s'.pendingError <==> s.pendingError || error)
  }

  /** A parser instance reports one opening first, then elements, then one end;
      the session never sees anything else. */
  lemma {:induction false} ParserFilters(s: Session, ev: ParserEvent, env: Env)
    requires if ev.OnOpen? then s.parser != Fresh else s.parser != Inside
    ensures Handle(s, ev, env) == s
  {
  }

  /** Before TLS only a starttls element in its namespace goes on. A login attempt
      ends in CLOSED, or in CLOSING if it is by PLAIN; everything else ends in
      CLOSING. */
  lemma {:induction false} BeforeTlsIff(s: Session, e: Element, env: Env)
    requires s.parser == Inside && s.phase == FeaturesReceived
    ensures var s' := Handle(s, OnElement(e), env);
            var good := e.name == "starttls" && e.ns == Some("urn:ietf:params:xml:ns:xmpp-tls");
            && (s'.phase == StarttlsSent <==> good)
            && (s'.phase == Closed <==> e.name == "auth" && e.mechanism != Some("PLAIN"))
            && (s'.phase == Closing <==> !good && (e.name != "auth" || e.mechanism == Some("PLAIN")))
            && (s'.starttlsProceed <==> s.starttlsProceed || good)
            && Writes(s, s', !good && env.closing, !good)
            && s'.failedAuth == s.failedAuth && s'.history.calls == s.history.calls
  {
    hide BeforeTls;
    assert Handle(s, OnElement(e), env) == BeforeTls(s, e, env);
    BeforeTlsCases(s, e, env);
  }

  lemma {:induction false} BeforeTlsCases(s: Session, e: Element, env: Env)
    requires s.phase == FeaturesReceived
    ensures var s' := BeforeTls(s, e, env);
            var good := e.name == "starttls" && e.ns == Some("urn:ietf:params:xml:ns:xmpp-tls");
            && (s'.phase == StarttlsSent <==> good)
            && (s'.phase == Closed <==> e.name == "auth" && e.mechanism != Some("PLAIN"))
            && (s'.phase == Closing <==> !good && (e.name != "auth" || e.mechanism == Some("PLAIN")))
            && (s'.starttlsProceed <==> s.starttlsProceed || good)
            && Writes(s, s', !good && env.closing, !good)
            && s'.failedAuth == s.failedAuth && s'.history.calls == s.history.calls
  {
  }

  // ----------------------------------------------------------------- logging in

  /** What an event does to a session, as far as logging in is concerned. */
  datatype Effect = Effect(phase: Phase, calls: int, retries: int, failures: int, tags: int, error: bool,
                           authcid: string, scramUser: string)

  ghost function EffectOf(s: Session, s': Session): Effect {
    Effect(s'.phase, s'.history.calls - s.history.calls, s'.history.retries - s.history.retries,
           s'.failedAuth - s.failedAuth, s'.history.closes - s.history.closes, s'.pendingError,
           s'.authcid, s'.scramUser)
  }

  ghost function Nothing(s: Session): Effect {
    Effect(s.phase, 0, 0, 0, 0, s.pendingError, s.authcid, s.scramUser)
  }

  /** A stream error: CLOSING, with a tag if it can be written. */
  ghost function Broken(s: Session, env: Env): Effect {
    Nothing(s).(phase := Closing, tags := if env.closing then 1 else 0, error := true)
  }

  /** SCRAM: a message without text, a first message that is not challenged and an
      answer that is not accepted end the stream and count as failures; a refused
      proof allows another try, up to the third, which closes without a tag. */
  ghost function ScramEffect(s: Session, text: Option<CString>, env: Env): Effect {
    var failed := Broken(s, env).(calls := 1, failures := 1);
    if text == None || text == Some("") then failed
    else if s.phase == FeaturesPostTls then
      match env.scramFirst
      case Challenge(user) => Nothing(s).(phase := SaslNegotiating, calls := 1, scramUser := user)
      case FirstTerminal => failed
    else
      match env.scramFinal
      case FinalGranted => Nothing(s).(phase := SaslSuccess, calls := 1, authcid := Cut(s.scramUser, 1024))
      case FinalRetry =>
        Nothing(s).(phase := if s.failedAuth >= 2 then Closing else TlsNegotiated,
                    calls := 1, retries := 1, failures := 1)
      case FinalTerminal => failed
  }

  /** PLAIN: the name is kept as the handler left it; a refused password allows
      another try, and the third is a stream error. */
  ghost function PlainEffect(s: Session, text: CString, env: Env): Effect {
    var o := PlainOutcome(env.users, s.domain, Decode(text));
    var kept := match o.authcid case Some(name) => name case None => s.authcid;
    match o.verdict
    case Granted => Nothing(s).(phase := SaslSuccess, calls := 1, authcid := kept)
    case Terminal => Broken(s, env).(calls := 1, authcid := kept)
    case Retry =>
      if s.failedAuth >= 2 then Broken(s, env).(calls := 1, retries := 1, failures := 1, authcid := kept)
      else Nothing(s).(phase := TlsNegotiated, calls := 1, retries := 1, failures := 1, authcid := kept)
  }

  /** Anything but a login attempt is a stream error; a mechanism that is missing
      or not offered ends in CLOSED; PLAIN without text only leaves an error. */
  ghost function LoginEffect(s: Session, e: Element, env: Env): Effect {
    if e.name != "auth" then Broken(s, env)
    else if e.mechanism == Some("SCRAM-SHA-256") then ScramEffect(s, e.text, env)
    else if e.mechanism != Some("PLAIN") then Broken(s, env).(phase := Closed)
    else match e.text
      case None => Nothing(s).(error := true)
      case Some(text) => PlainEffect(s, text, env)
  }

  lemma {:induction false} ViolationEffect(s: Session, s': Session, env: Env)
    requires !Ending(s'.phase)
    ensures EffectOf(s, Violation(s', env))
            == EffectOf(s, s').(phase := Closing, error := true,
                                tags := s'.history.closes - s.history.closes + if env.closing then 1 else 0)
  {
  }

  lemma {:induction false} SuccessEffect(s: Session, s': Session, ev: Evidence)
    ensures EffectOf(s, Success(s', ev)) == EffectOf(s, s').(phase := SaslSuccess)
  {
  }

  lemma {:induction false} RetriedEffect(s: Session, s': Session)
    ensures EffectOf(s, Retried(s'))
            == var x := EffectOf(s, s');
               x.(phase := if s'.failedAuth >= 2 then s'.phase else TlsNegotiated,
                  retries := x.retries + 1, failures := x.failures + 1)
  {
  }

  lemma {:induction false} CalledEffect(s: Session, failures: nat, authcid: string)
    ensures var s' := Called(s).(failedAuth := s.failedAuth + failures, authcid := authcid);
            && EffectOf(s, s') == Nothing(s).(calls := 1, failures := failures, authcid := authcid)
            && s'.phase == s.phase && s'.history.closes == s.history.closes
  {
  }

  /** A call that ends the stream. */
  lemma {:induction false} CallBreaks(s: Session, failures: nat, authcid: string, env: Env)
    requires !Ending(s.phase)
    ensures EffectOf(s, Violation(Called(s).(failedAuth := s.failedAuth + failures, authcid := authcid), env))
            == Broken(s, env).(calls := 1, failures := failures, authcid := authcid)
  {
    var s' := Called(s).(failedAuth := s.failedAuth + failures, authcid := authcid);
    CalledEffect(s, failures, authcid);
    hide EffectOf, Violation, Called;
    ViolationEffect(s, s', env);
  }

  lemma {:induction false} CallSucceeds(s: Session, authcid: string, ev: Evidence)
    ensures EffectOf(s, Success(Called(s).(authcid := authcid), ev))
            == Nothing(s).(phase := SaslSuccess, calls := 1, authcid := authcid)
  {
    var s' := Called(s).(authcid := authcid);
    assert s' == Called(s).(failedAuth := s.failedAuth + 0, authcid := authcid);
    CalledEffect(s, 0, authcid);
    hide EffectOf, Success, Called;
    SuccessEffect(s, s', ev);
  }

  lemma {:induction false} CallRetries(s: Session, authcid: string)
    requires s.phase == FeaturesPostTls || s.phase == SaslNegotiating
    ensures EffectOf(s, Retried(Called(s).(authcid := authcid)))
            == Nothing(s).(phase := if s.failedAuth >= 2 then s.phase else TlsNegotiated,
                           calls := 1, retries := 1, failures := 1, authcid := authcid)
  {
    var s' := Called(s).(authcid := authcid);
    assert s' == Called(s).(failedAuth := s.failedAuth + 0, authcid := authcid) && s'.failedAuth == s.failedAuth;
    CalledEffect(s, 0, authcid);
    hide EffectOf, Retried, Called;
    RetriedEffect(s, s');
  }

  lemma {:induction false} SameCall(s: Session)
    ensures Called(s) == Called(s).(authcid := s.authcid)
    ensures Called(s).(failedAuth := s.failedAuth + 1)
            == Called(s).(failedAuth := s.failedAuth + 1, authcid := s.authcid)
    ensures Called(s).phase == s.phase && Called(s).scramUser == s.scramUser && Called(s).failedAuth == s.failedAuth
  {
  }

  lemma {:induction false} FinalIs(s: Session, env: Env)
    requires s.phase == SaslNegotiating
    ensures EffectOf(s, ScramStep2(Called(s), env))
            == match env.scramFinal
               case FinalGranted => Nothing(s).(phase := SaslSuccess, calls := 1, authcid := Cut(s.scramUser, 1024))
               case FinalRetry =>
                 Nothing(s).(phase := if s.failedAuth >= 2 then Closing else TlsNegotiated,
                             calls := 1, retries := 1, failures := 1)
               case FinalTerminal => Broken(s, env).(calls := 1, failures := 1)
  {
    SameCall(s);
    ClosedEffect(s, Retried(Called(s)));
    hide Cut, Violation, Success, Retried, Called, EffectOf;
    match env.scramFinal
    case FinalGranted => CallSucceeds(s, Cut(s.scramUser, 1024), ByScram(s.scramUser));
    case FinalRetry => CallRetries(s, s.authcid);
    case FinalTerminal => CallBreaks(s, 1, s.authcid, env);
  }

  lemma {:induction false} ClosedEffect(s: Session, s': Session)
    ensures EffectOf(s, s'.(phase := Closing)) == EffectOf(s, s').(phase := Closing)
  {
  }

  lemma {:induction false} FirstIs(s: Session, env: Env)
    requires s.phase == FeaturesPostTls
    ensures EffectOf(s, ScramStep1(Called(s), env))
            == match env.scramFirst
               case Challenge(user) => Nothing(s).(phase := SaslNegotiating, calls := 1, scramUser := user)
               case FirstTerminal => Broken(s, env).(calls := 1, failures := 1)
  {
    SameCall(s);
    hide Violation;
    match env.scramFirst
    case Challenge(_) =>
    case FirstTerminal => CallBreaks(s, 1, s.authcid, env);
  }

  lemma {:induction false} ScramIs(s: Session, text: Option<CString>, env: Env)
    requires s.phase == FeaturesPostTls || s.phase == SaslNegotiating
    ensures EffectOf(s, AuthScram(s, text, env)) == ScramEffect(s, text, env)
  {
    SameCall(s);
    hide Cut, Violation, ScramStep1, ScramStep2, Called, EffectOf, Nothing, Broken;
    CallBreaks(s, 1, s.authcid, env);
    BrokenKeeps(s, env);
    if !Silent(text) {
      if s.phase == FeaturesPostTls {
        FirstIs(s, env);
      } else {
        FinalIs(s, env);
      }
    }
  }

  lemma {:induction false} BrokenKeeps(s: Session, env: Env)
    ensures Broken(s, env).authcid == Nothing(s).authcid == s.authcid
    ensures Broken(s, env).(calls := 1, failures := 1, authcid := s.authcid)
            == Broken(s, env).(calls := 1, failures := 1)
  {
  }

  lemma {:induction false} PlainIs(s: Session, text: CString, env: Env)
    requires s.phase == FeaturesPostTls || s.phase == SaslNegotiating
    ensures EffectOf(s, AuthPlain(s, text, env)) == PlainEffect(s, text, env)
  {
    var o := PlainOutcome(env.users, s.domain, Decode(text));
    var kept := if o.authcid.Some? then o.authcid.value else s.authcid;
    var s' := Called(s).(authcid := kept);
    hide *;
    PlainUnfolded(s, text, env, o, kept);
    assert !Ending(s.phase) by { NotEnded(s); }
    match o.verdict
    case Granted => CallSucceeds(s, kept, ByPlain(env.users, s.domain, Decode(text)));
    case Terminal => CallBreaksOnly(s, kept, env);
    case Retry =>
      if s.failedAuth >= 2 {
        ThirdRefusal(s, s', kept, env);
      } else {
        CallRetries(s, kept);
      }
  }

  lemma {:induction false} NotEnded(s: Session)
    requires s.phase == FeaturesPostTls || s.phase == SaslNegotiating
    ensures !Ending(s.phase)
  {
  }

  lemma {:induction false} CallBreaksOnly(s: Session, name: string, env: Env)
    requires !Ending(s.phase)
    ensures EffectOf(s, Violation(Called(s).(authcid := name), env))
            == Broken(s, env).(calls := 1, authcid := name)
  {
    var s' := Called(s).(authcid := name);
    assert s' == Called(s).(failedAuth := s.failedAuth + 0, authcid := name);
    CallBreaks(s, 0, name, env);
    hide EffectOf, Violation, Called;
  }

  lemma {:induction false} PlainUnfolded(s: Session, text: CString, env: Env, o: Outcome, kept: string)
    requires o == PlainOutcome(env.users, s.domain, Decode(text))
    requires kept == if o.authcid.Some? then o.authcid.value else s.authcid
    ensures var s' := Called(s).(authcid := kept);
            AuthPlain(s, text, env)
            == match o.verdict
               case Granted => Success(s', ByPlain(env.users, s.domain, Decode(text)))
               case Terminal => Violation(s', env)
               case Retry => if s.failedAuth >= 2 then Violation(Retried(s'), env) else Retried(s')
    ensures PlainEffect(s, text, env)
            == match o.verdict
               case Granted => Nothing(s).(phase := SaslSuccess, calls := 1, authcid := kept)
               case Terminal => Broken(s, env).(calls := 1, authcid := kept)
               case Retry =>
                 if s.failedAuth >= 2 then Broken(s, env).(calls := 1, retries := 1, failures := 1, authcid := kept)
                 else Nothing(s).(phase := TlsNegotiated, calls := 1, retries := 1, failures := 1, authcid := kept)
  {
    hide PlainOutcome, Decode, Violation, Success, Retried, Nothing, Broken;
  }

  lemma {:induction false} ThirdRefusal(s: Session, s': Session, kept: string, env: Env)
    requires (s.phase == FeaturesPostTls || s.phase == SaslNegotiating) && s.failedAuth >= 2
    requires s' == Called(s).(authcid := kept)
    ensures EffectOf(s, Violation(Retried(s'), env))
            == Broken(s, env).(calls := 1, retries := 1, failures := 1, authcid := kept)
  {
    CallRetries(s, kept);
    RetriedStays(s');
    RetriedTags(s');
    hide Violation, Retried;
    ViolationEffect(s, Retried(s'), env);
  }

  lemma {:induction false} RetriedStays(s: Session)
    requires s.failedAuth >= 2
    ensures Retried(s).phase == s.phase
  {
  }

  lemma {:induction false} RetriedTags(s: Session)
    ensures Retried(s).history.closes == s.history.closes
  {
  }

  /** Which handler an element is given to. */
  lemma {:induction false} LoginHandler(s: Session, e: Element, env: Env)
    requires s.parser == Inside && (s.phase == FeaturesPostTls || s.phase == SaslNegotiating)
    ensures Handle(s, OnElement(e), env)
            == if e.name != "auth" then Violation(s, env)
               else if e.mechanism == Some("SCRAM-SHA-256") then AuthScram(s, e.text, env)
               else if e.mechanism != Some("PLAIN") then FailureThen(s, Closed, env)
               else if e.text.None? then s.(pendingError := true)
               else AuthPlain(s, e.text.value, env)
  {
    hide Violation, AuthScram, AuthPlain, FailureThen;
  }

  lemma {:induction false} RefusedIs(s: Session, env: Env)
    requires !Ending(s.phase)
    ensures EffectOf(s, Violation(s, env)) == Broken(s, env)
    ensures EffectOf(s, FailureThen(s, Closed, env)) == Broken(s, env).(phase := Closed)
    ensures EffectOf(s, s.(pendingError := true)) == Nothing(s).(error := true)
  {
  }

  /** Whatever a client sends in the login phases has exactly the effect of the
      tables above on phase, counters, closing tags, error flag and names. */
  lemma {:induction false} LoginIs(s: Session, e: Element, env: Env)
    requires s.parser == Inside && (s.phase == FeaturesPostTls || s.phase == SaslNegotiating)
    ensures EffectOf(s, Handle(s, OnElement(e), env)) == LoginEffect(s, e, env)
  {
    hide Handle, Violation, AuthScram, AuthPlain, FailureThen, ScramEffect, PlainEffect, EffectOf, Broken, Nothing;
    LoginHandler(s, e, env);
    RefusedIs(s, env);
    ScramIs(s, e.text, env);
    if e.text.Some? {
      PlainIs(s, e.text.value, env);
    }
  }

  /** A stream is logged in by an element if and only if it is a SCRAM answer to a
      challenge that is granted, or PLAIN credentials that are. */
  lemma {:induction false} LogsInIff(s: Session, e: Element, env: Env)
    requires s.parser == Inside && (s.phase == FeaturesPostTls || s.phase == SaslNegotiating)
    ensures Handle(s, OnElement(e), env).phase == SaslSuccess <==>
              && e.name == "auth"
              && (|| (&& e.mechanism == Some("SCRAM-SHA-256") && e.text.Some? && e.text.value != ""
                      && s.phase == SaslNegotiating && env.scramFinal == FinalGranted)
                  || (&& e.mechanism == Some("PLAIN") && e.text.Some?
                      && PlainOutcome(env.users, s.domain, Decode(e.text.value)).verdict == Granted))
  {
    hide Handle, PlainOutcome, Decode, Cut;
    LoginIs(s, e, env);
  }

  /** The SCRAM handler alone: only a granted answer to a challenge logs in. */
  lemma {:induction false} ScramLogsInIff(s: Session, text: Option<CString>, env: Env)
    requires s.phase == FeaturesPostTls || s.phase == SaslNegotiating
    ensures AuthScram(s, text, env).phase == SaslSuccess
            <==> s.phase == SaslNegotiating && text != None && text != Some("") && env.scramFinal == FinalGranted
  {
    hide AuthScram, Cut;
    ScramIs(s, text, env);
  }

  /** Another try is allowed if and only if the proof or the password was refused
      and it was not the third failure. */
  lemma {:induction false} RetriesIff(s: Session, e: Element, env: Env)
    requires s.parser == Inside && (s.phase == FeaturesPostTls || s.phase == SaslNegotiating)
    ensures Handle(s, OnElement(e), env).phase == TlsNegotiated <==>
              && e.name == "auth" && s.failedAuth <= 1
              && (|| (&& e.mechanism == Some("SCRAM-SHA-256") && e.text.Some? && e.text.value != ""
                      && s.phase == SaslNegotiating && env.scramFinal == FinalRetry)
                  || (&& e.mechanism == Some("PLAIN") && e.text.Some?
                      && PlainOutcome(env.users, s.domain, Decode(e.text.value)).verdict == Retry))
  {
    hide Handle, PlainOutcome, Decode, Cut;
    LoginIs(s, e, env);
  }

  // -------------------------------------------------------- binding and after

  predicate InSm(e: Element) {
    e.ns == Some("urn:xmpp:sm:3")
  }

  /** A resource that may be bound; "" asks for a generated one. */
  predicate MayBind(resource: string) {
    && |resource| <= 1023
    && forall i :: 0 <= i < |resource| ==>
         resource[i] >= ' ' && resource[i] != 127 as char && resource[i] !in {'"', '\'', '/', ':', '<', '>', '@'}
  }

  function Asked(e: Element): string {
    match e.bind
    case Some(Some(resource)) => resource
    case _ => ""
  }

  lemma {:induction false} ValidIffMayBind(r: string)
    ensures ValidResource(r) <==> r != "" && MayBind(r)
  {
    assert RESOURCE_FORBIDDEN == ['"', '\'', '/', ':', '<', '>', '@'];
    forall i | 0 <= i < |r|
      ensures ForbiddenResourceChar(r[i])
              <==> !(r[i] >= ' ' && r[i] != 127 as char && r[i] !in {'"', '\'', '/', ':', '<', '>', '@'})
    {
    }
  }

  /** A bound stream goes online if and only if it is sent a bind request in an
      `iq` of type "set" for an acceptable resource and the reply fits; any other
      element outside stream management ends it, and a resource that is not
      acceptable leaves it where it is. */
  lemma {:induction false} BindIff(s: Session, e: Element, env: Env)
    requires s.parser == Inside && s.phase == Bound
    ensures var s' := Handle(s, OnElement(e), env);
            var request := !InSm(e) && e.kind == Some("set") && e.bind.Some?;
            var binds := request && MayBind(Asked(e));
            var resource := if Asked(e) == "" then env.generated else Asked(e);
            && (s'.phase == Online <==> binds && env.replyFits)
            && (s'.phase == Closing <==> !InSm(e) && !request)
            && (s'.phase == Bound <==> InSm(e) || (request && !(binds && env.replyFits)))
            && s'.boundJid
               == (if binds then Cut(s.authcid + "@" + s.domain + "/" + resource, 3073) else s.boundJid)
            && s'.resource == (if binds then resource else s.resource)
            && s'.authcid == s.authcid && s'.domain == s.domain
  {
    ValidIffMayBind(Asked(e));
    hide ValidResource, MayBind, StreamManagement, Violation;
    assert Wanted(e) == Asked(e);
    MayBindIsShort(Asked(e));
    SmKeeps(s, e, env);
    ViolationKeeps(s, env);
  }

  lemma {:induction false} MayBindIsShort(r: string)
    ensures MayBind(r) ==> |r| <= 1023
    ensures r == "" ==> MayBind(r)
  {
  }

  lemma {:induction false} SmKeeps(s: Session, e: Element, env: Env)
    ensures var s' := StreamManagement(s, e, env);
            && s'.phase == s.phase && s'.boundJid == s.boundJid && s'.resource == s.resource
            && s'.authcid == s.authcid && s'.domain == s.domain
  {
  }

  lemma {:induction false} ViolationKeeps(s: Session, env: Env)
    ensures var s' := Violation(s, env);
            && s'.phase == Closing && s'.boundJid == s.boundJid && s'.resource == s.resource
            && s'.authcid == s.authcid && s'.domain == s.domain
  {
  }

  /** Stream management on a bound or online stream: it is enabled by the first
      `enable` of a bound stream; a second one and an acknowledgement that is too
      high are errors with a closing tag; `failed` disables it. */
  lemma {:induction false} StreamManagementIff(s: Session, e: Element, env: Env)
    requires s.parser == Inside && (s.phase == Bound || s.phase == Online)
    requires InSm(e) && e.name !in {"iq", "presence", "message"}
    ensures var s' := Handle(s, OnElement(e), env);
            var error := || (e.name == "enable" && s.phase == Bound && s.smEnabled)
                         || (e.name == "a" && s.phase == Online && s.smEnabled && env.ackTooHigh);
            && s'.phase == s.phase
            && Writes(s, s', error && env.closing, error)
            && (s'.smEnabled <==> e.name != "failed" && (s.smEnabled || (e.name == "enable" && s.phase == Bound)))
  {
    hide StreamManagement;
    assert Handle(s, OnElement(e), env) == StreamManagement(s, e, env);
    SmIs(s, e, env);
  }

  lemma {:induction false} SmIs(s: Session, e: Element, env: Env)
    requires s.phase == Bound || s.phase == Online
    ensures var s' := StreamManagement(s, e, env);
            var error := || (e.name == "enable" && s.phase == Bound && s.smEnabled)
                         || (e.name == "a" && s.phase == Online && s.smEnabled && env.ackTooHigh);
            && s'.phase == s.phase
            && Writes(s, s', error && env.closing, error)
            && (s'.smEnabled <==> e.name != "failed" && (s.smEnabled || (e.name == "enable" && s.phase == Bound)))
  {
  }

  /** An online stream stays online whatever element it is sent. */
  lemma {:induction false} OnlineStays(s: Session, e: Element, env: Env)
    requires s.parser == Inside && s.phase == Online
    ensures Handle(s, OnElement(e), env).phase == Online
    ensures !InSm(e) || e.name in {"iq", "presence", "message"} ==> Handle(s, OnElement(e), env) == s
  {
  }

  /** In every other phase an element changes nothing. */
  lemma {:induction false} ElementsIgnored(s: Session, e: Element, env: Env)
    requires s.phase !in {FeaturesReceived, FeaturesPostTls, SaslNegotiating, Bound, Online}
    ensures Handle(s, OnElement(e), env) == s
  {
  }

  // ------------------------------------------------------- opening and closing

  /** The phase a stream header leads to. */
  function PhaseAfterOpen(phase: Phase, features: bool): Phase {
    match phase
    case ConnectedTcp => if features then FeaturesReceived else StreamOpened
    case TlsNegotiated => if features then FeaturesPostTls else RestartedPostTls
    case StarttlsSent => if features then FeaturesPostTls else RestartedPostTls
    case SaslSuccess => if features then Bound else RestartedPostSasl
    case _ => phase
  }

  predicate GoodHeader(o: StreamOpen) {
    && o.name == "stream" && o.clientNs == "jabber:client" && o.version == Some("1.0")
    && o.streamNs == "http://etherx.jabber.org/streams"
  }

  function Named(o: StreamOpen, current: string): string {
    var d := if o.to.Some? && |o.to.value| <= 1023 then o.to.value else current;
    if d == "" then "localhost" else d
  }

  /** A header is accepted if and only if it is a stream of version 1.0 in its two
      namespaces; then its `to` of at most 1023 octets becomes the domain, and a
      domain that is still empty becomes "localhost". It moves the stream on if it
      is expected, its answer is written, and the features are. */
  lemma {:induction false} GoodOpen(s: Session, o: StreamOpen, env: Env)
    requires s.parser == Fresh && GoodHeader(o)
    ensures var s' := Handle(s, OnOpen(o), env);
            var expected := s.phase in {ConnectedTcp, TlsNegotiated, StarttlsSent, SaslSuccess};
            && s'.parser == Inside && s'.domain == Named(o, s.domain)
            && s'.phase == (if env.header then PhaseAfterOpen(s.phase, env.features) else s.phase)
            && s'.history.closes == s.history.closes
            && (s'.pendingError <==> s.pendingError || !env.header || !expected || !env.features)
  {
    var s0 := s.(parser := Inside, domain := NewDomain(s.domain, o.to));
    HeaderIs(s, o);
    hide NewDomain, Named, ValidOpen, GoodHeader, Started, StreamError;
    StartedIs(s0, env);
  }

  lemma {:induction false} StartedIs(s: Session, env: Env)
    ensures var s' := Started(s, env);
            var expected := s.phase in {ConnectedTcp, TlsNegotiated, StarttlsSent, SaslSuccess};
            && s'.parser == s.parser && s'.domain == s.domain && s'.phase == PhaseAfterOpen(s.phase, env.features)
            && s'.history.closes == s.history.closes
            && (s'.pendingError <==> s.pendingError || !expected || !env.features)
  {
    hide Enter;
    match s.phase
    case ConnectedTcp => EnterIs(s, StreamOpened, FeaturesReceived, Opened, env);
    case TlsNegotiated => EnterIs(s, RestartedPostTls, FeaturesPostTls, RestartedTls, env);
    case StarttlsSent => EnterIs(s, RestartedPostTls, FeaturesPostTls, RestartedTls, env);
    case SaslSuccess => EnterIs(s, RestartedPostSasl, Bound, RestartedSasl, env);
    case _ =>
  }

  lemma {:induction false} HeaderIs(s: Session, o: StreamOpen)
    ensures NewDomain(s.domain, o.to) == Named(o, s.domain) && (ValidOpen(o) <==> GoodHeader(o))
  {
  }

  lemma {:induction false} EnterIs(s: Session, transient: Phase, stable: Phase, m: Milestone, env: Env)
    ensures var s' := Enter(s, transient, stable, m, env);
            && s'.phase == (if env.features then stable else transient)
            && s'.parser == s.parser && s'.domain == s.domain && s'.history.closes == s.history.closes
            && (s'.pendingError <==> s.pendingError || !env.features)
  {
  }

  /** Any other header is an error, answered by a closing tag if the stream is not
      ended and the write succeeds. */
  lemma {:induction false} BadOpen(s: Session, o: StreamOpen, env: Env)
    requires s.parser == Fresh && !GoodHeader(o)
    ensures var s' := Handle(s, OnOpen(o), env);
            var tag := s.phase != Closing && s.phase != Closed && env.closing;
            && s'.parser == Inside && s'.domain == s.domain
            && s'.phase == (if tag then Closing else s.phase)
            && Writes(s, s', tag, true)
  {
  }

  /** The client's closing tag is answered once, unless the stream is ended. */
  lemma {:induction false} EndIff(s: Session, env: Env)
    requires s.parser == Inside
    ensures var s' := Handle(s, OnEnd, env);
            var ended := s.phase == Closing || s.phase == Closed;
            && s'.parser == Ended && s'.phase == (if ended then s.phase else Closing)
            && Writes(s, s', !ended && env.closing, false)
  {
  }

  // ------------------------------------------------------------ the connection

  /** A plaintext read: the connection stays open if and only if the session does
      not reject the buffer and a granted starttls finds TLS ready; it turns to
      TLS exactly then, with the handshake still to come. */
  lemma {:induction false} PlainReadIff(c: Conn, i: Input)
    requires c.open && !c.isTls && !c.hsDone && i.Read?
    ensures var c', s' := Step(c, i), Feed(c.session, i.plain);
            var fine, asked := !Rejects(c.session, i.plain), s'.starttlsProceed;
            && (c'.open <==> fine && (asked ==> i.tlsReady))
            && (c'.isTls <==> fine && asked && i.tlsReady) && !c'.hsDone
            && c'.session == if fine then s'.(starttlsProceed := false) else s'
  {
    hide Feed, Rejects;
  }

  /** A read on the TLS side: overflow and a failed handshake close; the handshake
      is done if and only if it was or is now; nothing is fed before that. */
  lemma {:induction false} TlsReadIff(c: Conn, i: Input)
    requires c.open && c.isTls && i.Read?
    ensures var c' := Step(c, i);
            && (c'.hsDone <==> c.hsDone || (!i.overflow && i.handshake == Done)) && c'.isTls
            && (!c'.hsDone ==> c'.session == c.session && (c'.open <==> !i.overflow && i.handshake == WantMore))
            && (c'.hsDone && !c.hsDone && i.chunks == [] && !i.goodbye ==>
                  c'.open && c'.session.phase == TlsNegotiated && c'.session.parserReset
                  && c'.session.domain == c.session.domain && c'.session.authcid == c.session.authcid)
            && (c.hsDone && !i.overflow && i.chunks == [] && !i.goodbye ==> c' == c)
  {
    hide Feed, Rejects, FeedAll;
    DecryptedFlags(c, i.chunks, i.goodbye, i.rest);
    DecryptedFlags(Secured(c), i.chunks, i.goodbye, i.rest);
  }

  lemma {:induction false} DecryptedFlags(c: Conn, chunks: seq<Chunk>, goodbye: bool, rest: seq<Chunk>)
    ensures var c' := Decrypted(c, chunks, goodbye, rest); c'.isTls == c.isTls && c'.hsDone == c.hsDone
    decreases |chunks|
  {
    hide Feed, Rejects, FeedAll;
    if chunks != [] {
      DecryptedFlags(c.(session := Feed(c.session, chunks[0])), chunks[1..], goodbye, rest);
    }
  }

  /** One decrypted buffer: it closes the connection if and only if the session
      rejects it, which it does if and only if it does not parse or an event of it
      left an error; a parser is set up anew if and only if one of the two flags
      asks for it. */
  lemma {:induction false} BufferIff(c: Conn, chunk: Chunk)
    ensures var c' := Decrypted(c, [chunk], false, []);
            var begun := c.session.(pendingError := false, parserReset := false, starttlsProceed := false,
                                    parser := if c.session.parserReset || c.session.starttlsProceed then Fresh
                                              else c.session.parser);
            var after := HandleAll(begun, chunk.events);
            && (c'.open <==> c.open && chunk.wellFormed && !after.pendingError)
            && (chunk.wellFormed ==> c'.session == after)
            && (!chunk.wellFormed ==>
                  && c'.session.pendingError
                  && c'.session.phase == if after.phase != Closed && chunk.env.closing then Closing else after.phase)
  {
    assert [chunk][1..] == [];
    hide HandleAll;
    assert FeedAll(Feed(c.session, chunk), []) == Feed(c.session, chunk);
  }
}
