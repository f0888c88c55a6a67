/** The session struct of xmpp.c and the connection of server.c as objects
    whose fields the callbacks update in place. Each method is proved against
    the function in `Streams` that the run theorems are about. */
module Connection {
  import opened Options
  import opened Jids
  import opened Base64
  import opened SaslPlain
  import opened Streams
  import opened StreamRuns
  import opened StreamSteps
  import opened Logins

  datatype Event = OpenEvent | AuthEvent | SaslSuccessEvent | CloseEvent | TcpCloseEvent

  /** The transition table; CLOSED stands for "invalid". */
  function ValidateTransition(from: Phase, event: Event): Phase {
    match event
    case OpenEvent =>
      if from == ConnectedTcp then StreamOpened
      else if from == TlsNegotiated || from == StarttlsSent then RestartedPostTls
      else if from == SaslSuccess then RestartedPostSasl
      else Closed
    case AuthEvent => if from == FeaturesPostTls then SaslNegotiating else Closed
    case SaslSuccessEvent => if from == SaslNegotiating then SaslSuccess else Closed
    case CloseEvent => if from == Online || from == Closing then Closing else Closed
    case TcpCloseEvent => Closed
  }

  lemma {:induction false} ResourceIff(r: string)
    ensures ValidResource(r) <==>
              && 1 <= |r| <= 1023
              && forall i :: 0 <= i < |r| ==>
                   r[i] >= ' ' && r[i] != 127 as char && r[i] !in {'"', '\'', '/', ':', '<', '>', '@'}
    ensures ValidResource(r) <==> 1 <= |r| <= 1023 && forall i :: 0 <= i < |r| ==> !ForbiddenResourceChar(r[i])
  {
    forall i | 0 <= i < |r|
      ensures ForbiddenResourceChar(r[i])
              <==> r[i] < ' ' || r[i] == 127 as char || r[i] in {'"', '\'', '/', ':', '<', '>', '@'}
    {
      ForbiddenInResource(r[i]);
    }
  }

  lemma {:induction false} ForbiddenInResource(c: char)
    ensures ForbiddenResourceChar(c) <==> c < ' ' || c == 127 as char || c in {'"', '\'', '/', ':', '<', '>', '@'}
  {
    assert RESOURCE_FORBIDDEN == ['"', '\'', '/', ':', '<', '>', '@'];
  }

  /** validate_resource. */
  method ValidateResource(r: string) returns (ok: bool)
    ensures ok <==> ValidResource(r)
    ensures ok <==> && 1 <= |r| <= 1023
                    && forall i :: 0 <= i < |r| ==>
                         r[i] >= ' ' && r[i] != 127 as char && r[i] !in {'"', '\'', '/', ':', '<', '>', '@'}
  {
    ResourceIff(r);
    hide ForbiddenResourceChar, ValidResource;
    if |r| == 0 || |r| > 1023 {
      return false;
    }
    for i := 0 to |r|
      invariant forall k :: 0 <= k < i ==> !ForbiddenResourceChar(r[k])
    {
      if ForbiddenResourceChar(r[i]) {
        return false;
      }
    }
    return true;
  }

  lemma {:induction false} FeedFacts(s: Session, c: Chunk)
    ensures Ending(s.phase) ==> Feed(s, c).phase == s.phase && Feed(s, c).history == s.history
    ensures SessionOk(s, true) ==> SessionOk(Feed(s, c), true)
  {
    hide Feed, SessionOk;
    if Ending(s.phase) {
      EndingAbsorbsFeed(s, c);
    }
    if SessionOk(s, true) {
      SecuredFeed(s, c);
    }
  }

  class XmppSession {
    var phase: Phase
    var domain: string
    var authcid: string
    var resource: string
    var boundJid: string
    var scramUser: string
    var parser: ParserPhase
    var parserReset: bool
    var starttlsProceed: bool
    var failedAuth: nat
    var pendingError: bool
    var smEnabled: bool
    ghost var history: History

    ghost function View(): Session
      reads this
    {
      Session(phase, domain, authcid, resource, boundJid, scramUser, parser, parserReset, starttlsProceed,
              failedAuth, pendingError, smEnabled, history)
    }

    /** xmpp_session_reset on a fresh struct. */
    constructor ()
      ensures View() == InitialSession
    {
      phase := ConnectedTcp;
      domain, authcid, resource, boundJid, scramUser := "", "", "", "", "";
      parser, parserReset, starttlsProceed := Fresh, false, false;
      failedAuth, pendingError, smEnabled := 0, false, false;
      history := InitialSession.history;
    }

    ghost method Mark(m: Milestone)
      modifies this`history
      ensures View() == Marked(old(View()), m)
    {
      history := history.(path := history.path + [m]);
    }

    /** A closing tag handed to the writer. */
    method WriteClose(env: Env)
      modifies this`history
      ensures View() == WithClosingTag(old(View()), env)
    {
      if env.closing {
        history := history.(closes := history.closes + 1);
      }
    }

    method SendStreamClose(env: Env) returns (ok: bool)
      modifies this
      ensures ok <==> Ending(old(phase)) || env.closing
      ensures View() == if Ending(old(phase)) || !env.closing then old(View())
                        else WithClosingTag(old(View()), env).(phase := Closing)
    {
      if phase == Closing || phase == Closed {
        return true;
      }
      WriteClose(env);
      if !env.closing {
        return false;
      }
      phase := Closing;
      return true;
    }

    method SendStreamError(env: Env)
      modifies this
      ensures View() == StreamError(old(View()), env)
    {
      var ok := SendStreamClose(env);
      pendingError := true;
    }

    method RejectStream(env: Env)
      modifies this
      ensures View() == Violation(old(View()), env)
    {
      SendStreamError(env);
      phase := Closing;
      pendingError := true;
    }

    method WriteFailure(next: Phase, env: Env)
      modifies this
      ensures View() == FailureThen(old(View()), next, env)
    {
      WriteClose(env);
      phase := next;
      pendingError := true;
    }

    /** transition_to with a stream-open event. */
    method TransitionTo(next: Phase, env: Env) returns (ok: bool)
      modifies this
      ensures var s := old(View());
              if ValidateTransition(s.phase, OpenEvent) == Closed && next != Closed
              then !ok && View() == Violation(s, env)
              else && ok == env.features
                   && (next == StreamOpened ==> View() == Enter(s, StreamOpened, FeaturesReceived, Opened, env))
                   && (next == RestartedPostTls ==>
                         View() == Enter(s, RestartedPostTls, FeaturesPostTls, RestartedTls, env))
                   && (next == RestartedPostSasl ==> View() == Enter(s, RestartedPostSasl, Bound, RestartedSasl, env))
    {
      var allowed := ValidateTransition(phase, OpenEvent);
      if allowed == Closed && next != Closed {
        RejectStream(env);
        return false;
      }
      phase := next;
      if !env.features {
        pendingError := true;
        return false;
      }
      if next == StreamOpened {
        phase := FeaturesReceived;
        Mark(Opened);
      } else if next == RestartedPostTls {
        phase := FeaturesPostTls;
        Mark(RestartedTls);
      } else if next == RestartedPostSasl {
        phase := Bound;
        Mark(RestartedSasl);
      }
      return true;
    }

    /** The `to` of the header becomes the domain when it fits its field. */
    method SetDomain(to: Option<string>)
      modifies this`domain
      ensures View() == old(View()).(domain := NewDomain(old(domain), to))
    {
      if to.Some? && |to.value| < DOMAIN_BUF_SIZE {
        domain := to.value;
      }
      if domain == "" {
        domain := "localhost";
      }
    }

    method OnStreamStart(o: StreamOpen, env: Env)
      modifies this
      ensures View() == StreamStart(old(View()), o, env)
    {
      hide ValidOpen, NewDomain, Started, StreamError;
      if !ValidOpen(o) {
        SendStreamError(env);
        return;
      }
      SetDomain(o.to);
      if !env.header {
        pendingError := true;
        return;
      }
      Transition(env);
    }

    /** The switch over the phase behind an answered header. */
    method Transition(env: Env)
      modifies this
      ensures View() == Started(old(View()), env)
    {
      hide Enter, Violation;
      match phase {
        case ConnectedTcp =>
          var ok := TransitionTo(StreamOpened, env);
        case TlsNegotiated =>
          var ok := TransitionTo(RestartedPostTls, env);
        case StarttlsSent =>
          var ok := TransitionTo(RestartedPostTls, env);
        case SaslSuccess =>
          var ok := TransitionTo(RestartedPostSasl, env);
        case _ =>
          pendingError := true;
      }
    }

    method OnStreamEnd(env: Env)
      modifies this
      ensures View() == StreamEnd(old(View()), env)
    {
      if phase != Closing && phase != Closed {
        var ok := SendStreamClose(env);
        phase := Closing;
      }
    }

    method StanzaBeforeTls(e: Element, env: Env)
      modifies this
      ensures View() == BeforeTls(old(View()), e, env)
    {
      hide IsAuth, IsStarttls, InTlsNs, MechanismOf;
      if IsAuth(e) {
        if MechanismOf(e) == Plain {
          RejectStream(env);
        } else {
          WriteFailure(Closed, env);
        }
        return;
      }
      if !IsStarttls(e) {
        RejectStream(env);
        return;
      }
      if !InTlsNs(e) {
        WriteFailure(Closing, env);
        return;
      }
      Mark(StartTls);
      starttlsProceed := true;
      phase := StarttlsSent;
    }

    method Succeed(ghost ev: Evidence)
      modifies this
      ensures View() == Success(old(View()), ev)
    {
      Mark(Authenticated);
      history := history.(granted := Some(ev));
      parserReset := true;
      phase := SaslSuccess;
    }

    /** A failure that allows another attempt, up to the third. */
    method CountRetry() returns (last: bool)
      modifies this
      ensures last <==> old(failedAuth) + 1 >= 3
      ensures View() == Retried(old(View()))
    {
      failedAuth := failedAuth + 1;
      history := history.(retries := history.retries + 1);
      last := failedAuth >= 3;
      if !last {
        Mark(Refused);
        parserReset := true;
        phase := TlsNegotiated;
      }
    }

    /** The PLAIN branch: evaluate, then count failures. */
    method StanzaPlain(text: CString, env: Env)
      modifies this
      ensures View() == AuthPlain(old(View()), text, env)
    {
      hide PlainOutcome, Decode, Retried, Violation, Success;
      var o := HandleSaslPlain(env.users, domain, text);
      history := history.(calls := history.calls + 1);
      if o.authcid.Some? {
        authcid := o.authcid.value;
      }
      match o.verdict {
        case Terminal => RejectStream(env);
        case Retry =>
          var last := CountRetry();
          if last {
            RejectStream(env);
          }
        case Granted => Succeed(ByPlain(env.users, domain, Decode(text)));
      }
    }

    /** handle_scram_sha256 answered with an error that ends the stream. */
    method ScramTerminal(env: Env)
      modifies this
      ensures View() == Violation(old(View()).(failedAuth := old(failedAuth) + 1), env)
    {
      hide StreamError;
      failedAuth := failedAuth + 1;
      RejectStream(env);
    }

    /** The SCRAM branch: only a granted answer to a challenge logs in. */
    method StanzaScram(text: Option<CString>, env: Env)
      modifies this
      ensures View() == AuthScram(old(View()), text, env)
      ensures old(phase) == FeaturesPostTls || old(phase) == SaslNegotiating ==>
                (phase == SaslSuccess <==> && old(phase) == SaslNegotiating && text != None && text != Some("")
                                           && env.scramFinal == FinalGranted)
    {
      hide AuthScram;
      if phase == FeaturesPostTls || phase == SaslNegotiating {
        ScramLogsInIff(View(), text, env);
      }
      ScramCall(text, env);
    }

    /** One call of the handler; the step follows from the phase. */
    method ScramCall(text: Option<CString>, env: Env)
      modifies this
      ensures View() == AuthScram(old(View()), text, env)
    {
      hide ScramStep1, ScramStep2, Violation;
      CountCall();
      if text.None? || text.value == "" {
        ScramTerminal(env);
      } else {
        ScramMessage(env);
      }
    }

    ghost method CountCall()
      modifies this`history
      ensures View() == Called(old(View()))
    {
      history := history.(calls := history.calls + 1);
    }

    method ScramMessage(env: Env)
      modifies this
      ensures var s := old(View());
              View() == if s.phase == SaslNegotiating then ScramStep2(s, env) else ScramStep1(s, env)
    {
      hide ScramStep1, ScramStep2;
      var step := if phase == SaslNegotiating then 2 else 1;
      if step == 1 {
        ScramFirstMessage(env);
      } else {
        ScramFinalMessage(env);
      }
    }

    method ScramFirstMessage(env: Env)
      modifies this
      ensures View() == ScramStep1(old(View()), env)
    {
      hide Violation;
      match env.scramFirst {
        case Challenge(user) =>
          Mark(Challenged);
          scramUser := user;
          phase := SaslNegotiating;
        case FirstTerminal => ScramTerminal(env);
      }
    }

    method ScramFinalMessage(env: Env)
      modifies this
      ensures View() == ScramStep2(old(View()), env)
    {
      hide Retried, Violation, Success;
      match env.scramFinal {
        case FinalGranted =>
          authcid := Cut(scramUser, AUTHCID_BUF_SIZE);
          Succeed(ByScram(scramUser));
        case FinalTerminal => ScramTerminal(env);
        case FinalRetry =>
          var last := CountRetry();
          if last {
            phase := Closing;
          }
      }
    }

    method StanzaAuthenticating(e: Element, env: Env)
      modifies this
      ensures View() == Authenticating(old(View()), e, env)
    {
      hide IsAuth, MechanismOf, AuthPlain, AuthScram;
      if !IsAuth(e) {
        RejectStream(env);
        return;
      }
      match MechanismOf(e) {
        case Plain =>
          if e.text.None? {
            pendingError := true;
          } else {
            StanzaPlain(e.text.value, env);
          }
        case Scram => StanzaScram(e.text, env);
        case _ => WriteFailure(Closed, env);
      }
    }

    method FailStreamManagement(env: Env)
      modifies this
      ensures View() == SmError(old(View()), env)
    {
      WriteClose(env);
      history := history.(smCloses := history.smCloses + 1);
      pendingError := true;
    }

    /** xep0198_handle_element, as far as it touches the stream. */
    method HandleStreamManagement(e: Element, env: Env)
      modifies this
      ensures View() == StreamManagement(old(View()), e, env)
    {
      hide SmElementOf, SmError;
      match SmElementOf(e) {
        case SmEnable =>
          if phase == Bound {
            if smEnabled {
              FailStreamManagement(env);
            } else {
              smEnabled := true;
            }
          }
        case SmAck =>
          if phase == Online && smEnabled && env.ackTooHigh {
            FailStreamManagement(env);
          }
        case SmFailed => smEnabled := false;
        case SmOther =>
      }
    }

    method StanzaBinding(e: Element, env: Env)
      modifies this
      ensures View() == Binding(old(View()), e, env)
    {
      hide InSmNs, IsBindRequest, Wanted, StreamManagement, ValidResource, Cut, JoinJid;
      if InSmNs(e) {
        HandleStreamManagement(e, env);
        return;
      }
      if !IsBindRequest(e) {
        RejectStream(env);
        return;
      }
      var wanted := Wanted(e);
      if wanted != "" {
        var valid := ValidateResource(wanted);
        if !valid {
          if !env.replyFits {
            pendingError := true;
          }
          return;
        }
      }
      resource := Cut(if wanted != "" then wanted else env.generated, 1024);
      boundJid := Cut(JoinJid(authcid, domain, resource), JID_BUF_SIZE);
      if !env.replyFits {
        pendingError := true;
        return;
      }
      Mark(BoundTo);
      phase := Online;
    }

    /** on_stanza; the ONLINE handlers leave the stream state alone. */
    method OnElementSeen(e: Element, env: Env)
      modifies this
      ensures View() == OnStanza(old(View()), e, env)
    {
      hide BeforeTls, Authenticating, Binding, StreamManagement, IsStanza, InSmNs;
      match phase {
        case FeaturesReceived => StanzaBeforeTls(e, env);
        case FeaturesPostTls => StanzaAuthenticating(e, env);
        case SaslNegotiating => StanzaAuthenticating(e, env);
        case Bound => StanzaBinding(e, env);
        case Online =>
          if !IsStanza(e) && InSmNs(e) {
            HandleStreamManagement(e, env);
          }
        case _ =>
      }
    }

    /** The parser calling back. */
    method Callback(ev: ParserEvent, env: Env)
      modifies this
      ensures View() == Handle(old(View()), ev, env)
    {
      hide StreamStart, StreamEnd, OnStanza;
      if !Emits(parser, ev) {
        return;
      }
      match ev {
        case OnOpen(o) =>
          parser := Inside;
          OnStreamStart(o, env);
        case OnElement(e) =>
          OnElementSeen(e, env);
        case OnEnd =>
          parser := Ended;
          OnStreamEnd(env);
      }
    }

    /** parser_feed: the events of one buffer, in order. */
    method RunParser(events: seq<(ParserEvent, Env)>)
      modifies this
      ensures View() == HandleAll(old(View()), events)
    {
      hide Handle;
      var i := 0;
      while i < |events|
        invariant i <= |events|
        invariant View() == HandleAll(old(View()), events[..i])
      {
        assert events[..i + 1][..i] == events[..i];
        Callback(events[i].0, events[i].1);
        i := i + 1;
      }
      assert events[..i] == events;
    }

    /** xmpp_feed: false is the source's -1. An ended stream stays ended and
        silent, and behind the handshake the session invariant is kept. */
    method FeedBytes(c: Chunk) returns (ok: bool)
      modifies this
      ensures View() == Feed(old(View()), c)
      ensures ok <==> !Rejects(old(View()), c)
      ensures Ending(old(phase)) ==> phase == old(phase) && history == old(history)
      ensures SessionOk(old(View()), true) ==> SessionOk(View(), true)
    {
      hide HandleAll, StreamError, SessionOk;
      FeedFacts(View(), c);
      pendingError := false;
      if parserReset {
        parser := Fresh;
        parserReset := false;
      }
      if starttlsProceed {
        parser := Fresh;
        starttlsProceed := false;
      }
      assert View() == Prepared(old(View()));
      RunParser(c.events);
      if !c.wellFormed {
        SendStreamError(c.env);
        return false;
      }
      return !pendingError;
    }
  }

  class TcpConnection {
    const session: XmppSession
    var isTls: bool
    var hsDone: bool
    var open: bool
    ghost var inputs: seq<Input>

    ghost function View(): Conn
      reads this, session
    {
      Conn(session.View(), isTls, hsDone, open)
    }

    /** The object is where the model is after the reads so far. */
    ghost predicate Valid()
      reads this, session
    {
      View() == RunConn(inputs)
    }

    /** What that means for the fields: the TLS gate, the identity, the order of
        negotiation, the budget of attempts, the closing tags, the bound JID. */
    ghost predicate Sound()
      reads this, session
    {
      var h := session.history;
      && (!PlainPhase(session.phase) ==> hsDone)
      && (AuthedPhase(session.phase) ==> Accountable(session.View()) && Evidenced(inputs, h.granted))
      && (session.phase == Online ==>
            && |h.path| >= 7
            && h.path[..4] == [Opened, StartTls, Handshook, RestartedTls]
            && h.path[|h.path| - 3..] == [Authenticated, RestartedSasl, BoundTo])
      && h.calls <= 6 && h.retries <= 3 && (h.calls > 0 ==> hsDone)
      && h.closes <= 1 + (if h.revived then 1 else 0) + h.smCloses
      && (session.boundJid != "" ==>
            && session.boundJid == session.authcid + "@" + session.domain + "/" + session.resource
            && |session.boundJid| < JID_BUF_SIZE && ValidResource(session.resource))
    }

    constructor ()
      ensures Valid() && inputs == [] && open && fresh(session)
      ensures View() == InitialConn
    {
      session := new XmppSession();
      isTls, hsDone, open := false, false, true;
      inputs := [];
    }

    lemma ValidIsSound()
      requires Valid()
      ensures Sound()
    {
      NegotiationIsOrdered(inputs);
      LoginIsEvidenced(inputs);
      AuthenticationIsBounded(inputs);
      ClosingTagsAreFew(inputs);
      BoundJidIsExact(inputs);
      hide RunConn, Accountable, Evidenced, ValidResource, OnPath, Step;
    }

    /** drain_pending_tls: results of the feeds are ignored. */
    method DrainPendingTls(rest: seq<Chunk>)
      modifies session
      ensures session.View() == if isTls && hsDone then FeedAll(old(session.View()), rest) else old(session.View())
    {
      hide Feed;
      if !isTls || !hsDone {
        return;
      }
      var i := 0;
      while i < |rest|
        invariant i <= |rest|
        invariant session.View() == FeedAll(old(session.View()), rest[..i])
      {
        assert rest[..i + 1][..i] == rest[..i];
        var ok := session.FeedBytes(rest[i]);
        i := i + 1;
      }
      assert rest[..i] == rest;
    }

    method Close(rest: seq<Chunk>)
      modifies this`open, session
      ensures View() == CloseConn(old(View()), rest)
    {
      hide FeedAll;
      DrainPendingTls(rest);
      open := false;
    }

    /** The loop over decrypted records. */
    method ReadDecrypted(chunks: seq<Chunk>, goodbye: bool, rest: seq<Chunk>)
      modifies this`open, session
      ensures View() == Decrypted(old(View()), chunks, goodbye, rest)
    {
      hide Feed, Rejects, CloseConn;
      var i := 0;
      while i < |chunks|
        invariant i <= |chunks|
        invariant Decrypted(View(), chunks[i..], goodbye, rest) == Decrypted(old(View()), chunks, goodbye, rest)
      {
        assert chunks[i..][0] == chunks[i] && chunks[i..][1..] == chunks[i + 1..];
        var ok := session.FeedBytes(chunks[i]);
        i := i + 1;
        if !ok {
          Close(rest);
          return;
        }
      }
      if goodbye {
        Close(rest);
      }
    }

    /** read_cb: one more read of the run. An ended stream stays ended and
        silent unless a handshake is outstanding on it. */
    method ReadCallback(input: Input)
      requires Valid() && open
      modifies this, session
      ensures Valid() && inputs == old(inputs) + [input] && Sound()
      ensures Ending(old(session.phase)) && (old(isTls) ==> old(hsDone)) ==>
                session.phase == old(session.phase) && session.history == old(session.history)
    {
      ghost var c := View();
      if Ending(session.phase) && (isTls ==> hsDone) {
        EndingAbsorbsStep(c, input);
      }
      hide Step, Sound;
      HandleRead(input);
      inputs := inputs + [input];
      assert inputs[..|inputs| - 1] == old(inputs);
      ValidIsSound();
    }

    method HandleRead(input: Input)
      requires open
      modifies this`isTls, this`hsDone, this`open, session
      ensures View() == Step(old(View()), input)
    {
      hide Feed, Rejects, CloseConn, Decrypted;
      match input {
        case Hangup(rest) =>
          Close(rest);
        case Read(plain, tlsReady, overflow, handshake, chunks, goodbye, rest) =>
          if isTls {
            if overflow {
              Close(rest);
              return;
            }
            if !hsDone {
              if handshake == WantMore {
                return;
              }
              if handshake == Failed {
                Close(rest);
                return;
              }
              CompleteHandshake();
            }
            ReadDecrypted(chunks, goodbye, rest);
          } else {
            ReadPlain(plain, tlsReady);
          }
      }
    }

    method CompleteHandshake()
      modifies this`hsDone, session
      ensures View() == Secured(old(View()))
    {
      ghost var was := session.phase;
      session.Mark(Handshook);
      hsDone := true;
      session.phase := TlsNegotiated;
      session.parserReset := true;
      session.history := session.history.(revived := was != StarttlsSent);
    }

    method ReadPlain(plain: Chunk, tlsReady: bool)
      requires open && !isTls
      modifies this`isTls, this`hsDone, this`open, session
      ensures View() == PlainRead(old(View()), plain, tlsReady)
    {
      hide Feed, Rejects;
      var ok := session.FeedBytes(plain);
      if !ok {
        open := false;
        return;
      }
      if session.starttlsProceed && !isTls {
        session.starttlsProceed := false;
        if !tlsReady {
          open := false;
          return;
        }
        isTls, hsDone := true, false;
      }
    }
  }
}
