/** Stream negotiation (sections 4 to 7 of RFC 6120): the session of xmpp.c as
    a function of parser events, and the connection of server.c that feeds it
    through the TLS gate. */
module Streams {
  import opened Options
  import opened Jids
  import opened Base64
  import opened SaslPlain

  datatype Phase =
    | Disconnected | ConnectedTcp | StreamOpened | FeaturesReceived | StarttlsSent | TlsNegotiated
    | RestartedPostTls | FeaturesPostTls | SaslNegotiating | SaslSuccess
    | RestartedPostSasl | FeaturesPostSasl | ResourceBinding | Bound | Online | Closing | Closed

  /** A parser instance emits one stream open, then elements, then one end. */
  datatype ParserPhase = Fresh | Inside | Ended

  /** What happened, in order. */
  datatype Milestone =
    | Opened | StartTls | Handshook | RestartedTls | Challenged | Refused | Authenticated | RestartedSasl | BoundTo

  /** Bookkeeping about the run so far; no code path reads it. */
  datatype History = History(calls: nat, retries: nat, closes: nat, smCloses: nat, revived: bool,
                             granted: Option<Evidence>, path: seq<Milestone>)

  /** What a successful handler call was given. */
  datatype Evidence =
    | ByPlain(users: Users, domain: string, data: seq<Octet>)
    | ByScram(user: string)

  /** The call with this evidence succeeds and sets this authcid. */
  predicate Proves(ev: Evidence, authcid: string) {
    match ev
    case ByPlain(users, domain, data) => PlainOutcome(users, domain, data) == Outcome(Granted, Some(authcid))
    case ByScram(user) => authcid == Cut(user, AUTHCID_BUF_SIZE)
  }

  datatype Session = Session(
    phase: Phase, domain: string, authcid: string, resource: string, boundJid: string, scramUser: string,
    parser: ParserPhase, parserReset: bool, starttlsProceed: bool, failedAuth: nat,
    pendingError: bool, smEnabled: bool, history: History)

  const InitialSession :=
    Session(ConnectedTcp, "", "", "", "", "", Fresh, false, false, 0, false, false,
            History(0, 0, 0, 0, false, None, []))

  /** Not empty, accepted by scram_validate_username, and it fits its 1024-octet
      field. */
  type CleanName = s: string | 0 < |s| < AUTHCID_BUF_SIZE && !HasForbidden(s) witness "a"

  const RESOURCE_FORBIDDEN: string := "\"'/:<>@"

  predicate ForbiddenResourceChar(c: char) {
    c < ' ' || c == 127 as char || c in RESOURCE_FORBIDDEN
  }

  predicate ValidResource(r: string) {
    1 <= |r| <= 1023 && forall i :: 0 <= i < |r| ==> !ForbiddenResourceChar(r[i])
  }

  /** Eight hexadecimal digits. */
  type Generated = s: string | |s| == 8 && forall i :: 0 <= i < 8 ==> s[i] in "0123456789abcdef"
    witness "00000000"

  /** The first SCRAM message is answered by a challenge or ends the stream;
      only the second can authenticate. */
  datatype ScramFirst = Challenge(user: CleanName) | FirstTerminal
  datatype ScramFinal = FinalGranted | FinalRetry | FinalTerminal

  /** Everything outside the session that one event depends on: whether the
      header, the features and the closing tag are written successfully, the
      account table, the SCRAM answers, the random resource, whether an
      acknowledged count is too high, and whether the bind reply fits. */
  datatype Env = Env(header: bool, features: bool, closing: bool, users: Users,
                     scramFirst: ScramFirst, scramFinal: ScramFinal, generated: Generated,
                     ackTooHigh: bool, replyFits: bool)

  datatype StreamOpen = StreamOpen(name: string, clientNs: string, streamNs: string,
                                   version: Option<string>, to: Option<string>)

  /** Text out of the parser: a C string. */
  type CString = s: string | '\0' !in s

  /** A top-level element: `bind` is its bind child with the requested resource. */
  datatype Element = Element(name: string, ns: Option<string>, kind: Option<string>,
                             mechanism: Option<string>, text: Option<CString>, bind: Option<Option<string>>)

  datatype ParserEvent = OnOpen(open: StreamOpen) | OnElement(element: Element) | OnEnd

  const TLS_NS := "urn:ietf:params:xml:ns:xmpp-tls"
  const SM_NS := "urn:xmpp:sm:3"
  const STREAM_NS := "http://etherx.jabber.org/streams"

  // ------------------------------------------------------- reading an element

  predicate IsAuth(e: Element) { e.name == "auth" }
  predicate IsStarttls(e: Element) { e.name == "starttls" }
  predicate InTlsNs(e: Element) { e.ns == Some(TLS_NS) }
  predicate InSmNs(e: Element) { e.ns == Some(SM_NS) }
  predicate IsBindRequest(e: Element) { e.kind == Some("set") && e.bind.Some? }
  predicate IsStanza(e: Element) { e.name in {"iq", "presence", "message"} }

  datatype Mechanism = NoMechanism | Plain | Scram | Unsupported

  function MechanismOf(e: Element): Mechanism {
    match e.mechanism
    case None => NoMechanism
    case Some(m) => if m == "PLAIN" then Plain else if m == "SCRAM-SHA-256" then Scram else Unsupported
  }

  datatype SmElement = SmEnable | SmAck | SmFailed | SmOther

  function SmElementOf(e: Element): SmElement {
    if e.name == "enable" then SmEnable else if e.name == "a" then SmAck
    else if e.name == "failed" then SmFailed else SmOther
  }

  /** The resource a bind asks for; "" asks for a generated one. */
  function Wanted(e: Element): string {
    if e.bind.Some? && e.bind.value.Some? then e.bind.value.value else ""
  }

  // ------------------------------------------------------------- the session

  predicate Ending(p: Phase) {
    p == Closing || p == Closed
  }

  /** One closing tag goes out if its write succeeds. */
  ghost function WithClosingTag(s: Session, env: Env): Session {
    if env.closing then s.(history := s.history.(closes := s.history.closes + 1)) else s
  }

  ghost function Marked(s: Session, m: Milestone): Session {
    s.(history := s.history.(path := s.history.path + [m]))
  }

  /** send_stream_error: the closing tag only outside CLOSING and CLOSED, and
      only a successful one moves to CLOSING. */
  ghost function StreamError(s: Session, env: Env): Session {
    if Ending(s.phase) || !env.closing then s.(pendingError := true)
    else WithClosingTag(s, env).(phase := Closing, pendingError := true)
  }

  /** send_stream_error followed by the caller's forced CLOSING. */
  ghost function Violation(s: Session, env: Env): Session {
    StreamError(s, env).(phase := Closing, pendingError := true)
  }

  /** A failure element and a closing tag in one write, then `phase`. */
  ghost function FailureThen(s: Session, phase: Phase, env: Env): Session {
    WithClosingTag(s, env).(phase := phase, pendingError := true)
  }

  function NewDomain(current: string, to: Option<string>): string {
    var d := if to.Some? && |to.value| < DOMAIN_BUF_SIZE then to.value else current;
    if d == "" then "localhost" else d
  }

  predicate ValidOpen(o: StreamOpen) {
    o.name == "stream" && o.clientNs == "jabber:client" && o.streamNs == STREAM_NS && o.version == Some("1.0")
  }

  /** A stream (re)start: the features decide whether the stable phase is reached. */
  ghost function Enter(s: Session, transient: Phase, stable: Phase, m: Milestone, env: Env): Session {
    if env.features then Marked(s, m).(phase := stable) else s.(phase := transient, pendingError := true)
  }

  /** A well-formed header was answered: the transition it makes. */
  ghost function Started(s: Session, env: Env): Session {
    match s.phase
    case ConnectedTcp => Enter(s, StreamOpened, FeaturesReceived, Opened, env)
    case TlsNegotiated => Enter(s, RestartedPostTls, FeaturesPostTls, RestartedTls, env)
    case StarttlsSent => Enter(s, RestartedPostTls, FeaturesPostTls, RestartedTls, env)
    case SaslSuccess => Enter(s, RestartedPostSasl, Bound, RestartedSasl, env)
    case _ => s.(pendingError := true)
  }

  ghost function StreamStart(s: Session, o: StreamOpen, env: Env): Session {
    if !ValidOpen(o) then StreamError(s, env) else
      var s' := s.(domain := NewDomain(s.domain, o.to));
      if env.header then Started(s', env) else s'.(pendingError := true)
  }

  ghost function StreamEnd(s: Session, env: Env): Session {
    if Ending(s.phase) then s else WithClosingTag(s, env).(phase := Closing)
  }

  ghost function BeforeTls(s: Session, e: Element, env: Env): Session {
    if IsAuth(e) then
      if MechanismOf(e) == Plain then Violation(s, env) else FailureThen(s, Closed, env)
    else if !IsStarttls(e) then Violation(s, env)
    else if !InTlsNs(e) then FailureThen(s, Closing, env)
    else Marked(s, StartTls).(starttlsProceed := true, phase := StarttlsSent)
  }

  /** One evaluated handler call. */
  ghost function Called(s: Session): Session {
    s.(history := s.history.(calls := s.history.calls + 1))
  }

  ghost function Success(s: Session, ev: Evidence): Session {
    var s' := Marked(s, Authenticated);
    s'.(parserReset := true, phase := SaslSuccess, history := s'.history.(granted := Some(ev)))
  }

  /** A retryable failure: back to the restart, or CLOSING on the third. */
  ghost function Retried(s: Session): Session {
    var s' := s.(failedAuth := s.failedAuth + 1, history := s.history.(retries := s.history.retries + 1));
    if s'.failedAuth >= 3 then s' else Marked(s', Refused).(parserReset := true, phase := TlsNegotiated)
  }

  ghost function AuthPlain(s: Session, text: CString, env: Env): Session {
    var o := PlainOutcome(env.users, s.domain, Decode(text));
    var s' := Called(s).(authcid := if o.authcid.Some? then o.authcid.value else s.authcid);
    match o.verdict
    case Granted => Success(s', ByPlain(env.users, s.domain, Decode(text)))
    case Terminal => Violation(s', env)
    case Retry => if s.failedAuth + 1 >= 3 then Violation(Retried(s'), env) else Retried(s')
  }

  ghost function ScramStep1(s: Session, env: Env): Session {
    match env.scramFirst
    case Challenge(user) => Marked(s, Challenged).(phase := SaslNegotiating, scramUser := user)
    case FirstTerminal => Violation(s.(failedAuth := s.failedAuth + 1), env)
  }

  ghost function ScramStep2(s: Session, env: Env): Session {
    match env.scramFinal
    case FinalGranted => Success(s.(authcid := Cut(s.scramUser, AUTHCID_BUF_SIZE)), ByScram(s.scramUser))
    case FinalTerminal => Violation(s.(failedAuth := s.failedAuth + 1), env)
    case FinalRetry => if s.failedAuth + 1 >= 3 then Retried(s).(phase := Closing) else Retried(s)
  }

  /** An element without text hands an empty message to either step, which
      answers -2. */
  predicate Silent(text: Option<CString>) {
    text.None? || text.value == ""
  }

  ghost function AuthScram(s: Session, text: Option<CString>, env: Env): Session {
    if Silent(text) then Violation(Called(s).(failedAuth := s.failedAuth + 1), env)
    else if s.phase == SaslNegotiating then ScramStep2(Called(s), env)
    else ScramStep1(Called(s), env)
  }

  ghost function Authenticating(s: Session, e: Element, env: Env): Session {
    if !IsAuth(e) then Violation(s, env)
    else match MechanismOf(e)
      case Plain => (match e.text case None => s.(pendingError := true) case Some(text) => AuthPlain(s, text, env))
      case Scram => AuthScram(s, e.text, env)
      case _ => FailureThen(s, Closed, env)
  }

  /** A stream error and a closing tag without leaving the phase. */
  ghost function SmError(s: Session, env: Env): Session {
    var s' := WithClosingTag(s, env);
    s'.(pendingError := true, history := s'.history.(smCloses := s.history.smCloses + 1))
  }

  /** Stream management: a second enable and a too high count are errors. */
  ghost function StreamManagement(s: Session, e: Element, env: Env): Session {
    match SmElementOf(e)
    case SmEnable => if s.phase != Bound then s else if s.smEnabled then SmError(s, env) else s.(smEnabled := true)
    case SmAck => if s.phase == Online && s.smEnabled && env.ackTooHigh then SmError(s, env) else s
    case SmFailed => s.(smEnabled := false)
    case SmOther => s
  }

  function JoinJid(authcid: string, domain: string, resource: string): string {
    authcid + "@" + domain + "/" + resource
  }

  ghost function BoundAs(s: Session, resource: string): Session {
    s.(resource := resource, boundJid := Cut(JoinJid(s.authcid, s.domain, resource), JID_BUF_SIZE))
  }

  ghost function Binding(s: Session, e: Element, env: Env): Session {
    if InSmNs(e) then StreamManagement(s, e, env)
    else if !IsBindRequest(e) then Violation(s, env)
    else if Wanted(e) != "" && !ValidResource(Wanted(e)) then (if env.replyFits then s else s.(pendingError := true))
    else
      var s' := BoundAs(s, Cut(if Wanted(e) != "" then Wanted(e) else env.generated, 1024));
      if !env.replyFits then s'.(pendingError := true) else Marked(s', BoundTo).(phase := Online)
  }

  ghost function OnStanza(s: Session, e: Element, env: Env): Session {
    match s.phase
    case FeaturesReceived => BeforeTls(s, e, env)
    case FeaturesPostTls => Authenticating(s, e, env)
    case SaslNegotiating => Authenticating(s, e, env)
    case Bound => Binding(s, e, env)
    case Online => if !IsStanza(e) && InSmNs(e) then StreamManagement(s, e, env) else s
    case _ => s
  }

  /** The parser passes an event on only where an instance can emit it. */
  predicate Emits(p: ParserPhase, ev: ParserEvent) {
    if ev.OnOpen? then p == Fresh else p == Inside
  }

  ghost function Handle(s: Session, ev: ParserEvent, env: Env): Session {
    if !Emits(s.parser, ev) then s else
      match ev
      case OnOpen(o) => StreamStart(s.(parser := Inside), o, env)
      case OnElement(e) => OnStanza(s, e, env)
      case OnEnd => StreamEnd(s.(parser := Ended), env)
  }

  // ------------------------------------------------------------ the feeding

  /** One buffer handed to xmpp_feed: its events, and whether it parses. */
  datatype Chunk = Chunk(events: seq<(ParserEvent, Env)>, wellFormed: bool, env: Env)

  ghost function HandleAll(s: Session, evs: seq<(ParserEvent, Env)>): Session {
    if evs == [] then s else
      var (ev, env) := evs[|evs| - 1];
      Handle(HandleAll(s, evs[..|evs| - 1]), ev, env)
  }

  /** The parser is recreated at the start of a feed when a flag asks for it. */
  ghost function Prepared(s: Session): Session {
    s.(pendingError := false, parserReset := false, starttlsProceed := false,
       parser := if s.parserReset || s.starttlsProceed then Fresh else s.parser)
  }

  ghost function Feed(s: Session, c: Chunk): Session {
    var s' := HandleAll(Prepared(s), c.events);
    if c.wellFormed then s' else StreamError(s', c.env)
  }

  /** xmpp_feed returns -1. */
  ghost predicate Rejects(s: Session, c: Chunk) {
    !c.wellFormed || HandleAll(Prepared(s), c.events).pendingError
  }

  ghost function FeedAll(s: Session, chunks: seq<Chunk>): Session {
    if chunks == [] then s else Feed(FeedAll(s, chunks[..|chunks| - 1]), chunks[|chunks| - 1])
  }

  // --------------------------------------------------------- the connection

  datatype Conn = Conn(session: Session, isTls: bool, hsDone: bool, open: bool)

  const InitialConn := Conn(InitialSession, false, false, true)

  datatype Handshake = WantMore | Failed | Done

  /** One read callback. `plain` and `tlsReady` matter on the plaintext path;
      the rest on the TLS path: buffer overflow, the handshake's answer, the
      decrypted buffers, whether the peer said goodbye, and what a drain still
      finds. */
  datatype Input =
    | Read(plain: Chunk, tlsReady: bool, overflow: bool, handshake: Handshake,
           chunks: seq<Chunk>, goodbye: bool, rest: seq<Chunk>)
    | Hangup(rest: seq<Chunk>)

  /** close_conn: drain what TLS still holds, then close. */
  ghost function CloseConn(c: Conn, rest: seq<Chunk>): Conn {
    c.(open := false, session := if c.isTls && c.hsDone then FeedAll(c.session, rest) else c.session)
  }

  ghost function Decrypted(c: Conn, chunks: seq<Chunk>, goodbye: bool, rest: seq<Chunk>): Conn
    decreases |chunks|
  {
    if chunks == [] then (if goodbye then CloseConn(c, rest) else c)
    else
      var c' := c.(session := Feed(c.session, chunks[0]));
      if Rejects(c.session, chunks[0]) then CloseConn(c', rest) else Decrypted(c', chunks[1..], goodbye, rest)
  }

  /** Handshake completion: the state is set whatever it was. */
  ghost function Secured(c: Conn): Conn {
    var s := Marked(c.session, Handshook);
    c.(hsDone := true,
       session := s.(phase := TlsNegotiated, parserReset := true,
                     history := s.history.(revived := c.session.phase != StarttlsSent)))
  }

  ghost function PlainRead(c: Conn, chunk: Chunk, tlsReady: bool): Conn {
    var c' := c.(session := Feed(c.session, chunk));
    if Rejects(c.session, chunk) then c'.(open := false)
    else if !c'.session.starttlsProceed then c'
    else
      var c'' := c'.(session := c'.session.(starttlsProceed := false));
      if tlsReady then c''.(isTls := true, hsDone := false) else c''.(open := false)
  }

  ghost function TlsRead(c: Conn, i: Input): Conn
    requires i.Read?
  {
    if i.overflow then CloseConn(c, i.rest)
    else if c.hsDone then Decrypted(c, i.chunks, i.goodbye, i.rest)
    else match i.handshake
      case WantMore => c
      case Failed => CloseConn(c, i.rest)
      case Done => Decrypted(Secured(c), i.chunks, i.goodbye, i.rest)
  }

  /** read_cb on an open connection. */
  ghost function Step(c: Conn, i: Input): Conn {
    if !c.open then c else
      match i
      case Hangup(rest) => CloseConn(c, rest)
      case Read(plain, tlsReady, _, _, _, _, _) => if c.isTls then TlsRead(c, i) else PlainRead(c, plain, tlsReady)
  }

  ghost function RunConn(inputs: seq<Input>): Conn {
    if inputs == [] then InitialConn else Step(RunConn(inputs[..|inputs| - 1]), inputs[|inputs| - 1])
  }
}
