/** One proxied session as a step system. Its three goroutines (the service goroutine, the
    request relay and the response relay) take turns in any order; each atomic load or store,
    lock region, channel operation and socket write is one step.

    A label carries what the environment decides: the message received, the handler's answer,
    whether a write works. Idle time-outs and forced closes are failing reads and writes, which
    may happen at any moment. The histories at the end of the state are never read by a step. */
module Session {
  import opened Basics
  import opened Startup
  import Acl

  // ---------------------------------------------------------------- messages

  datatype AuthType = AuthOk | Cleartext | MD5 | SASL | SASLContinue | SASLFinal | GSS | GSSContinue

  /** Client to backend. A reply to an authentication request is decoded as one type or another. */
  datatype FrontMsg =
    | Query(text: string)
    | Parse(name: string, text: string, oids: seq<nat>)
    | Sync
    | FunctionCall(tag: nat)
    | Terminate
    | AuthReply(payload: string, decodedAs: AuthType)
    | OtherFront(tag: nat)

  /** Backend to client. `tx` is the transaction status 'I', 'T' or 'E'. */
  datatype BackMsg = AuthRequest(at: AuthType) | KeyData(key: CancelKey) | Ready(tx: char) | OtherBack(tag: nat)

  /** What the client is sent: relayed messages and the proxy's own. */
  datatype ClientOut =
    | Negotiation(answer: char)
    | Fatal(code: string)
    | Relayed(m: BackMsg)
    | Refusal(text: string)
    | SynthReady(tx: char)

  /** The handler's answer: an error, nil, or bytes. */
  datatype HandlerResult = Refused(reason: string) | Unchanged | NewText(text: string)

  /** `runHandler` and `applyFrontendHandler`: the message to forward, or None if refused. */
  function ApplyHandler(m: FrontMsg, r: HandlerResult): Option<FrontMsg> {
    if !m.Query? && !m.Parse? then Some(m)
    else
      match r
      case Refused(_) => None
      case Unchanged => Some(m)
      case NewText(t) => Some(m.(text := t))
  }

  function RefusalText(reason: string): string {
    "handler error: " + reason
  }

  datatype Decision = Decision(msg: FrontMsg, result: HandlerResult)

  datatype ErrKind =
    | StartupError | DatabaseRejected | UserRejected | DatabaseUnknown | ConnectFailed
    | ClientClosed | ClientIdle | ClientReadFailed | BackendWriteFailed
    | BackendClosed | BackendReadFailed | ClientWriteFailed

  datatype RegistryEntry = RegistryEntry(target: Target, secret: Secret)

  // ---------------------------------------------------------------- state

  datatype ServicePc =
    | Reading
    | Deciding(sm: StartupMessage)
    | Rejecting(code: string, kind: ErrKind)
    | ServiceFailing(kind: ErrKind)
    | Connecting(db: DBConfig)
    | CountingConnectError
    | Waiting
    | LoadingKey
    | DeletingKey(key: CancelKey)
    | ClosingBackend
    | LookingUp(key: CancelKey)
    | DialingCancel(target: Target, key: CancelKey)
    | SendingCancel(target: Target, key: CancelKey)
    | ClosingClient
    | DeletingSession
    | CountingDown
    | ReleasingGroup
    | Gone

  datatype RequestPc =
    | Draining
    | Receiving
    | Handling(m: FrontMsg)
    | Counting(m: FrontMsg, reason: string)
    | Refusing(m: FrontMsg, reason: string)
    | LoadingStatus
    | SendingReady(tx: char)
    | Forwarding(m: FrontMsg)
    | RequestFailing(kind: ErrKind)
    | RequestDone

  datatype ResponsePc =
    | Listening
    | SendingAuth(at: AuthType)
    | StoringRegistry(key: CancelKey)
    | StoringKey(key: CancelKey)
    | StoringStatus(tx: char)
    | Relaying(m: BackMsg)
    | ResponseFailing(kind: ErrKind)
    | ResponseDone

  /** The client connection: what was written up to the first write that failed. */
  datatype Stream = Stream(out: seq<ClientOut>, broken: bool)

  /** `errOnce` and `errsig`. `closes` counts the closes, `calls` lists the calls of `err`. */
  datatype Signal = Signal(closed: bool, report: Option<ErrKind>, closes: nat, calls: seq<ErrKind>)

  /** `authTypeCh` (`chan`), the type that the decoder was last set to, and, as histories, all
      types ever sent and how many of them were taken. */
  datatype AuthPipe = AuthPipe(chan: seq<AuthType>, held: AuthType, sent: seq<AuthType>, taken: nat)

  const AUTH_CHANNEL_CAPACITY := 4

  /** What the goroutines share. `spawned`: the two relays have been started. */
  datatype Shared = Shared(
    spawned: bool,
    client: Stream,
    signal: Signal,
    auth: AuthPipe,
    lastTx: char,
    registered: Option<CancelKey>)

  /** The service goroutine; then, as histories, whom it dialled for what, the key that its
      teardown found, and the cancel request it passed on. */
  datatype ServiceSide = ServiceSide(
    pc: ServicePc,
    dialled: Option<(StartupMessage, DBConfig)>,
    loaded: Option<CancelKey>,
    cancelled: Option<(Target, CancelKey)>,
    mismatched: bool)

  /** The request relay; then, as histories, the messages received, the handler's decisions, the
      messages written to the backend, and the refusals counted. */
  datatype RequestSide = RequestSide(
    pc: RequestPc,
    received: seq<FrontMsg>,
    decided: seq<Decision>,
    toBackend: seq<FrontMsg>,
    broken: bool,
    blocked: nat)

  /** The response relay; then, as histories, the messages received and the keys registered. */
  datatype ResponseSide = ResponseSide(pc: ResponsePc, fromBackend: seq<BackMsg>, stored: seq<CancelKey>)

  datatype Session = Session(svc: ServiceSide, req: RequestSide, resp: ResponseSide, shared: Shared)

  const FRESH_SERVICE := ServiceSide(Reading, None, None, None, false)
  const FRESH_REQUEST := RequestSide(Draining, [], [], [], false, 0)
  const FRESH_RESPONSE := ResponseSide(Listening, [], [])
  const FRESH_SHARED :=
    Shared(false, Stream([], false), Signal(false, None, 0, []), AuthPipe([], AuthOk, [], 0), 'I', None)

  /** A session as `Start` creates it, with last status 'I'. */
  const FRESH := Session(FRESH_SERVICE, FRESH_REQUEST, FRESH_RESPONSE, FRESH_SHARED)

  /** What `Start` was given. */
  datatype Config = Config(acl: Option<Acl.CompiledACL>, dbs: map<string, DBConfig>)

  // ---------------------------------------------------------------- labels

  datatype ServiceLabel =
    | Negotiate(answer: char, ok: bool)
    | StartupFails
    | StartupArrives(sm: StartupMessage)
    | CancelArrives(key: CancelKey)
    | Decide
    | SendFatal(ok: bool)
    | ReportService
    | Connect(ok: bool)
    | CountConnectError
    | PassWait
    | LoadKey
    | DeleteKey
    | CloseBackend
    | LookUp(found: Option<RegistryEntry>)
    | DialCancel(ok: bool)
    | SendCancel(ok: bool)
    | CloseClient
    | DeleteSession
    | CountDown
    | ReleaseGroup

  datatype RequestLabel =
    | TakeAuth
    | FindEmpty
    | Receive(m: FrontMsg)
    | ReceiveFails(kind: ErrKind)
    | Handle(r: HandlerResult)
    | CountBlocked
    | SendRefusal(ok: bool)
    | LoadStatus
    | SendReady(ok: bool)
    | Forward(ok: bool)
    | ReportRequest

  datatype ResponseLabel =
    | Hear(m: BackMsg)
    | HearFails(kind: ErrKind)
    | SendAuth
    | StoreRegistry
    | StoreKey
    | StoreStatus
    | Relay(ok: bool)
    | ReportResponse

  datatype Label = Service(s: ServiceLabel) | Request(q: RequestLabel) | Response(p: ResponseLabel)

  // ---------------------------------------------------------------- shared operations

  /** A lock region that writes one message to the client. */
  function Write(c: Stream, x: ClientOut, ok: bool): Stream {
    if c.broken then c
    else if ok then c.(out := c.out + [x])
    else c.(broken := true)
  }

  /** `Proxy.err`: only the first call reports and closes. */
  function CallErr(e: Signal, kind: ErrKind): Signal {
    if e.closed then e.(calls := e.calls + [kind])
    else Signal(true, Some(kind), e.closes + 1, e.calls + [kind])
  }

  /** What a step of one goroutine leaves: its own side and the shared part. */
  datatype After<S> = After(side: S, shared: Shared)

  // ---------------------------------------------------------------- service goroutine

  /** `serviceStartup` up to the dial: database list, user list, configured databases. */
  function Decided(cfg: Config, sm: StartupMessage): ServicePc {
    var database := Param(sm, "database");
    if !Acl.DatabaseOK(cfg.acl, database) then Rejecting("42501", DatabaseRejected)
    else if !Acl.UserOK(cfg.acl, Param(sm, "user")) then Rejecting("42501", UserRejected)
    else if database !in cfg.dbs then Rejecting("3D000", DatabaseUnknown)
    else Connecting(cfg.dbs[database])
  }

  /** A step that only moves the service goroutine on, taken at the right point. */
  function Move(at: bool, v: ServiceSide, sh: Shared, pc: ServicePc): Option<After<ServiceSide>> {
    if at then Some(After(v.(pc := pc), sh)) else None
  }

  function ServiceStep(cfg: Config, v: ServiceSide, sh: Shared, l: ServiceLabel): Option<After<ServiceSide>> {
    match l
    case Negotiate(c, ok) =>
      if !v.pc.Reading? then None
      else Some(After(v.(pc := if ok then Reading else ServiceFailing(StartupError)),
                      sh.(client := Write(sh.client, Negotiation(c), ok))))
    case StartupFails => Move(v.pc.Reading?, v, sh, ServiceFailing(StartupError))
    case StartupArrives(sm) => Move(v.pc.Reading?, v, sh, Deciding(sm))
    case CancelArrives(key) => Move(v.pc.Reading?, v, sh, LookingUp(key))
    case Decide =>
      if !v.pc.Deciding? then None
      else
        var next := Decided(cfg, v.pc.sm);
        Some(After(v.(pc := next, dialled := if next.Connecting? then Some((v.pc.sm, next.db)) else None), sh))
    case SendFatal(ok) =>
      if !v.pc.Rejecting? then None
      else Some(After(v.(pc := ServiceFailing(v.pc.kind)), sh.(client := Write(sh.client, Fatal(v.pc.code), ok))))
    case ReportService =>
      if !v.pc.ServiceFailing? then None
      else Some(After(v.(pc := ClosingClient), sh.(signal := CallErr(sh.signal, v.pc.kind))))
    case Connect(ok) =>
      if !v.pc.Connecting? then None
      else if ok then Some(After(v.(pc := Waiting), sh.(spawned := true)))
      else Some(After(v.(pc := CountingConnectError), sh))
    case CountConnectError => Move(v.pc.CountingConnectError?, v, sh, Rejecting("08006", ConnectFailed))
    case PassWait => Move(v.pc.Waiting? && sh.signal.closed, v, sh, LoadingKey)
    case LoadKey =>
      var found := sh.registered;
      Move(v.pc.LoadingKey?, v.(loaded := found), sh, if found.Some? then DeletingKey(found.value) else ClosingBackend)
    case DeleteKey => Move(v.pc.DeletingKey?, v, sh, ClosingBackend)
    case CloseBackend => Move(v.pc.ClosingBackend?, v, sh, ClosingClient)
    case LookUp(found) =>
      if !v.pc.LookingUp? then None
      else if found.None? then Some(After(v.(pc := ClosingClient), sh))
      else if found.value.secret != v.pc.key.secret then Some(After(v.(pc := ClosingClient, mismatched := true), sh))
      else Some(After(v.(pc := DialingCancel(found.value.target, v.pc.key)), sh))
    case DialCancel(ok) =>
      if !v.pc.DialingCancel? then None
      else Some(After(v.(pc := if ok then SendingCancel(v.pc.target, v.pc.key) else ClosingClient), sh))
    case SendCancel(ok) =>
      if !v.pc.SendingCancel? then None
      else Some(After(v.(pc := ClosingClient, cancelled := if ok then Some((v.pc.target, v.pc.key)) else None), sh))
    case CloseClient => Move(v.pc.ClosingClient?, v, sh, DeletingSession)
    case DeleteSession => Move(v.pc.DeletingSession?, v, sh, CountingDown)
    case CountDown => Move(v.pc.CountingDown?, v, sh, ReleasingGroup)
    case ReleaseGroup => Move(v.pc.ReleasingGroup?, v, sh, Gone)
  }

  // ---------------------------------------------------------------- request relay

  /** The decoder interprets the client's reply by the type it was last set to. */
  function Decode(m: FrontMsg, held: AuthType): FrontMsg {
    if m.AuthReply? then m.(decodedAs := held) else m
  }

  function RequestStep(q: RequestSide, sh: Shared, l: RequestLabel): Option<After<RequestSide>> {
    if !sh.spawned then None
    else
      match l
      case TakeAuth =>
        if !q.pc.Draining? || sh.auth.chan == [] then None
        else
          var a := sh.auth;
          Some(After(q, sh.(auth := a.(chan := a.chan[1..], held := a.chan[0], taken := a.taken + 1))))
      case FindEmpty =>
        if q.pc.Draining? && sh.auth.chan == [] then Some(After(q.(pc := Receiving), sh)) else None
      case Receive(m) =>
        if !q.pc.Receiving? then None
        else
          var d := Decode(m, sh.auth.held);
          Some(After(q.(pc := Handling(d), received := q.received + [d]), sh))
      case ReceiveFails(kind) => if q.pc.Receiving? then Some(After(q.(pc := RequestFailing(kind)), sh)) else None
      case Handle(r) =>
        if !q.pc.Handling? then None
        else
          var out := ApplyHandler(q.pc.m, r);
          Some(After(q.(pc := if out.Some? then Forwarding(out.value) else Counting(q.pc.m, r.reason),
                        decided := q.decided + [Decision(q.pc.m, r)]), sh))
      case CountBlocked =>
        if !q.pc.Counting? then None
        else Some(After(q.(pc := Refusing(q.pc.m, q.pc.reason), blocked := q.blocked + 1), sh))
      case SendRefusal(ok) =>
        if !q.pc.Refusing? then None
        else Some(After(q.(pc := if q.pc.m.Query? then LoadingStatus else Draining),
                        sh.(client := Write(sh.client, Refusal(RefusalText(q.pc.reason)), ok))))
      case LoadStatus => if q.pc.LoadingStatus? then Some(After(q.(pc := SendingReady(sh.lastTx)), sh)) else None
      case SendReady(ok) =>
        if !q.pc.SendingReady? then None
        else Some(After(q.(pc := Draining), sh.(client := Write(sh.client, SynthReady(q.pc.tx), ok))))
      case Forward(ok) =>
        if !q.pc.Forwarding? then None
        else if ok then
          Some(After(q.(pc := if q.pc.m.Terminate? then RequestDone else Draining,
                        toBackend := q.toBackend + [q.pc.m]), sh))
        else Some(After(q.(pc := RequestFailing(BackendWriteFailed), broken := true), sh))
      case ReportRequest =>
        if !q.pc.RequestFailing? then None
        else Some(After(q.(pc := RequestDone), sh.(signal := CallErr(sh.signal, q.pc.kind))))
  }

  // ---------------------------------------------------------------- response relay

  function Classify(m: BackMsg): ResponsePc {
    match m
    case AuthRequest(at) => if at.AuthOk? then Relaying(m) else SendingAuth(at)
    case KeyData(key) => StoringRegistry(key)
    case Ready(tx) => StoringStatus(tx)
    case OtherBack(_) => Relaying(m)
  }

  function ResponseStep(p: ResponseSide, sh: Shared, l: ResponseLabel): Option<After<ResponseSide>> {
    if !sh.spawned then None
    else
      match l
      case Hear(m) =>
        if !p.pc.Listening? then None
        else Some(After(p.(pc := Classify(m), fromBackend := p.fromBackend + [m]), sh))
      case HearFails(kind) => if p.pc.Listening? then Some(After(p.(pc := ResponseFailing(kind)), sh)) else None
      case SendAuth =>
        if !p.pc.SendingAuth? || |sh.auth.chan| >= AUTH_CHANNEL_CAPACITY then None
        else
          var a := sh.auth;
          Some(After(p.(pc := Relaying(AuthRequest(p.pc.at))),
                     sh.(auth := a.(chan := a.chan + [p.pc.at], sent := a.sent + [p.pc.at]))))
      case StoreRegistry =>
        if !p.pc.StoringRegistry? then None
        else Some(After(p.(pc := StoringKey(p.pc.key), stored := p.stored + [p.pc.key]), sh))
      case StoreKey =>
        if !p.pc.StoringKey? then None
        else Some(After(p.(pc := Relaying(KeyData(p.pc.key))), sh.(registered := Some(p.pc.key))))
      case StoreStatus =>
        if p.pc.StoringStatus? then Some(After(p.(pc := Relaying(Ready(p.pc.tx))), sh.(lastTx := p.pc.tx))) else None
      case Relay(ok) =>
        if !p.pc.Relaying? then None
        else Some(After(p.(pc := if ok then Listening else ResponseFailing(ClientWriteFailed)),
                        sh.(client := Write(sh.client, Relayed(p.pc.m), ok))))
      case ReportResponse =>
        if !p.pc.ResponseFailing? then None
        else Some(After(p.(pc := ResponseDone), sh.(signal := CallErr(sh.signal, p.pc.kind))))
  }

  // ---------------------------------------------------------------- runs

  /** One step, if it is enabled. */
  function Step(cfg: Config, s: Session, l: Label): Option<Session> {
    match l
    case Service(x) =>
      var r := ServiceStep(cfg, s.svc, s.shared, x);
      if r.None? then None else Some(s.(svc := r.value.side, shared := r.value.shared))
    case Request(x) =>
      var r := RequestStep(s.req, s.shared, x);
      if r.None? then None else Some(s.(req := r.value.side, shared := r.value.shared))
    case Response(x) =>
      var r := ResponseStep(s.resp, s.shared, x);
      if r.None? then None else Some(s.(resp := r.value.side, shared := r.value.shared))
  }

  /** The session after a schedule; None if some step of it was not enabled. */
  function Run(cfg: Config, ls: seq<Label>): Option<Session> {
    if ls == [] then Some(FRESH)
    else
      var before := Run(cfg, ls[..|ls|-1]);
      if before.None? then None else Step(cfg, before.value, ls[|ls|-1])
  }

  /** A schedule taken one step further. */
  lemma RunSnoc(cfg: Config, ls: seq<Label>, l: Label, s: Session)
    requires Run(cfg, ls) == Some(s)
    ensures Run(cfg, ls + [l]) == Step(cfg, s, l)
  {
    assert (ls + [l])[..|ls|] == ls;
  }
}
