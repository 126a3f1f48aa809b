/** The proxy as a whole: the accept loop, `stop`, every session, and what they share, as one
    step system. The steps of different goroutines interleave in any order. */
module Gateway {
  import opened Basics
  import opened Startup
  import Acl
  import S = Session

  type Id = nat

  /** What `Start` was given. `cap` at most 0 means no limit. */
  datatype Config = Config(session: S.Config, net: Acl.NetParsers, cap: int)

  // ---------------------------------------------------------------- state

  datatype AcceptPc =
    | Accepting
    | Numbered(id: Id, remote: string)
    | CheckingAddr(id: Id, remote: string)
    | CountingAclReject
    | CheckingCap(id: Id, remote: string)
    | CountingCapReject
    | TurningAway(code: string)
    | StoringSession(id: Id)
    | CountingUp(id: Id)
    | AddingToGroup(id: Id)
    | Spawning(id: Id)
    | Leaving
    | Left

  /** The accept loop and what it shares with the sessions' exits: the `sessions` map, the
      connection counters and the WaitGroup. `passed` records the address that let each id in. */
  datatype Front = Front(
    pc: AcceptPc,
    lastId: Id,
    total: int,
    active: int,
    rejectedByAcl: int,
    rejectedByCap: int,
    sessions: set<Id>,
    group: int,
    passed: map<Id, string>)

  datatype StopPc = Running | Signalled | Draining | ForceClosing(left: set<Id>) | AwaitingDrain | Stopped

  /** `stop`, its waiter goroutine, and whose client connections were closed by force. */
  datatype Stopper = Stopper(pc: StopPc, stopping: bool, listenerClosed: bool, drained: bool, forced: set<Id>)

  /** A change of the cancel registry, by the session that made it. */
  datatype Event = Registered(id: Id, key: CancelKey, target: Target) | Removed(id: Id, key: CancelKey)

  /** `cancelRegistry`, and the history of its changes. */
  datatype Registry = Registry(entries: map<CancelKey, S.RegistryEntry>, log: seq<Event>)

  datatype Meters = Meters(blocked: int, connectErrors: int)

  datatype State = State(front: Front, stop: Stopper, registry: Registry, meters: Meters, procs: map<Id, S.Session>)

  /** Right after `Start`: the accept loop is in the WaitGroup. */
  const INITIAL := State(
    Front(Accepting, 0, 0, 0, 0, 0, {}, 1, map[]),
    Stopper(Running, false, false, false, {}),
    Registry(map[], []), Meters(0, 0), map[])

  // ---------------------------------------------------------------- labels

  datatype AcceptLabel =
    | TakeConnection(remote: string)
    | AcceptError
    | CountTotal
    | CheckAddr
    | CountAclReject
    | CheckCap
    | CountCapReject
    | TurnAway
    | StoreSession
    | CountUp
    | AddToGroup
    | Spawn
    | Leave

  datatype StopLabel =
    | CloseStopping
    | CloseListener
    | WaiterReturns
    | SeeDrained
    | TimeOut
    | ForceClose(id: Id)
    | RangeEnds

  datatype Label = Accept(a: AcceptLabel) | Stop(s: StopLabel) | At(id: Id, l: S.Label)

  // ---------------------------------------------------------------- the accept loop

  function Go(f: Front, pc: AcceptPc): Option<Front> {
    Some(f.(pc := pc))
  }

  function AcceptStep(cfg: Config, f: Front, st: Stopper, l: AcceptLabel): Option<Front> {
    match l
    case TakeConnection(remote) =>
      if !f.pc.Accepting? || st.listenerClosed then None
      else Some(f.(pc := Numbered(f.lastId + 1, remote), lastId := f.lastId + 1))
    case AcceptError => if !f.pc.Accepting? then None else Go(f, if st.stopping then Leaving else Accepting)
    case CountTotal =>
      if f.pc.Numbered? then Some(f.(pc := CheckingAddr(f.pc.id, f.pc.remote), total := f.total + 1)) else None
    case CheckAddr =>
      if !f.pc.CheckingAddr? then None
      else if Acl.AddrOK(cfg.net, cfg.session.acl, f.pc.remote) then Go(f, CheckingCap(f.pc.id, f.pc.remote))
      else Go(f, CountingAclReject)
    case CountAclReject =>
      if !f.pc.CountingAclReject? then None
      else Some(f.(pc := TurningAway("28000"), rejectedByAcl := f.rejectedByAcl + 1))
    case CheckCap =>
      if !f.pc.CheckingCap? then None
      else if cfg.cap > 0 && f.active >= cfg.cap then Go(f, CountingCapReject)
      else Some(f.(pc := StoringSession(f.pc.id), passed := f.passed[f.pc.id := f.pc.remote]))
    case CountCapReject =>
      if !f.pc.CountingCapReject? then None
      else Some(f.(pc := TurningAway("53300"), rejectedByCap := f.rejectedByCap + 1))
    case TurnAway => if f.pc.TurningAway? then Go(f, Accepting) else None
    case StoreSession =>
      if f.pc.StoringSession? then Some(f.(pc := CountingUp(f.pc.id), sessions := f.sessions + {f.pc.id})) else None
    case CountUp => if f.pc.CountingUp? then Some(f.(pc := AddingToGroup(f.pc.id), active := f.active + 1)) else None
    case AddToGroup => if f.pc.AddingToGroup? then Some(f.(pc := Spawning(f.pc.id), group := f.group + 1)) else None
    case Spawn => if f.pc.Spawning? then Go(f, Accepting) else None
    case Leave => if f.pc.Leaving? then Some(f.(pc := Left, group := f.group - 1)) else None
  }

  // ---------------------------------------------------------------- stop

  /** `Range` over the sessions map: it closes some that are there, and every one that was there
      when it began and still is. */
  function StopStep(st: Stopper, f: Front, l: StopLabel): Option<Stopper> {
    match l
    case CloseStopping => if st.pc.Running? then Some(st.(pc := Signalled, stopping := true)) else None
    case CloseListener => if st.pc.Signalled? then Some(st.(pc := Draining, listenerClosed := true)) else None
    case WaiterReturns =>
      if !st.pc.Running? && !st.pc.Signalled? && f.group == 0 then Some(st.(drained := true)) else None
    case SeeDrained =>
      if (st.pc.Draining? || st.pc.AwaitingDrain?) && st.drained then Some(st.(pc := Stopped)) else None
    case TimeOut => if st.pc.Draining? then Some(st.(pc := ForceClosing(f.sessions))) else None
    case ForceClose(id) =>
      if st.pc.ForceClosing? && id in f.sessions then
        Some(st.(pc := ForceClosing(st.pc.left - {id}), forced := st.forced + {id}))
      else None
    case RangeEnds =>
      if st.pc.ForceClosing? && st.pc.left * f.sessions == {} then Some(st.(pc := AwaitingDrain)) else None
  }

  // ---------------------------------------------------------------- a session's step, seen from outside

  /** The target a session dialled, or is dialling. */
  function TargetOf(s: S.Session): Option<Target> {
    if s.svc.dialled.Some? then Some(TargetFor(s.svc.dialled.value.1.addr)) else None
  }

  function LookUpEntry(r: Registry, key: CancelKey): Option<S.RegistryEntry> {
    if key in r.entries then Some(r.entries[key]) else None
  }

  /** A session finds in the registry what is there. */
  predicate Consistent(r: Registry, s: S.Session, l: S.Label) {
    l.Service? && l.s.LookUp? && s.svc.pc.LookingUp? ==> l.s.found == LookUpEntry(r, s.svc.pc.key)
  }

  /** A write that reaches the client. */
  predicate ReachesClient(l: S.Label) {
    match l
    case Service(Negotiate(_, ok)) => ok
    case Service(SendFatal(ok)) => ok
    case Request(SendRefusal(ok)) => ok
    case Request(SendReady(ok)) => ok
    case Response(Relay(ok)) => ok
    case _ => false
  }

  /** What a session finds outside itself: the registry as it is, and a connection that `stop` has
      closed, on which no write works. */
  predicate Fits(g: State, id: Id, s: S.Session, l: S.Label) {
    Consistent(g.registry, s, l) && (id in g.stop.forced ==> !ReachesClient(l))
  }

  function RegistryAfter(r: Registry, id: Id, s: S.Session, l: S.Label): Registry {
    if l.Response? && l.p.StoreRegistry? && s.resp.pc.StoringRegistry? && TargetOf(s).Some? then
      var key, target := s.resp.pc.key, TargetOf(s).value;
      Registry(r.entries[key := S.RegistryEntry(target, key.secret)], r.log + [Registered(id, key, target)])
    else if l.Service? && l.s.DeleteKey? && s.svc.pc.DeletingKey? then
      Registry(r.entries - {s.svc.pc.key}, r.log + [Removed(id, s.svc.pc.key)])
    else r
  }

  /** The deferred calls at the end of a session. */
  function FrontAfter(f: Front, id: Id, l: S.Label): Front {
    if !l.Service? then f
    else if l.s.DeleteSession? then f.(sessions := f.sessions - {id})
    else if l.s.CountDown? then f.(active := f.active - 1)
    else if l.s.ReleaseGroup? then f.(group := f.group - 1)
    else f
  }

  function MetersAfter(m: Meters, l: S.Label): Meters {
    if l.Request? && l.q.CountBlocked? then m.(blocked := m.blocked + 1)
    else if l.Service? && l.s.CountConnectError? then m.(connectErrors := m.connectErrors + 1)
    else m
  }

  // ---------------------------------------------------------------- runs

  function Step(cfg: Config, g: State, l: Label): Option<State> {
    match l
    case Accept(a) =>
      var f := AcceptStep(cfg, g.front, g.stop, a);
      if f.None? then None
      else Some(g.(front := f.value, procs := if a.Spawn? then g.procs[g.front.pc.id := S.FRESH] else g.procs))
    case Stop(x) =>
      var st := StopStep(g.stop, g.front, x);
      if st.None? then None else Some(g.(stop := st.value))
    case At(id, x) =>
      if id !in g.procs || !Fits(g, id, g.procs[id], x) then None
      else
        var s := S.Step(cfg.session, g.procs[id], x);
        if s.None? then None
        else Some(State(FrontAfter(g.front, id, x), g.stop, RegistryAfter(g.registry, id, g.procs[id], x),
                        MetersAfter(g.meters, x), g.procs[id := s.value]))
  }

  function Run(cfg: Config, ls: seq<Label>): Option<State> {
    if ls == [] then Some(INITIAL)
    else
      var before := Run(cfg, ls[..|ls|-1]);
      if before.None? then None else Step(cfg, before.value, ls[|ls|-1])
  }

  /** A schedule taken one step further. */
  lemma RunSnoc(cfg: Config, ls: seq<Label>, l: Label, g: State)
    requires Run(cfg, ls) == Some(g)
    ensures Run(cfg, ls + [l]) == Step(cfg, g, l)
  {
    assert (ls + [l])[..|ls|] == ls;
  }
}
