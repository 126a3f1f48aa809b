/** What closing a client's connection by force does to its session. `stop` takes it to be enough
    for the session to end; here is when it is, if nothing more comes from the backend.

    From then on no write to the client works, and nothing is read from either peer but what has
    been read ahead already: start-up packets, messages of the client, messages of the backend.
    Behind those, reads from the client fail, and reads from the backend wait unless it has hung up
    already. Writes to the backend may work or fail. Under these steps every schedule is finite, and
    the question is where it can stop. */
module Stranded {
  import opened Basics
  import opened Startup
  import opened Session
  import Drain
  import SessionSafety

  /** What is there without either peer: the packets that the start-up's decoder holds, how
      connecting to the backend comes out if it needs no more of the backend, what the relays'
      decoders hold, and whether the backend has closed its end behind that. */
  datatype Store = Store(
    opening: seq<Packet>,
    connects: Option<bool>,
    unread: seq<FrontMsg>,
    unheard: seq<BackMsg>,
    hungUp: bool)

  const NOTHING := Store([], None, [], [], false)

  /** A session cut off from both peers. */
  datatype Cut = Cut(s: Session, store: Store)

  predicate StartsWith<T(==)>(xs: seq<T>, x: T) {
    xs != [] && xs[0] == x
  }

  /** What needs neither a working write to the client nor anything more from a peer. A packet that
      asks for encryption is answered, which fails. */
  predicate ServicePossible(st: Store, x: ServiceLabel) {
    match x
    case Negotiate(_, ok) => !ok && st.opening != [] && (st.opening[0].SSLRequest? || st.opening[0].GSSEncRequest?)
    case StartupFails => st.opening == [] || st.opening[0].Broken?
    case StartupArrives(sm) => StartsWith(st.opening, StartUp(sm))
    case CancelArrives(key) => StartsWith(st.opening, Cancel(key))
    case SendFatal(ok) => !ok
    case Connect(ok) => st.connects == Some(ok)
    case _ => true
  }

  predicate RequestPossible(st: Store, x: RequestLabel) {
    match x
    case Receive(m) => StartsWith(st.unread, m)
    case ReceiveFails(_) => st.unread == []
    case SendRefusal(ok) => !ok
    case SendReady(ok) => !ok
    case _ => true
  }

  predicate ResponsePossible(st: Store, x: ResponseLabel) {
    match x
    case Hear(m) => StartsWith(st.unheard, m)
    case HearFails(_) => st.unheard == [] && st.hungUp
    case Relay(ok) => !ok
    case _ => true
  }

  predicate Possible(st: Store, l: Label) {
    match l
    case Service(x) => ServicePossible(st, x)
    case Request(x) => RequestPossible(st, x)
    case Response(x) => ResponsePossible(st, x)
  }

  function Drop<T>(xs: seq<T>): seq<T> {
    if xs == [] then [] else xs[1..]
  }

  /** What is left in store. */
  function Rest(st: Store, l: Label): Store {
    match l
    case Service(Negotiate(_, _)) => st.(opening := Drop(st.opening))
    case Service(StartupArrives(_)) => st.(opening := Drop(st.opening))
    case Service(CancelArrives(_)) => st.(opening := Drop(st.opening))
    case Request(Receive(_)) => st.(unread := Drop(st.unread))
    case Response(Hear(_)) => st.(unheard := Drop(st.unheard))
    case _ => st
  }

  function CutStep(cfg: Config, c: Cut, l: Label): Option<Cut> {
    if !Possible(c.store, l) then None
    else
      match Step(cfg, c.s, l)
      case None => None
      case Some(t) => Some(Cut(t, Rest(c.store, l)))
  }

  function CutRun(cfg: Config, c: Cut, ls: seq<Label>): Option<Cut>
    decreases ls
  {
    if ls == [] then Some(c)
    else
      match CutStep(cfg, c, ls[0])
      case None => None
      case Some(d) => CutRun(cfg, d, ls[1..])
  }

  /** Nothing more can happen. */
  ghost predicate Exhausted(cfg: Config, c: Cut) {
    forall l :: CutStep(cfg, c, l).None?
  }

  /** Wherever a schedule comes to a stop, the session is over. */
  ghost predicate AlwaysEnds(cfg: Config, c: Cut) {
    forall ls, d :: CutRun(cfg, c, ls) == Some(d) && Exhausted(cfg, d) ==> d.s.svc.pc.Gone?
  }

  // ---------------------------------------------------------------- every schedule is finite

  function RequestWork(pc: RequestPc): nat {
    match pc
    case RequestDone => 0
    case RequestFailing(_) => 1
    case Receiving => 2
    case Draining => 3
    case Forwarding(_) => 4
    case SendingReady(_) => 4
    case LoadingStatus => 5
    case Refusing(_, _) => 6
    case Counting(_, _) => 7
    case Handling(_) => 8
  }

  function ResponseWork(pc: ResponsePc): nat {
    match pc
    case ResponseDone => 0
    case Listening => 2
    case ResponseFailing(_) => 1
    case Relaying(_) => 2
    case StoringStatus(_) => 3
    case StoringKey(_) => 3
    case StoringRegistry(_) => 4
    case SendingAuth(_) => 4
  }

  function Work(c: Cut): nat {
    Drain.Rank(c.s.svc.pc) + RequestWork(c.s.req.pc) + ResponseWork(c.s.resp.pc)
    + |c.s.shared.auth.chan| + 7 * |c.store.unread| + 5 * |c.store.unheard|
  }

  lemma ServiceLowersWork(cfg: Config, v: ServiceSide, sh: Shared, x: ServiceLabel, st: Store)
    requires ServicePossible(st, x) && ServiceStep(cfg, v, sh, x).Some?
    ensures var a := ServiceStep(cfg, v, sh, x).value;
            Drain.Rank(a.side.pc) < Drain.Rank(v.pc) && a.shared.auth == sh.auth
  {
  }

  lemma RequestLowersWork(q: RequestSide, sh: Shared, x: RequestLabel, st: Store)
    requires RequestStep(q, sh, x).Some? && RequestPossible(st, x)
    ensures var a := RequestStep(q, sh, x).value;
            RequestWork(a.side.pc) + |a.shared.auth.chan| + 7 * |Rest(st, Request(x)).unread| <
            RequestWork(q.pc) + |sh.auth.chan| + 7 * |st.unread|
  {
  }

  lemma ResponseLowersWork(p: ResponseSide, sh: Shared, x: ResponseLabel, st: Store)
    requires ResponseStep(p, sh, x).Some? && ResponsePossible(st, x)
    ensures var a := ResponseStep(p, sh, x).value;
            ResponseWork(a.side.pc) + |a.shared.auth.chan| + 5 * |Rest(st, Response(x)).unheard| <
            ResponseWork(p.pc) + |sh.auth.chan| + 5 * |st.unheard|
  {
  }

  lemma CutStepLowersWork(cfg: Config, c: Cut, l: Label)
    requires CutStep(cfg, c, l).Some?
    ensures Work(CutStep(cfg, c, l).value) < Work(c)
  {
    match l
    case Service(x) => ServiceLowersWork(cfg, c.s.svc, c.s.shared, x, c.store);
    case Request(x) => RequestLowersWork(c.s.req, c.s.shared, x, c.store);
    case Response(x) => ResponseLowersWork(c.s.resp, c.s.shared, x, c.store);
  }

  /** No schedule is longer than the work there is at its start. */
  lemma {:induction false} CutRunsAreBounded(cfg: Config, c: Cut, ls: seq<Label>)
    requires CutRun(cfg, c, ls).Some?
    ensures |ls| + Work(CutRun(cfg, c, ls).value) <= Work(c)
    decreases ls
  {
    if ls != [] {
      CutStepLowersWork(cfg, c, ls[0]);
      CutRunsAreBounded(cfg, CutStep(cfg, c, ls[0]).value, ls[1..]);
    }
  }

  // ---------------------------------------------------------------- which sessions end

  predicate HoldsTerminate(pc: RequestPc) {
    (pc.Handling? || pc.Forwarding?) && pc.m.Terminate?
  }

  /** The request relay comes to a failing read or write, and so to a call of `err`. */
  predicate RequestWillReport(q: RequestSide, unread: seq<FrontMsg>) {
    !q.pc.RequestDone? && !HoldsTerminate(q.pc) && (q.pc.RequestFailing? || Terminate !in unread)
  }

  /** It comes by its drain loop again. */
  predicate WillDrain(q: RequestSide, unread: seq<FrontMsg>) {
    && !q.pc.RequestDone? && !HoldsTerminate(q.pc)
    && (q.pc.Receiving? ==> unread != [] && !unread[0].Terminate?)
  }

  predicate NeedsRoom(m: BackMsg) {
    m.AuthRequest? && !m.at.AuthOk?
  }

  /** The response relay comes to a failing write or read, and so to a call of `err`: it has something
      to write, or to hear, and room in the channel if that has to go there first; or nothing is left
      to hear and the backend has hung up. */
  predicate ResponseWillReport(p: ResponseSide, st: Store, chan: seq<AuthType>, drains: bool) {
    match p.pc
    case Listening =>
      if st.unheard == [] then st.hungUp
      else NeedsRoom(st.unheard[0]) ==> |chan| < AUTH_CHANNEL_CAPACITY || drains
    case ResponseDone => false
    case SendingAuth(_) => |chan| < AUTH_CHANNEL_CAPACITY || drains
    case _ => true
  }

  predicate SomeRelayWillReport(c: Cut) {
    || RequestWillReport(c.s.req, c.store.unread)
    || ResponseWillReport(c.s.resp, c.store, c.s.shared.auth.chan, WillDrain(c.s.req, c.store.unread))
  }

  /** Connecting fails, or succeeds and some relay wakes the service goroutine. */
  predicate EndsFromConnecting(c: Cut) {
    c.store.connects.Some? && (c.store.connects.value ==> SomeRelayWillReport(c))
  }

  predicate EndsFromDeciding(cfg: Config, c: Cut, sm: StartupMessage) {
    Decided(cfg, sm).Connecting? ==> EndsFromConnecting(c)
  }

  /** The session does not wait for a peer: not to read a start-up, which fails if none is in store,
      not to connect, and not, once it waits, for somebody to call `err`. */
  predicate WillEnd(cfg: Config, c: Cut) {
    match c.s.svc.pc
    case Reading =>
      c.store.opening != [] && c.store.opening[0].StartUp? ==> EndsFromDeciding(cfg, c, c.store.opening[0].sm)
    case Deciding(sm) => EndsFromDeciding(cfg, c, sm)
    case Connecting(_) => EndsFromConnecting(c)
    case Waiting => c.s.shared.signal.closed || SomeRelayWillReport(c)
    case _ => true
  }

  /** The relays run once the session has connected, and nobody has called `err` before. */
  predicate Hooked(v: ServiceSide, sh: Shared) {
    && (v.pc.Waiting? ==> sh.spawned)
    && (v.pc.Reading? || v.pc.Deciding? || v.pc.Connecting? ==> !sh.spawned && !sh.signal.closed)
  }

  lemma ServiceKeepsEnding(cfg: Config, c: Cut, x: ServiceLabel)
    requires Hooked(c.s.svc, c.s.shared) && WillEnd(cfg, c) && CutStep(cfg, c, Service(x)).Some?
    ensures var d := CutStep(cfg, c, Service(x)).value;
            Hooked(d.s.svc, d.s.shared) && WillEnd(cfg, d)
  {
  }

  lemma RequestKeepsReport(q: RequestSide, sh: Shared, st: Store, p: ResponseSide, x: RequestLabel)
    requires RequestStep(q, sh, x).Some? && RequestPossible(st, x)
    requires RequestWillReport(q, st.unread) || ResponseWillReport(p, st, sh.auth.chan, WillDrain(q, st.unread))
    ensures var a, rest := RequestStep(q, sh, x).value, Rest(st, Request(x));
            || a.shared.signal.closed
            || RequestWillReport(a.side, rest.unread)
            || ResponseWillReport(p, rest, a.shared.auth.chan, WillDrain(a.side, rest.unread))
  {
  }

  lemma ResponseKeepsReport(p: ResponseSide, sh: Shared, st: Store, drains: bool, x: ResponseLabel)
    requires ResponseStep(p, sh, x).Some? && ResponsePossible(st, x)
    requires ResponseWillReport(p, st, sh.auth.chan, drains)
    ensures var a, rest := ResponseStep(p, sh, x).value, Rest(st, Response(x));
            a.shared.signal.closed || ResponseWillReport(a.side, rest, a.shared.auth.chan, drains)
  {
  }

  /** The relays leave the service goroutine alone, and the signal, once closed, stays so. */
  lemma RelaysLeaveService(cfg: Config, s: Session, l: Label)
    requires !l.Service? && Step(cfg, s, l).Some?
    ensures var t := Step(cfg, s, l).value;
            && t.svc == s.svc && s.shared.spawned && t.shared.spawned
            && (s.shared.signal.closed ==> t.shared.signal.closed)
            && (l.Response? ==> t.req == s.req) && (l.Request? ==> t.resp == s.resp)
  {
  }

  lemma StepKeepsEnding(cfg: Config, c: Cut, l: Label)
    requires Hooked(c.s.svc, c.s.shared) && WillEnd(cfg, c) && CutStep(cfg, c, l).Some?
    ensures var d := CutStep(cfg, c, l).value;
            Hooked(d.s.svc, d.s.shared) && WillEnd(cfg, d)
  {
    match l
    case Service(x) => ServiceKeepsEnding(cfg, c, x);
    case Request(x) =>
      RelaysLeaveService(cfg, c.s, l);
      if SomeRelayWillReport(c) {
        RequestKeepsReport(c.s.req, c.s.shared, c.store, c.s.resp, x);
      }
    case Response(x) =>
      RelaysLeaveService(cfg, c.s, l);
      if !RequestWillReport(c.s.req, c.store.unread) && SomeRelayWillReport(c) {
        ResponseKeepsReport(c.s.resp, c.s.shared, c.store, WillDrain(c.s.req, c.store.unread), x);
      }
  }

  // ---------------------------------------------------------------- what can always be done

  function RequestTurn(c: Cut): RequestLabel {
    match c.s.req.pc
    case Draining => if c.s.shared.auth.chan == [] then FindEmpty else TakeAuth
    case Receiving => if c.store.unread == [] then ReceiveFails(ClientReadFailed) else Receive(c.store.unread[0])
    case Handling(_) => Handle(Unchanged)
    case Counting(_, _) => CountBlocked
    case Refusing(_, _) => SendRefusal(false)
    case LoadingStatus => LoadStatus
    case SendingReady(_) => SendReady(false)
    case Forwarding(_) => Forward(true)
    case _ => ReportRequest
  }

  function ResponseTurn(c: Cut): ResponseLabel {
    match c.s.resp.pc
    case Listening => if c.store.unheard == [] then HearFails(BackendClosed) else Hear(c.store.unheard[0])
    case SendingAuth(_) => SendAuth
    case StoringRegistry(_) => StoreRegistry
    case StoringKey(_) => StoreKey
    case StoringStatus(_) => StoreStatus
    case Relaying(_) => Relay(false)
    case _ => ReportResponse
  }

  /** How the start-up is read, from what is in store. */
  function ReadingTurn(opening: seq<Packet>): ServiceLabel {
    if opening == [] then StartupFails
    else
      match opening[0]
      case StartUp(sm) => StartupArrives(sm)
      case Cancel(key) => CancelArrives(key)
      case Broken => StartupFails
      case _ => Negotiate('N', false)
  }

  /** `found` is what the registry holds, should the session look a key up. */
  function ServiceTurn(c: Cut, found: Option<RegistryEntry>): ServiceLabel {
    match c.s.svc.pc
    case Reading => ReadingTurn(c.store.opening)
    case Deciding(_) => Decide
    case Rejecting(_, _) => SendFatal(false)
    case ServiceFailing(_) => ReportService
    case Connecting(_) => Connect(c.store.connects.Some? && c.store.connects.value)
    case CountingConnectError => CountConnectError
    case Waiting => PassWait
    case LoadingKey => LoadKey
    case DeletingKey(_) => DeleteKey
    case ClosingBackend => CloseBackend
    case LookingUp(_) => LookUp(found)
    case DialingCancel(_, _) => DialCancel(false)
    case SendingCancel(_, _) => SendCancel(false)
    case ClosingClient => CloseClient
    case DeletingSession => DeleteSession
    case CountingDown => CountDown
    case _ => ReleaseGroup
  }

  lemma ServiceTurnIsEnabled(cfg: Config, c: Cut, found: Option<RegistryEntry>)
    requires !c.s.svc.pc.Gone? && (c.s.svc.pc.Waiting? ==> c.s.shared.signal.closed)
    requires c.s.svc.pc.Connecting? ==> c.store.connects.Some?
    ensures ServicePossible(c.store, ServiceTurn(c, found))
    ensures ServiceStep(cfg, c.s.svc, c.s.shared, ServiceTurn(c, found)).Some?
  {
  }

  lemma RequestTurnIsEnabled(cfg: Config, c: Cut)
    requires c.s.shared.spawned && !c.s.req.pc.RequestDone?
    ensures CutStep(cfg, c, Request(RequestTurn(c))).Some?
  {
    assert RequestStep(c.s.req, c.s.shared, RequestTurn(c)).Some?;
  }

  lemma ResponseTurnIsEnabled(cfg: Config, c: Cut)
    requires c.s.shared.spawned && ResponseWillReport(c.s.resp, c.store, c.s.shared.auth.chan, false)
    ensures CutStep(cfg, c, Response(ResponseTurn(c))).Some?
  {
    assert ResponseStep(c.s.resp, c.s.shared, ResponseTurn(c)).Some?;
  }

  /** A session that will end and has not still has something to do. */
  lemma NotExhausted(cfg: Config, c: Cut, found: Option<RegistryEntry>) returns (l: Label)
    requires Hooked(c.s.svc, c.s.shared) && WillEnd(cfg, c) && !c.s.svc.pc.Gone?
    ensures CutStep(cfg, c, l).Some? && (l.Service? && l.s.LookUp? ==> l.s.found == found)
  {
    if c.s.svc.pc.Waiting? && !c.s.shared.signal.closed {
      if !c.s.req.pc.RequestDone? {
        l := Request(RequestTurn(c));
        RequestTurnIsEnabled(cfg, c);
      } else {
        l := Response(ResponseTurn(c));
        ResponseTurnIsEnabled(cfg, c);
      }
    } else {
      l := Service(ServiceTurn(c, found));
      ServiceTurnIsEnabled(cfg, c, found);
    }
  }

  lemma {:induction false} EndingRunsEnd(cfg: Config, c: Cut, ls: seq<Label>, d: Cut)
    requires Hooked(c.s.svc, c.s.shared) && WillEnd(cfg, c)
    requires CutRun(cfg, c, ls) == Some(d) && Exhausted(cfg, d)
    ensures d.s.svc.pc.Gone?
    decreases ls
  {
    if ls == [] {
      if !d.s.svc.pc.Gone? {
        var _ := NotExhausted(cfg, d, None);
      }
    } else {
      StepKeepsEnding(cfg, c, ls[0]);
      EndingRunsEnd(cfg, CutStep(cfg, c, ls[0]).value, ls[1..], d);
    }
  }

  // ---------------------------------------------------------------- the others can be stranded

  /** Left to itself, with every write to the backend working, the request relay runs on into its
      Terminate. */
  lemma RequestTurnKeepsStranding(cfg: Config, c: Cut)
    requires c.s.shared.spawned && !c.s.req.pc.RequestDone? && !SomeRelayWillReport(c)
    ensures CutStep(cfg, c, Request(RequestTurn(c))).Some?
    ensures var d := CutStep(cfg, c, Request(RequestTurn(c))).value;
            && !SomeRelayWillReport(d)
            && d.s.svc == c.s.svc && d.s.shared.spawned && d.s.shared.signal == c.s.shared.signal
  {
    RequestTurnIsEnabled(cfg, c);
  }

  /** With the request relay done, the response relay hears at most one request for which there is
      no room. */
  lemma HearingKeepsStranding(cfg: Config, c: Cut)
    requires c.s.shared.spawned && c.s.req.pc.RequestDone? && !SomeRelayWillReport(c)
    requires c.s.resp.pc.Listening? && c.store.unheard != []
    ensures CutStep(cfg, c, Response(Hear(c.store.unheard[0]))).Some?
    ensures var d := CutStep(cfg, c, Response(Hear(c.store.unheard[0]))).value;
            && !SomeRelayWillReport(d) && d.s.req == c.s.req && d.s.svc == c.s.svc && d.s.shared == c.s.shared
  {
  }

  /** On its way to connecting a session takes the one step there is. */
  lemma ServiceTurnKeepsStranding(cfg: Config, c: Cut)
    requires Hooked(c.s.svc, c.s.shared) && !WillEnd(cfg, c) && !c.s.svc.pc.Waiting?
    requires c.s.svc.pc.Connecting? ==> c.store.connects.Some?
    ensures CutStep(cfg, c, Service(ServiceTurn(c, None))).Some?
    ensures var d := CutStep(cfg, c, Service(ServiceTurn(c, None))).value;
            Hooked(d.s.svc, d.s.shared) && !WillEnd(cfg, d)
  {
    ServiceTurnIsEnabled(cfg, c, None);
  }

  predicate IsStuck(c: Cut) {
    || (c.s.svc.pc.Connecting? && c.store.connects.None?)
    || (c.s.svc.pc.Waiting? && c.s.req.pc.RequestDone? && (c.s.resp.pc.Listening? ==> c.store.unheard == []))
  }

  lemma StuckIsExhausted(cfg: Config, c: Cut)
    requires Hooked(c.s.svc, c.s.shared) && !WillEnd(cfg, c) && IsStuck(c)
    ensures Exhausted(cfg, c)
  {
    forall l ensures CutStep(cfg, c, l).None? {
      match l
      case Service(_) =>
      case Request(_) =>
      case Response(_) =>
    }
  }

  /** The step by which a session that need not end comes nearer to where it is stuck. */
  function StrandingTurn(c: Cut): Label
    requires !IsStuck(c)
  {
    if !c.s.svc.pc.Waiting? then Service(ServiceTurn(c, None))
    else if !c.s.req.pc.RequestDone? then Request(RequestTurn(c))
    else Response(Hear(c.store.unheard[0]))
  }

  lemma TurnKeepsStranding(cfg: Config, c: Cut)
    requires Hooked(c.s.svc, c.s.shared) && !WillEnd(cfg, c) && !IsStuck(c)
    ensures CutStep(cfg, c, StrandingTurn(c)).Some?
    ensures var d := CutStep(cfg, c, StrandingTurn(c)).value;
            Hooked(d.s.svc, d.s.shared) && !WillEnd(cfg, d)
    ensures var l := StrandingTurn(c); !(l.Service? && l.s.LookUp?)
  {
    if !c.s.svc.pc.Waiting? {
      ServiceTurnKeepsStranding(cfg, c);
    } else if !c.s.req.pc.RequestDone? {
      RequestTurnKeepsStranding(cfg, c);
    } else {
      HearingKeepsStranding(cfg, c);
    }
  }

  predicate NoLookUps(ls: seq<Label>) {
    forall l <- ls :: !(l.Service? && l.s.LookUp?)
  }

  /** A schedule that strands a session that need not end. */
  lemma {:induction false} Strand(cfg: Config, c: Cut) returns (ls: seq<Label>, d: Cut)
    requires Hooked(c.s.svc, c.s.shared) && !WillEnd(cfg, c)
    ensures CutRun(cfg, c, ls) == Some(d) && Exhausted(cfg, d) && !d.s.svc.pc.Gone? && NoLookUps(ls)
    decreases Work(c)
  {
    if IsStuck(c) {
      StuckIsExhausted(cfg, c);
      ls, d := [], c;
    } else {
      var l := StrandingTurn(c);
      TurnKeepsStranding(cfg, c);
      CutStepLowersWork(cfg, c, l);
      ls, d := Strand(cfg, CutStep(cfg, c, l).value);
      assert ([l] + ls)[1..] == ls;
      ls := [l] + ls;
    }
  }

  lemma ReachableIsHooked(cfg: Config, ls: seq<Label>, s: Session)
    requires Run(cfg, ls) == Some(s)
    ensures Hooked(s.svc, s.shared)
  {
    SessionSafety.RunsAreSafe(cfg, ls);
    Drain.ClosedIsEnding(cfg, ls);
  }

  /** From any reachable state in which a session is cut off, with anything in store, it always ends
      just when it does not wait for a peer. It would, to read a start-up that is in store, or to
      decide on it, if that leads to connecting; to connect, if that needs more of the backend; and
      behind that, unless somebody has called `err` or some relay comes to a failing read or write.
      The request relay does unless it has ended already or has a Terminate in hand or in store; the
      response relay does if it has something to write, or to hear, and a way past the channel, or if
      the backend has hung up. */
  lemma AlwaysEndsIff(cfg: Config, before: seq<Label>, c: Cut)
    requires Run(cfg, before) == Some(c.s)
    ensures AlwaysEnds(cfg, c) <==> WillEnd(cfg, c)
  {
    ReachableIsHooked(cfg, before, c.s);
    if WillEnd(cfg, c) {
      forall ls, d | CutRun(cfg, c, ls) == Some(d) && Exhausted(cfg, d) ensures d.s.svc.pc.Gone? {
        EndingRunsEnd(cfg, c, ls, d);
      }
    } else {
      var ls, d := Strand(cfg, c);
      assert CutRun(cfg, c, ls) == Some(d);
    }
  }

  // ---------------------------------------------------------------- each case happens

  /** A start-up was read ahead behind a request for encryption: it is decided on, and the backend
      is asked to connect. */
  lemma StartupInStoreStrands(sm: StartupMessage, db: DBConfig) returns (cfg: Config, ls: seq<Label>, c: Cut)
    ensures Run(cfg, ls) == Some(c.s) && !AlwaysEnds(cfg, c)
    ensures c.s.svc.pc.Reading? && c.s.shared.client.out == [Negotiation('N')]
    ensures c.store == NOTHING.(opening := [StartUp(sm)])
  {
    cfg := Config(None, map[Param(sm, "database") := db]);
    ls := SessionSafety.Go(cfg, [], Service(Negotiate('N', true)));
    c := Cut(Run(cfg, ls).value, NOTHING.(opening := [StartUp(sm)]));
    AlwaysEndsIff(cfg, ls, c);
  }

  /** Its backend has been asked to connect and does not answer. */
  lemma ConnectingStrands(sm: StartupMessage, db: DBConfig) returns (cfg: Config, ls: seq<Label>, c: Cut)
    ensures Run(cfg, ls) == Some(c.s) && !AlwaysEnds(cfg, c) && c.s.svc.pc.Connecting? && c.store == NOTHING
  {
    cfg := Config(None, map[Param(sm, "database") := db]);
    ls := SessionSafety.Go(cfg, [], Service(StartupArrives(sm)));
    ls := SessionSafety.Go(cfg, ls, Service(Decide));
    c := Cut(Run(cfg, ls).value, NOTHING);
    AlwaysEndsIff(cfg, ls, c);
  }

  /** A Terminate is in the request relay's hand: two steps of its own later the relay is done. */
  lemma TerminateInHandStrands(sm: StartupMessage, db: DBConfig) returns (cfg: Config, ls: seq<Label>, c: Cut)
    ensures Run(cfg, ls) == Some(c.s) && !AlwaysEnds(cfg, c) && c.store == NOTHING
    ensures c.s.req == FRESH_REQUEST.(pc := Handling(Terminate), received := [Terminate])
    ensures c.s.shared == FRESH_SHARED.(spawned := true)
    ensures c.s.svc.pc.Waiting? && c.s.resp == FRESH_RESPONSE
  {
    cfg, ls := SessionSafety.Connected(sm, db);
    ls := SessionSafety.Go(cfg, ls, Request(FindEmpty));
    ls := SessionSafety.Go(cfg, ls, Request(Receive(Terminate)));
    c := Cut(Run(cfg, ls).value, NOTHING);
    AlwaysEndsIff(cfg, ls, c);
  }

  /** A Terminate was read ahead. */
  lemma TerminateInStoreStrands(sm: StartupMessage, db: DBConfig) returns (cfg: Config, ls: seq<Label>, c: Cut)
    ensures Run(cfg, ls) == Some(c.s) && !AlwaysEnds(cfg, c)
    ensures c.s.req.received == [] && c.store == NOTHING.(unread := [Terminate])
  {
    cfg, ls := SessionSafety.Connected(sm, db);
    c := Cut(Run(cfg, ls).value, NOTHING.(unread := [Terminate]));
    AlwaysEndsIff(cfg, ls, c);
  }

  /** A Terminate was forwarded: only the backend can end the session. */
  lemma TerminateStrands(sm: StartupMessage, db: DBConfig) returns (cfg: Config, ls: seq<Label>, c: Cut)
    ensures Run(cfg, ls) == Some(c.s) && !AlwaysEnds(cfg, c) && Exhausted(cfg, c) && c.store == NOTHING
    ensures c.s.req.pc.RequestDone? && c.s.req.toBackend == [Terminate]
    ensures c.s.shared == FRESH_SHARED.(spawned := true) && c.s.svc.pc.Waiting? && c.s.resp == FRESH_RESPONSE
  {
    cfg, ls, c := TerminateInHandStrands(sm, db);
    ls := SessionSafety.Go(cfg, ls, Request(Handle(Unchanged)));
    ls := SessionSafety.Go(cfg, ls, Request(Forward(true)));
    c := Cut(Run(cfg, ls).value, NOTHING);
    AlwaysEndsIff(cfg, ls, c);
    StuckIsExhausted(cfg, c);
  }

  /** But a message of the backend that was read ahead ends it, whatever the message: relaying it
      fails. */
  lemma MessageInStoreEnds(sm: StartupMessage, db: DBConfig, m: BackMsg) returns (cfg: Config, ls: seq<Label>, c: Cut)
    ensures Run(cfg, ls) == Some(c.s) && AlwaysEnds(cfg, c)
    ensures c.s.req.toBackend == [Terminate] && c.s.req.pc.RequestDone? && c.store == NOTHING.(unheard := [m])
  {
    cfg, ls, c := TerminateStrands(sm, db);
    c := c.(store := NOTHING.(unheard := [m]));
    AlwaysEndsIff(cfg, ls, c);
  }

  /** One authentication request more in the channel. */
  lemma OneMoreRequest(cfg: Config, ls: seq<Label>, s: Session) returns (more: seq<Label>, t: Session)
    requires Run(cfg, ls) == Some(s) && s.shared.spawned && s.resp.pc.Listening?
    requires |s.shared.auth.chan| < AUTH_CHANNEL_CAPACITY
    ensures Run(cfg, more) == Some(t) && t.resp.pc.Listening? && |t.shared.auth.chan| == |s.shared.auth.chan| + 1
    ensures t.req == s.req && t.svc == s.svc && t.shared.signal == s.shared.signal && t.shared.spawned
  {
    more := SessionSafety.Go(cfg, ls, Response(Hear(AuthRequest(SASL))));
    more := SessionSafety.Go(cfg, more, Response(SendAuth));
    more := SessionSafety.Go(cfg, more, Response(Relay(true)));
    t := Run(cfg, more).value;
  }

  /** The request relay is done and the response relay is sending on the channel, full at four: then
      not even the backend can end the session. */
  lemma FullChannelStrands(sm: StartupMessage, db: DBConfig) returns (cfg: Config, ls: seq<Label>, c: Cut)
    ensures Run(cfg, ls) == Some(c.s) && !AlwaysEnds(cfg, c) && c.s.svc.pc.Waiting?
    ensures |c.s.shared.auth.chan| == 4 && forall l :: Step(cfg, c.s, l).None?
  {
    cfg, ls, c := TerminateStrands(sm, db);
    var s := c.s;
    for i := 0 to AUTH_CHANNEL_CAPACITY
      invariant Run(cfg, ls) == Some(s) && s.shared.spawned && s.resp.pc.Listening? && |s.shared.auth.chan| == i
      invariant s.req.pc.RequestDone? && s.svc.pc.Waiting? && !s.shared.signal.closed
    {
      ls, s := OneMoreRequest(cfg, ls, s);
    }
    ls := SessionSafety.Go(cfg, ls, Response(Hear(AuthRequest(SASL))));
    c := Cut(Run(cfg, ls).value, NOTHING);
    AlwaysEndsIff(cfg, ls, c);
    NothingMoves(cfg, c.s);
  }

  lemma NothingMoves(cfg: Config, s: Session)
    requires s.svc.pc.Waiting? && !s.shared.signal.closed && s.req.pc.RequestDone?
    requires s.resp.pc.SendingAuth? && |s.shared.auth.chan| >= AUTH_CHANNEL_CAPACITY
    ensures forall l :: Step(cfg, s, l).None?
  {
    forall l ensures Step(cfg, s, l).None? {
      match l
      case Service(_) =>
      case Request(_) =>
      case Response(_) =>
    }
  }
}
