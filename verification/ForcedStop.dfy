/** What `stop` achieves by closing the clients' connections: once nothing more comes from any peer,
    the whole proxy always runs out just when every session does. */
module ForcedStop {
  import opened Basics
  import opened Gateway
  import opened Lifecycle
  import EverySession
  import TeardownRace
  import S = Session
  import St = Stranded

  /** The proxy cut off from all peers, with what is in store for each session. */
  datatype CutOff = CutOff(g: State, stores: map<Id, St.Store>)

  function StoreOf(stores: map<Id, St.Store>, id: Id): St.Store {
    if id in stores then stores[id] else St.NOTHING
  }

  function CutOf(c: CutOff, id: Id): St.Cut
    requires id in c.g.procs
  {
    St.Cut(c.g.procs[id], StoreOf(c.stores, id))
  }

  /** The steps of the accept loop and of the sessions; those of `stop` decide nothing here. */
  function GateStep(cfg: Config, c: CutOff, l: Label): Option<CutOff> {
    match l
    case Stop(_) => None
    case Accept(_) =>
      (match Step(cfg, c.g, l)
       case None => None
       case Some(h) => Some(c.(g := h)))
    case At(id, x) =>
      if !St.Possible(StoreOf(c.stores, id), x) then None
      else
        match Step(cfg, c.g, l)
        case None => None
        case Some(h) => Some(CutOff(h, c.stores[id := St.Rest(StoreOf(c.stores, id), x)]))
  }

  function GateRun(cfg: Config, c: CutOff, ls: seq<Label>): Option<CutOff>
    decreases ls
  {
    if ls == [] then Some(c)
    else
      match GateStep(cfg, c, ls[0])
      case None => None
      case Some(d) => GateRun(cfg, d, ls[1..])
  }

  ghost predicate GateExhausted(cfg: Config, c: CutOff) {
    forall l :: GateStep(cfg, c, l).None?
  }

  /** Wherever a schedule comes to a stop, everything is over. */
  ghost predicate AlwaysOver(cfg: Config, c: CutOff) {
    forall ls, d :: GateRun(cfg, c, ls) == Some(d) && GateExhausted(cfg, d) ==> Over(d.g)
  }

  /** `stop` has closed the listener, and the accept loop holds no connection. */
  predicate Settled(g: State) {
    && g.stop.stopping && g.stop.listenerClosed
    && (g.front.pc.Accepting? || g.front.pc.Leaving? || g.front.pc.Left?)
  }

  // ---------------------------------------------------------------- one step

  lemma AcceptGateStep(cfg: Config, c: CutOff, a: AcceptLabel)
    requires Settled(c.g) && GateStep(cfg, c, Accept(a)).Some?
    ensures var d := GateStep(cfg, c, Accept(a)).value;
            && Settled(d.g) && d.g.procs == c.g.procs && d.stores == c.stores && d.g.front.lastId == c.g.front.lastId
            && FrontWork(d.g.front.pc) < FrontWork(c.g.front.pc)
  {
  }

  /** A session's step is a step of the session alone, and touches no other. */
  lemma SessionGateStep(cfg: Config, c: CutOff, id: Id, x: S.Label)
    requires GateStep(cfg, c, At(id, x)).Some?
    ensures var d := GateStep(cfg, c, At(id, x)).value;
            && id in c.g.procs && d.g.procs.Keys == c.g.procs.Keys
            && St.CutStep(cfg.session, CutOf(c, id), x) == Some(CutOf(d, id))
            && (forall i <- c.g.procs.Keys :: i != id ==> CutOf(d, i) == CutOf(c, i))
            && d.g.front.lastId == c.g.front.lastId && d.g.front.pc == c.g.front.pc && d.g.stop == c.g.stop
  {
  }

  /** And the other way round, if it finds in the registry what is there. */
  lemma SessionStepIsGateStep(cfg: Config, c: CutOff, id: Id, x: S.Label)
    requires id in c.g.procs && St.CutStep(cfg.session, CutOf(c, id), x).Some?
    requires Consistent(c.g.registry, c.g.procs[id], x)
    ensures GateStep(cfg, c, At(id, x)).Some?
  {
    PossibleIsSilent(StoreOf(c.stores, id), x);
  }

  lemma PossibleIsSilent(st: St.Store, x: S.Label)
    requires St.Possible(st, x)
    ensures !ReachesClient(x)
  {
  }

  // ---------------------------------------------------------------- every schedule is finite

  function FrontWork(pc: AcceptPc): nat {
    match pc
    case Left => 0
    case Leaving => 1
    case _ => 2
  }

  function WorkBelow(c: CutOff, n: nat): nat {
    if n == 0 then 0 else WorkBelow(c, n - 1) + if n - 1 in c.g.procs then St.Work(CutOf(c, n - 1)) else 0
  }

  function GateWork(c: CutOff): nat {
    WorkBelow(c, c.g.front.lastId + 1) + FrontWork(c.g.front.pc)
  }

  /** The same sessions with the same stores. */
  ghost predicate SameBelow(c: CutOff, d: CutOff, n: nat) {
    && (forall i | 0 <= i < n :: i in c.g.procs <==> i in d.g.procs)
    && forall i | 0 <= i < n && i in c.g.procs :: CutOf(d, i) == CutOf(c, i)
  }

  lemma {:induction false} SameWork(c: CutOff, d: CutOff, n: nat)
    requires SameBelow(c, d, n)
    ensures WorkBelow(d, n) == WorkBelow(c, n)
  {
    if n > 0 {
      SameWork(c, d, n - 1);
    }
  }

  lemma {:induction false} LessWork(c: CutOff, d: CutOff, n: nat, id: Id)
    requires id < n && id in c.g.procs && d.g.procs.Keys == c.g.procs.Keys
    requires forall i <- c.g.procs.Keys :: i != id ==> CutOf(d, i) == CutOf(c, i)
    requires St.Work(CutOf(d, id)) < St.Work(CutOf(c, id))
    ensures WorkBelow(d, n) < WorkBelow(c, n)
  {
    if id == n - 1 {
      SameWork(c, d, n - 1);
    } else {
      LessWork(c, d, n - 1, id);
    }
  }

  /** The accept loop holds nothing, and no id is above the last. */
  ghost predicate InOrder(c: CutOff) {
    Settled(c.g) && forall id <- c.g.procs.Keys :: id <= c.g.front.lastId
  }

  lemma GateStepLowersWork(cfg: Config, c: CutOff, l: Label)
    requires InOrder(c) && GateStep(cfg, c, l).Some?
    ensures InOrder(GateStep(cfg, c, l).value) && GateWork(GateStep(cfg, c, l).value) < GateWork(c)
  {
    var d := GateStep(cfg, c, l).value;
    match l
    case Stop(_) =>
    case Accept(a) =>
      AcceptGateStep(cfg, c, a);
      SameWork(c, d, c.g.front.lastId + 1);
    case At(id, x) =>
      SessionGateStep(cfg, c, id, x);
      St.CutStepLowersWork(cfg.session, CutOf(c, id), x);
      LessWork(c, d, c.g.front.lastId + 1, id);
  }

  /** No schedule is longer than the work there is at its start. */
  lemma {:induction false} GateRunsAreBounded(cfg: Config, c: CutOff, ls: seq<Label>)
    requires InOrder(c) && GateRun(cfg, c, ls).Some?
    ensures |ls| + GateWork(GateRun(cfg, c, ls).value) <= GateWork(c)
    decreases ls
  {
    if ls != [] {
      GateStepLowersWork(cfg, c, ls[0]);
      GateRunsAreBounded(cfg, GateStep(cfg, c, ls[0]).value, ls[1..]);
    }
  }

  /** Every schedule can be taken to where nothing more can happen. */
  lemma {:induction false} Complete(cfg: Config, c: CutOff) returns (ls: seq<Label>, d: CutOff)
    requires InOrder(c)
    ensures GateRun(cfg, c, ls) == Some(d) && GateExhausted(cfg, d)
    decreases GateWork(c)
  {
    if GateExhausted(cfg, c) {
      ls, d := [], c;
    } else {
      var l :| GateStep(cfg, c, l).Some?;
      GateStepLowersWork(cfg, c, l);
      ls, d := Complete(cfg, GateStep(cfg, c, l).value);
      assert ([l] + ls)[1..] == ls;
      ls := [l] + ls;
    }
  }

  // ---------------------------------------------------------------- if every session will end

  ghost predicate AllWillEnd(cfg: Config, c: CutOff) {
    forall id <- c.g.procs.Keys ::
      St.Hooked(c.g.procs[id].svc, c.g.procs[id].shared) && St.WillEnd(cfg.session, CutOf(c, id))
  }

  lemma GateStepKeepsEnding(cfg: Config, c: CutOff, l: Label)
    requires Settled(c.g) && AllWillEnd(cfg, c) && LifeInv(cfg, c.g) && GateStep(cfg, c, l).Some?
    ensures var d := GateStep(cfg, c, l).value; Settled(d.g) && AllWillEnd(cfg, d) && LifeInv(cfg, d.g)
  {
    var d := GateStep(cfg, c, l).value;
    StepKeepsLife(cfg, c.g, l);
    match l
    case Stop(_) =>
    case Accept(a) =>
      AcceptGateStep(cfg, c, a);
    case At(id, x) =>
      SessionGateStep(cfg, c, id, x);
      St.StepKeepsEnding(cfg.session, CutOf(c, id), x);
      forall i | i in d.g.procs
        ensures St.Hooked(d.g.procs[i].svc, d.g.procs[i].shared) && St.WillEnd(cfg.session, CutOf(d, i))
      {
        if i != id {
          assert CutOf(d, i) == CutOf(c, i);
        }
      }
  }

  lemma ExhaustedSessionIsGone(cfg: Config, c: CutOff, id: Id)
    requires AllWillEnd(cfg, c) && GateExhausted(cfg, c) && id in c.g.procs
    ensures c.g.procs[id].svc.pc.Gone?
  {
    if !c.g.procs[id].svc.pc.Gone? {
      var pc := c.g.procs[id].svc.pc;
      var found := if pc.LookingUp? then LookUpEntry(c.g.registry, pc.key) else None;
      var x := St.NotExhausted(cfg.session, CutOf(c, id), found);
      SessionStepIsGateStep(cfg, c, id, x);
    }
  }

  lemma ExhaustedFrontHasLeft(cfg: Config, c: CutOff)
    requires Settled(c.g) && GateExhausted(cfg, c)
    ensures c.g.front.pc.Left?
  {
    assert GateStep(cfg, c, Accept(AcceptError)).None?;
    assert GateStep(cfg, c, Accept(Leave)).None?;
  }

  lemma AllGoneIsOver(cfg: Config, g: State)
    requires LifeInv(cfg, g) && g.front.pc.Left? && forall id <- g.procs.Keys :: g.procs[id].svc.pc.Gone?
    ensures Over(g)
  {
    assert LiveIn(g.procs).grouped == {};
    ZeroGroupIsOver(cfg, g);
  }

  lemma {:induction false} EndingGateRunsAreOver(cfg: Config, c: CutOff, ls: seq<Label>, d: CutOff)
    requires Settled(c.g) && AllWillEnd(cfg, c) && LifeInv(cfg, c.g)
    requires GateRun(cfg, c, ls) == Some(d) && GateExhausted(cfg, d)
    ensures Over(d.g)
    decreases ls
  {
    if ls == [] {
      forall id | id in d.g.procs ensures d.g.procs[id].svc.pc.Gone? {
        ExhaustedSessionIsGone(cfg, d, id);
      }
      ExhaustedFrontHasLeft(cfg, d);
      AllGoneIsOver(cfg, d.g);
    } else {
      GateStepKeepsEnding(cfg, c, ls[0]);
      EndingGateRunsAreOver(cfg, GateStep(cfg, c, ls[0]).value, ls[1..], d);
    }
  }

  // ---------------------------------------------------------------- if some session need not

  /** A session's own schedule, taken by the whole proxy. */
  lemma {:induction false} Lift(cfg: Config, c: CutOff, id: Id, own: seq<S.Label>, e: St.Cut)
    returns (ls: seq<Label>, d: CutOff)
    requires InOrder(c) && id in c.g.procs
    requires St.CutRun(cfg.session, CutOf(c, id), own) == Some(e) && St.NoLookUps(own)
    ensures GateRun(cfg, c, ls) == Some(d) && InOrder(d) && id in d.g.procs && CutOf(d, id) == e
    decreases own
  {
    if own == [] {
      ls, d := [], c;
    } else {
      var l := At(id, own[0]);
      assert own[0] in own;
      SessionStepIsGateStep(cfg, c, id, own[0]);
      SessionGateStep(cfg, c, id, own[0]);
      GateStepLowersWork(cfg, c, l);
      ls, d := Lift(cfg, GateStep(cfg, c, l).value, id, own[1..], e);
      assert ([l] + ls)[1..] == ls;
      ls := [l] + ls;
    }
  }

  /** A session that can go no further stays where it is. */
  lemma {:induction false} StrandedStays(cfg: Config, c: CutOff, id: Id, ls: seq<Label>, d: CutOff)
    requires InOrder(c) && id in c.g.procs && St.Exhausted(cfg.session, CutOf(c, id))
    requires GateRun(cfg, c, ls) == Some(d)
    ensures id in d.g.procs && CutOf(d, id) == CutOf(c, id)
    decreases ls
  {
    if ls != [] {
      var e := GateStep(cfg, c, ls[0]).value;
      GateStepLowersWork(cfg, c, ls[0]);
      match ls[0] {
        case Stop(_) =>
        case Accept(a) => AcceptGateStep(cfg, c, a);
        case At(i, x) => SessionGateStep(cfg, c, i, x);
      }
      StrandedStays(cfg, e, id, ls[1..], d);
    }
  }

  lemma {:induction false} RunsJoin(cfg: Config, c: CutOff, a: seq<Label>, b: seq<Label>)
    requires GateRun(cfg, c, a).Some?
    ensures GateRun(cfg, c, a + b) == GateRun(cfg, GateRun(cfg, c, a).value, b)
    decreases a
  {
    if a == [] {
      assert a + b == b;
    } else {
      assert (a + b)[1..] == a[1..] + b;
      RunsJoin(cfg, GateStep(cfg, c, a[0]).value, a[1..], b);
    }
  }

  /** One session that need not end is enough for the proxy not to come to its end. */
  lemma OneStrandsAll(cfg: Config, c: CutOff, id: Id) returns (ls: seq<Label>, d: CutOff)
    requires InOrder(c) && id in c.g.procs
    requires St.Hooked(c.g.procs[id].svc, c.g.procs[id].shared) && !St.WillEnd(cfg.session, CutOf(c, id))
    ensures GateRun(cfg, c, ls) == Some(d) && GateExhausted(cfg, d) && !Over(d.g)
  {
    var own, e := St.Strand(cfg.session, CutOf(c, id));
    var first, b := Lift(cfg, c, id, own, e);
    var rest;
    rest, d := Complete(cfg, b);
    StrandedStays(cfg, b, id, rest, d);
    RunsJoin(cfg, c, first, rest);
    ls := first + rest;
  }

  // ---------------------------------------------------------------- the whole proxy

  lemma SessionsAreHooked(cfg: Config, ls: seq<Label>, g: State, id: Id)
    requires Run(cfg, ls) == Some(g) && id in g.procs
    ensures St.Hooked(g.procs[id].svc, g.procs[id].shared)
  {
    EverySession.SessionsRunAlone(cfg, ls, id);
    St.ReachableIsHooked(cfg.session, EverySession.Project(ls, id), g.procs[id]);
  }

  /** From every reachable state with the listener closed and no connection under admission, and
      with every session cut off from its peers, the proxy always comes to its end, so that `stop`
      can return, just when each of its sessions does not wait for a peer. */
  lemma AlwaysOverIff(cfg: Config, before: seq<Label>, c: CutOff)
    requires Run(cfg, before) == Some(c.g) && Settled(c.g)
    ensures AlwaysOver(cfg, c) <==> forall id <- c.g.procs.Keys :: St.WillEnd(cfg.session, CutOf(c, id))
  {
    RunsKeepLife(cfg, before);
    RunsKeepIdsInOrder(cfg, before);
    forall id | id in c.g.procs ensures St.Hooked(c.g.procs[id].svc, c.g.procs[id].shared) {
      SessionsAreHooked(cfg, before, c.g, id);
    }
    if forall id <- c.g.procs.Keys :: St.WillEnd(cfg.session, CutOf(c, id)) {
      forall ls, d | GateRun(cfg, c, ls) == Some(d) && GateExhausted(cfg, d) ensures Over(d.g) {
        EndingGateRunsAreOver(cfg, c, ls, d);
      }
    } else {
      var id :| id in c.g.procs.Keys && !St.WillEnd(cfg.session, CutOf(c, id));
      var ls, d := OneStrandsAll(cfg, c, id);
      assert GateRun(cfg, c, ls) == Some(d);
    }
  }

  /** When everything is over, `stop` returns in two steps. */
  lemma OverLetsStopReturn(cfg: Config, g: State)
    requires Over(g) && g.stop.pc.AwaitingDrain?
    ensures var h := Step(cfg, g, Stop(WaiterReturns));
            h.Some? && Step(cfg, h.value, Stop(SeeDrained)).Some?
            && Step(cfg, h.value, Stop(SeeDrained)).value.stop.pc.Stopped?
  {
  }

  // ---------------------------------------------------------------- whose connection is closed

  ghost predicate HasClosed(f: Front, st: Stopper) {
    match st.pc
    case ForceClosing(left) => f.sessions <= left + st.forced
    case AwaitingDrain => f.sessions <= st.forced
    case Stopped => f.sessions <= st.forced
    case _ => false
  }

  lemma RangeEndsClosed(f: Front, st: Stopper, left: set<Id>)
    requires f.sessions <= left + st.forced && left * f.sessions == {}
    ensures f.sessions <= st.forced
  {
    forall id | id in f.sessions ensures id in st.forced {
      assert id !in left * f.sessions;
    }
  }

  lemma StepKeepsClosed(cfg: Config, g: State, l: Label, h: State)
    requires Settled(g) && HasClosed(g.front, g.stop) && Step(cfg, g, l) == Some(h)
    ensures Settled(h) && HasClosed(h.front, h.stop)
  {
    match l
    case Accept(_) =>
    case Stop(x) =>
      if x.RangeEnds? {
        RangeEndsClosed(g.front, g.stop, g.stop.pc.left);
      }
    case At(_, _) =>
  }

  lemma {:induction false} ClosedFromThere(cfg: Config, ls: seq<Label>, g: State, more: seq<Label>, h: State)
    requires Run(cfg, ls) == Some(g) && Settled(g) && HasClosed(g.front, g.stop)
    requires Run(cfg, ls + more) == Some(h)
    ensures Settled(h) && HasClosed(h.front, h.stop)
    decreases more
  {
    if more == [] {
      assert ls + more == ls;
    } else {
      var n := |more| - 1;
      assert (ls + more)[..|ls + more|-1] == ls + more[..n] && (ls + more)[|ls + more|-1] == more[n];
      var f := Run(cfg, ls + more[..n]).value;
      ClosedFromThere(cfg, ls, g, more[..n], f);
      StepKeepsClosed(cfg, f, more[n], h);
    }
  }

  /** If the accept loop holds no connection when the drain times out, then from the end of the
      range on every session still in the map has had its client connection closed. */
  lemma AllAreClosed(cfg: Config, ls: seq<Label>, g: State, f: State, more: seq<Label>, h: State)
    requires Run(cfg, ls) == Some(g) && Settled(g) && Step(cfg, g, Stop(TimeOut)) == Some(f)
    requires Run(cfg, ls + [Stop(TimeOut)] + more) == Some(h)
    ensures Settled(h) && HasClosed(h.front, h.stop)
  {
    RunSnoc(cfg, ls, Stop(TimeOut), g);
    ClosedFromThere(cfg, ls + [Stop(TimeOut)], f, more, h);
  }

  lemma Then(cfg: Config, ls: seq<Label>, l: Label) returns (more: seq<Label>)
    requires Run(cfg, ls).Some?
    ensures Run(cfg, more) == Step(cfg, Run(cfg, ls).value, l)
  {
    more := ls + [l];
    RunSnoc(cfg, ls, l, Run(cfg, ls).value);
  }

  lemma RangedWhileAdmitting(cfg: Config, remote: string) returns (ls: seq<Label>)
    requires cfg.session.acl.None? && cfg.cap == 0
    ensures Run(cfg, ls).Some?
    ensures var g := Run(cfg, ls).value;
            && g.front.pc == StoringSession(1) && g.front.sessions == {}
            && g.stop.pc.AwaitingDrain? && g.stop.forced == {} && g.procs == map[]
  {
    ls := TeardownRace.Checked(cfg, remote);
    ls := Then(cfg, ls, Stop(CloseStopping));
    ls := Then(cfg, ls, Stop(CloseListener));
    ls := Then(cfg, ls, Stop(TimeOut));
    ls := Then(cfg, ls, Stop(RangeEnds));
  }

  lemma StoredLate(cfg: Config, remote: string) returns (ls: seq<Label>)
    requires cfg.session.acl.None? && cfg.cap == 0
    ensures Run(cfg, ls).Some?
    ensures var g := Run(cfg, ls).value;
            && g.front.pc == AddingToGroup(1) && g.front.sessions == {1}
            && g.stop.pc.AwaitingDrain? && g.stop.forced == {} && g.procs == map[]
  {
    ls := RangedWhileAdmitting(cfg, remote);
    ls := Then(cfg, ls, Accept(StoreSession));
    ls := Then(cfg, ls, Accept(CountUp));
  }

  /** Otherwise not: a connection that was let in just before becomes a session behind the range, and
      `stop` waits for it with its client connection open. */
  lemma LateSessionIsNotClosed(cfg: Config, remote: string) returns (ls: seq<Label>)
    requires cfg.session.acl.None? && cfg.cap == 0
    ensures Run(cfg, ls).Some?
    ensures var g := Run(cfg, ls).value;
            && g.stop.pc.AwaitingDrain? && g.stop.forced == {}
            && g.front.sessions == {1} && g.procs == map[1 := S.FRESH]
  {
    ls := StoredLate(cfg, remote);
    ls := Then(cfg, ls, Accept(AddToGroup));
    ls := Then(cfg, ls, Accept(Spawn));
  }
}
