/** Admission, counting and shutdown, in every interleaving of the accept loop, the sessions'
    exits and `stop`. */
module Lifecycle {
  import opened Basics
  import opened Gateway
  import Acl
  import S = Session

  // ---------------------------------------------------------------- who is where

  /** Not yet past its map delete, its counter decrement, its Done: the order of the three. */
  predicate InMap(s: S.Session) {
    !s.svc.pc.CountingDown? && !s.svc.pc.ReleasingGroup? && !s.svc.pc.Gone?
  }

  predicate Counted(s: S.Session) {
    !s.svc.pc.ReleasingGroup? && !s.svc.pc.Gone?
  }

  predicate Grouped(s: S.Session) {
    !s.svc.pc.Gone?
  }

  /** The sessions that are still in the map, in the counter, in the WaitGroup. */
  datatype Live = Live(listed: set<Id>, counted: set<Id>, grouped: set<Id>)

  function LiveIn(procs: map<Id, S.Session>): Live {
    Live(set id | id in procs && InMap(procs[id]),
         set id | id in procs && Counted(procs[id]),
         set id | id in procs && Grouped(procs[id]))
  }

  /** The id under admission: it passed every check and is on its way to a goroutine. */
  function Entering(pc: AcceptPc): Option<Id> {
    match pc
    case StoringSession(id) => Some(id)
    case CountingUp(id) => Some(id)
    case AddingToGroup(id) => Some(id)
    case Spawning(id) => Some(id)
    case _ => None
  }

  predicate BeingDecided(pc: AcceptPc) {
    pc.CheckingAddr? || pc.CountingAclReject? || pc.CheckingCap? || pc.CountingCapReject?
  }

  function CurrentId(pc: AcceptPc): Option<Id> {
    match pc
    case Numbered(id, _) => Some(id)
    case CheckingAddr(id, _) => Some(id)
    case CheckingCap(id, _) => Some(id)
    case _ => Entering(pc)
  }

  function StoredOnly(pc: AcceptPc): set<Id> {
    if pc.CountingUp? || pc.AddingToGroup? || pc.Spawning? then {pc.id} else {}
  }

  // ---------------------------------------------------------------- the invariant

  ghost predicate CountInv(f: Front, live: Live) {
    && f.sessions == live.listed + StoredOnly(f.pc)
    && f.active == |live.counted| + One(f.pc.AddingToGroup? || f.pc.Spawning?)
    && f.group == |live.grouped| + One(f.pc.Spawning?) + One(!f.pc.Left?)
  }

  /** Ids are handed out once each. */
  ghost predicate IdInv(f: Front, ids: set<Id>) {
    && (forall id <- ids :: id <= f.lastId)
    && (CurrentId(f.pc).Some? ==> CurrentId(f.pc).value == f.lastId && f.lastId !in ids)
  }

  ghost predicate PassedAddr(cfg: Config, passed: map<Id, string>) {
    forall id <- passed.Keys :: Acl.AddrOK(cfg.net, cfg.session.acl, passed[id])
  }

  /** Whoever is let in came from an address that passes. */
  ghost predicate AddressInv(cfg: Config, f: Front, ids: set<Id>) {
    && PassedAddr(cfg, f.passed)
    && (f.pc.CheckingCap? ==> Acl.AddrOK(cfg.net, cfg.session.acl, f.pc.remote))
    && ids <= f.passed.Keys
    && (Entering(f.pc).Some? ==> Entering(f.pc).value in f.passed)
  }

  ghost predicate TotalInv(f: Front, admitted: nat) {
    f.total == f.rejectedByAcl + f.rejectedByCap + admitted + One(Entering(f.pc).Some?) + One(BeingDecided(f.pc))
  }

  ghost predicate CapInv(cfg: Config, f: Front) {
    && (cfg.cap > 0 ==> f.active <= cfg.cap)
    && (cfg.cap > 0 && (f.pc.StoringSession? || f.pc.CountingUp?) ==> f.active < cfg.cap)
  }

  ghost predicate StopInv(f: Front, st: Stopper) {
    && (f.pc.Leaving? || f.pc.Left? ==> st.stopping)
    && (st.stopping <==> !st.pc.Running?)
    && (st.listenerClosed <==> !st.pc.Running? && !st.pc.Signalled?)
    && (st.drained ==> f.group == 0)
    && (st.pc.Stopped? ==> st.drained)
  }

  ghost predicate FrontInv(cfg: Config, f: Front, st: Stopper, live: Live, ids: set<Id>) {
    && CountInv(f, live)
    && IdInv(f, ids)
    && AddressInv(cfg, f, ids)
    && TotalInv(f, |ids|)
    && CapInv(cfg, f)
    && StopInv(f, st)
    && live.listed <= live.counted <= live.grouped <= ids
  }

  ghost predicate LifeInv(cfg: Config, g: State) {
    FrontInv(cfg, g.front, g.stop, LiveIn(g.procs), g.procs.Keys)
  }

  // ---------------------------------------------------------------- a session's step

  predicate IsDelete(l: S.Label) { l.Service? && l.s.DeleteSession? }
  predicate IsCountDown(l: S.Label) { l.Service? && l.s.CountDown? }
  predicate IsRelease(l: S.Label) { l.Service? && l.s.ReleaseGroup? }

  /** A session leaves the map, then the counter, then the WaitGroup. */
  lemma ExitOrder(cfg: S.Config, s: S.Session, l: S.Label)
    requires S.Step(cfg, s, l).Some?
    ensures var t := S.Step(cfg, s, l).value;
            && (InMap(t) <==> InMap(s) && !IsDelete(l)) && (IsDelete(l) ==> InMap(s))
            && (Counted(t) <==> Counted(s) && !IsCountDown(l)) && (IsCountDown(l) ==> Counted(s) && !InMap(s))
            && (Grouped(t) <==> Grouped(s) && !IsRelease(l)) && (IsRelease(l) ==> Grouped(s) && !Counted(s))
  {
    match l
    case Service(x) => ServiceExitOrder(cfg, s.svc, s.shared, x);
    case Request(_) =>
    case Response(_) =>
  }

  lemma ServiceExitOrder(cfg: S.Config, v: S.ServiceSide, sh: S.Shared, x: S.ServiceLabel)
    requires S.ServiceStep(cfg, v, sh, x).Some?
    ensures var w := S.ServiceStep(cfg, v, sh, x).value.side.pc;
            && (w.CountingDown? || w.ReleasingGroup? || w.Gone? <==>
                  v.pc.CountingDown? || v.pc.ReleasingGroup? || v.pc.Gone? || x.DeleteSession?)
            && (w.ReleasingGroup? || w.Gone? <==> v.pc.ReleasingGroup? || v.pc.Gone? || x.CountDown?)
            && (w.Gone? <==> v.pc.Gone? || x.ReleaseGroup?)
            && (x.DeleteSession? ==> v.pc.DeletingSession?)
            && (x.CountDown? ==> v.pc.CountingDown?)
            && (x.ReleaseGroup? ==> v.pc.ReleasingGroup?)
  {
  }

  function Minus(s: set<Id>, id: Id, gone: bool): set<Id> {
    if gone then s - {id} else s
  }

  lemma LiveAfterStep(procs: map<Id, S.Session>, id: Id, t: S.Session, l: S.Label)
    requires id in procs
    requires InMap(t) <==> InMap(procs[id]) && !IsDelete(l)
    requires Counted(t) <==> Counted(procs[id]) && !IsCountDown(l)
    requires Grouped(t) <==> Grouped(procs[id]) && !IsRelease(l)
    ensures LiveIn(procs[id := t]).listed == Minus(LiveIn(procs).listed, id, IsDelete(l))
    ensures LiveIn(procs[id := t]).counted == Minus(LiveIn(procs).counted, id, IsCountDown(l))
    ensures LiveIn(procs[id := t]).grouped == Minus(LiveIn(procs).grouped, id, IsRelease(l))
  {
  }

  /** The deferred calls undo, one by one, what admission did. */
  lemma ExitKeepsFront(cfg: Config, f: Front, st: Stopper, live: Live, ids: set<Id>, id: Id, l: S.Label)
    requires FrontInv(cfg, f, st, live, ids) && id in ids
    requires IsDelete(l) ==> id in live.listed
    requires IsCountDown(l) ==> id in live.counted && id !in live.listed
    requires IsRelease(l) ==> id in live.grouped && id !in live.counted
    ensures FrontInv(cfg, FrontAfter(f, id, l), st,
                     Live(Minus(live.listed, id, IsDelete(l)), Minus(live.counted, id, IsCountDown(l)),
                          Minus(live.grouped, id, IsRelease(l))), ids)
  {
  }

  lemma SessionKeepsLife(cfg: Config, g: State, id: Id, l: S.Label)
    requires LifeInv(cfg, g) && Step(cfg, g, At(id, l)).Some?
    ensures LifeInv(cfg, Step(cfg, g, At(id, l)).value)
  {
    var t := S.Step(cfg.session, g.procs[id], l).value;
    ExitOrder(cfg.session, g.procs[id], l);
    LiveAfterStep(g.procs, id, t, l);
    ExitKeepsFront(cfg, g.front, g.stop, LiveIn(g.procs), g.procs.Keys, id, l);
    assert g.procs[id := t].Keys == g.procs.Keys;
  }

  // ---------------------------------------------------------------- the accept loop's step

  lemma LiveAfterSpawn(procs: map<Id, S.Session>, id: Id, born: S.Session)
    requires id !in procs && InMap(born) && Counted(born) && Grouped(born)
    ensures var live := LiveIn(procs);
            LiveIn(procs[id := born]) == Live(live.listed + {id}, live.counted + {id}, live.grouped + {id})
  {
    var more := procs[id := born];
    assert forall x :: x in more && InMap(more[x]) <==> (x in procs && InMap(procs[x])) || x == id;
    assert forall x :: x in more && Counted(more[x]) <==> (x in procs && Counted(procs[x])) || x == id;
    assert forall x :: x in more && Grouped(more[x]) <==> (x in procs && Grouped(procs[x])) || x == id;
  }

  lemma SpawnKeepsFront(cfg: Config, f: Front, st: Stopper, live: Live, ids: set<Id>)
    requires FrontInv(cfg, f, st, live, ids) && f.pc.Spawning?
    ensures var id := f.pc.id;
            FrontInv(cfg, f.(pc := Accepting), st,
                     Live(live.listed + {id}, live.counted + {id}, live.grouped + {id}), ids + {id})
  {
  }

  lemma SpawnStep(cfg: Config, g: State)
    requires Step(cfg, g, Accept(Spawn)).Some?
    ensures g.front.pc.Spawning?
    ensures Step(cfg, g, Accept(Spawn)).value ==
            g.(front := g.front.(pc := Accepting), procs := g.procs[g.front.pc.id := S.FRESH])
  {
  }

  lemma SpawnKeepsLife(cfg: Config, g: State, h: State)
    requires LifeInv(cfg, g) && g.front.pc.Spawning?
    requires h.front == g.front.(pc := Accepting) && h.stop == g.stop && h.procs.Keys == g.procs.Keys + {g.front.pc.id}
    requires var id, live := g.front.pc.id, LiveIn(g.procs);
             LiveIn(h.procs) == Live(live.listed + {id}, live.counted + {id}, live.grouped + {id})
    ensures LifeInv(cfg, h)
  {
    SpawnKeepsFront(cfg, g.front, g.stop, LiveIn(g.procs), g.procs.Keys);
  }

  predicate Counts(l: AcceptLabel) {
    l.StoreSession? || l.CountUp? || l.AddToGroup? || l.Spawn? || l.Leave?
  }

  lemma StoringKeepsCounts(f: Front, live: Live)
    requires CountInv(f, live) && f.pc.StoringSession?
    ensures CountInv(f.(pc := CountingUp(f.pc.id), sessions := f.sessions + {f.pc.id}), live)
  {
  }

  lemma CountingUpKeepsCounts(f: Front, live: Live)
    requires CountInv(f, live) && f.pc.CountingUp?
    ensures CountInv(f.(pc := AddingToGroup(f.pc.id), active := f.active + 1), live)
  {
  }

  lemma AddingKeepsCounts(f: Front, live: Live)
    requires CountInv(f, live) && f.pc.AddingToGroup?
    ensures CountInv(f.(pc := Spawning(f.pc.id), group := f.group + 1), live)
  {
  }

  lemma LeavingKeepsCounts(f: Front, live: Live)
    requires CountInv(f, live) && f.pc.Leaving?
    ensures CountInv(f.(pc := Left, group := f.group - 1), live)
  {
  }

  lemma CountingKeepsCounts(cfg: Config, f: Front, st: Stopper, live: Live, l: AcceptLabel)
    requires CountInv(f, live) && AcceptStep(cfg, f, st, l).Some? && Counts(l) && !l.Spawn?
    ensures CountInv(AcceptStep(cfg, f, st, l).value, live)
  {
    match l
    case StoreSession => StoringKeepsCounts(f, live);
    case CountUp => CountingUpKeepsCounts(f, live);
    case AddToGroup => AddingKeepsCounts(f, live);
    case Leave => LeavingKeepsCounts(f, live);
  }

  /** The other steps touch nothing that is counted, and stay outside the part where it is. */
  lemma OthersCountNothing(cfg: Config, f: Front, st: Stopper, l: AcceptLabel)
    requires AcceptStep(cfg, f, st, l).Some? && !Counts(l)
    ensures var h := AcceptStep(cfg, f, st, l).value;
            && h.sessions == f.sessions && h.active == f.active && h.group == f.group
            && StoredOnly(f.pc) == StoredOnly(h.pc) == {}
            && !f.pc.AddingToGroup? && !f.pc.Spawning? && !f.pc.Left?
            && !h.pc.AddingToGroup? && !h.pc.Spawning? && !h.pc.Left?
  {
  }

  lemma AcceptKeepsCounts(cfg: Config, f: Front, st: Stopper, live: Live, l: AcceptLabel)
    requires CountInv(f, live) && AcceptStep(cfg, f, st, l).Some? && !l.Spawn?
    ensures CountInv(AcceptStep(cfg, f, st, l).value, live)
  {
    if Counts(l) {
      CountingKeepsCounts(cfg, f, st, live, l);
    } else {
      OthersCountNothing(cfg, f, st, l);
    }
  }

  lemma AcceptKeepsIds(cfg: Config, f: Front, st: Stopper, ids: set<Id>, l: AcceptLabel)
    requires IdInv(f, ids) && AcceptStep(cfg, f, st, l).Some? && !l.Spawn?
    ensures IdInv(AcceptStep(cfg, f, st, l).value, ids)
  {
  }

  lemma AcceptKeepsAddress(cfg: Config, f: Front, st: Stopper, ids: set<Id>, l: AcceptLabel)
    requires AddressInv(cfg, f, ids) && AcceptStep(cfg, f, st, l).Some? && !l.Spawn?
    ensures AddressInv(cfg, AcceptStep(cfg, f, st, l).value, ids)
  {
  }

  lemma AcceptKeepsTotals(cfg: Config, f: Front, st: Stopper, admitted: nat, l: AcceptLabel)
    requires TotalInv(f, admitted) && CapInv(cfg, f) && AcceptStep(cfg, f, st, l).Some? && !l.Spawn?
    ensures var h := AcceptStep(cfg, f, st, l).value; TotalInv(h, admitted) && CapInv(cfg, h)
  {
  }

  lemma AcceptKeepsStop(cfg: Config, f: Front, st: Stopper, live: Live, l: AcceptLabel)
    requires StopInv(f, st) && CountInv(f, live) && AcceptStep(cfg, f, st, l).Some? && !l.Spawn?
    ensures StopInv(AcceptStep(cfg, f, st, l).value, st)
  {
  }

  lemma AcceptKeepsFront(cfg: Config, f: Front, st: Stopper, live: Live, ids: set<Id>, a: AcceptLabel)
    requires FrontInv(cfg, f, st, live, ids) && AcceptStep(cfg, f, st, a).Some? && !a.Spawn?
    ensures FrontInv(cfg, AcceptStep(cfg, f, st, a).value, st, live, ids)
  {
    AcceptKeepsCounts(cfg, f, st, live, a);
    AcceptKeepsIds(cfg, f, st, ids, a);
    AcceptKeepsAddress(cfg, f, st, ids, a);
    AcceptKeepsTotals(cfg, f, st, |ids|, a);
    AcceptKeepsStop(cfg, f, st, live, a);
  }

  lemma StopKeepsStop(f: Front, st: Stopper, l: StopLabel)
    requires StopInv(f, st) && StopStep(st, f, l).Some?
    ensures StopInv(f, StopStep(st, f, l).value)
  {
  }

  lemma SpawningKeepsLife(cfg: Config, g: State)
    requires LifeInv(cfg, g) && g.front.pc.Spawning?
    ensures LifeInv(cfg, g.(front := g.front.(pc := Accepting), procs := g.procs[g.front.pc.id := S.FRESH]))
  {
    var h := g.(front := g.front.(pc := Accepting), procs := g.procs[g.front.pc.id := S.FRESH]);
    LiveAfterSpawn(g.procs, g.front.pc.id, S.FRESH);
    SpawnKeepsLife(cfg, g, h);
  }

  lemma AdmissionKeepsLife(cfg: Config, g: State, a: AcceptLabel)
    requires LifeInv(cfg, g) && AcceptStep(cfg, g.front, g.stop, a).Some? && !a.Spawn?
    ensures LifeInv(cfg, g.(front := AcceptStep(cfg, g.front, g.stop, a).value))
  {
    AcceptKeepsFront(cfg, g.front, g.stop, LiveIn(g.procs), g.procs.Keys, a);
  }

  lemma AcceptKeepsLife(cfg: Config, g: State, a: AcceptLabel)
    requires LifeInv(cfg, g) && Step(cfg, g, Accept(a)).Some?
    ensures LifeInv(cfg, Step(cfg, g, Accept(a)).value)
  {
    if a.Spawn? {
      SpawnStep(cfg, g);
      SpawningKeepsLife(cfg, g);
    } else {
      AdmissionKeepsLife(cfg, g, a);
    }
  }

  lemma StopKeepsLife(cfg: Config, g: State, x: StopLabel)
    requires LifeInv(cfg, g) && Step(cfg, g, Stop(x)).Some?
    ensures LifeInv(cfg, Step(cfg, g, Stop(x)).value)
  {
    StopKeepsStop(g.front, g.stop, x);
  }

  lemma StepKeepsLife(cfg: Config, g: State, l: Label)
    requires LifeInv(cfg, g) && Step(cfg, g, l).Some?
    ensures LifeInv(cfg, Step(cfg, g, l).value)
  {
    match l
    case Accept(a) => AcceptKeepsLife(cfg, g, a);
    case Stop(x) => StopKeepsLife(cfg, g, x);
    case At(id, x) => SessionKeepsLife(cfg, g, id, x);
  }

  lemma NobodyLives(procs: map<Id, S.Session>)
    requires |procs| == 0
    ensures LiveIn(procs) == Live({}, {}, {}) && procs.Keys == {}
  {
  }

  lemma InitialFront(cfg: Config, f: Front, st: Stopper, live: Live, ids: set<Id>)
    requires f.pc.Accepting? && f.total == f.active == f.rejectedByAcl == f.rejectedByCap == 0 && f.group == 1
    requires f.sessions == {} && |f.passed| == 0 && live == Live({}, {}, {}) && ids == {}
    requires st.pc.Running? && !st.stopping && !st.listenerClosed && !st.drained
    ensures FrontInv(cfg, f, st, live, ids)
  {
  }

  lemma InitialLife(cfg: Config, g: State)
    requires g == INITIAL
    ensures LifeInv(cfg, g)
  {
    NobodyLives(g.procs);
    InitialFront(cfg, g.front, g.stop, LiveIn(g.procs), g.procs.Keys);
  }

  lemma {:induction false} RunsKeepLifeOf(cfg: Config, ls: seq<Label>, g: State)
    requires Run(cfg, ls) == Some(g)
    ensures LifeInv(cfg, g)
  {
    if ls == [] {
      InitialLife(cfg, g);
    } else {
      var f := Run(cfg, ls[..|ls|-1]).value;
      RunsKeepLifeOf(cfg, ls[..|ls|-1], f);
      StepKeepsLife(cfg, f, ls[|ls|-1]);
    }
  }

  lemma RunsKeepLife(cfg: Config, ls: seq<Label>)
    requires Run(cfg, ls).Some?
    ensures LifeInv(cfg, Run(cfg, ls).value)
  {
    RunsKeepLifeOf(cfg, ls, Run(cfg, ls).value);
  }

  // ---------------------------------------------------------------- what follows

  /** All ids are in use order, and the one about to be spawned is new. */
  ghost predicate IdsInOrder(g: State) {
    && (forall id <- g.procs.Keys :: id <= g.front.lastId)
    && (g.front.pc.Spawning? ==> g.front.pc.id == g.front.lastId && g.front.pc.id !in g.procs)
  }

  lemma RunsKeepIdsInOrder(cfg: Config, ls: seq<Label>)
    requires Run(cfg, ls).Some?
    ensures IdsInOrder(Run(cfg, ls).value)
  {
    RunsKeepLife(cfg, ls);
  }

  /** With a positive cap the number of active connections never exceeds it, and in any case it
      is never negative: only the accept loop raises it, after its own check. */
  lemma CapIsKept(cfg: Config, ls: seq<Label>)
    requires Run(cfg, ls).Some?
    ensures 0 <= Run(cfg, ls).value.front.active
    ensures cfg.cap > 0 ==> Run(cfg, ls).value.front.active <= cfg.cap
  {
    RunsKeepLife(cfg, ls);
  }

  lemma CapDecides(cfg: Config, f: Front, st: Stopper, h: Front)
    requires AcceptStep(cfg, f, st, CheckCap) == Some(h)
    ensures f.pc.CheckingCap? && (h.pc.CountingCapReject? <==> cfg.cap > 0 && f.active >= cfg.cap)
    ensures !h.pc.CountingCapReject? ==> h.pc == StoringSession(f.pc.id)
  {
  }

  lemma CountedAtCheck(f: Front, live: Live)
    requires CountInv(f, live) && f.pc.CheckingCap?
    ensures f.active == |live.counted|
  {
  }

  /** And a connection that passed the address check is turned away just when that many sessions
      are then counted. */
  lemma TurnedAwayIffFull(cfg: Config, ls: seq<Label>, g: State, h: Front)
    requires Run(cfg, ls) == Some(g) && AcceptStep(cfg, g.front, g.stop, CheckCap) == Some(h)
    ensures g.front.pc.CheckingCap?
    ensures h.pc == if cfg.cap > 0 && |LiveIn(g.procs).counted| >= cfg.cap then CountingCapReject
                    else StoringSession(g.front.pc.id)
  {
    CapDecides(cfg, g.front, g.stop, h);
    assert CountInv(g.front, LiveIn(g.procs)) by { RunsKeepLife(cfg, ls); }
    CountedAtCheck(g.front, LiveIn(g.procs));
  }

  /** Every connection counted was rejected for its address, rejected for the cap, admitted, or
      is the one under way; the active ones are those admitted and not yet counted down. */
  lemma ConnectionsAreConserved(cfg: Config, ls: seq<Label>, g: State)
    requires Run(cfg, ls) == Some(g)
    ensures g.front.total == g.front.rejectedByAcl + g.front.rejectedByCap + |g.procs|
                             + One(Entering(g.front.pc).Some?) + One(BeingDecided(g.front.pc))
    ensures g.front.active == |LiveIn(g.procs).counted| + One(g.front.pc.AddingToGroup? || g.front.pc.Spawning?)
  {
    RunsKeepLife(cfg, ls);
    assert |g.procs| == |g.procs.Keys|;
  }

  /** A connection gets an id that no session has had. */
  lemma IdsAreFresh(cfg: Config, ls: seq<Label>, remote: string)
    requires Run(cfg, ls).Some?
    requires AcceptStep(cfg, Run(cfg, ls).value.front, Run(cfg, ls).value.stop, TakeConnection(remote)).Some?
    ensures var g := Run(cfg, ls).value;
            AcceptStep(cfg, g.front, g.stop, TakeConnection(remote)).value.pc.id !in g.procs
  {
    RunsKeepLife(cfg, ls);
  }

  /** The WaitGroup counts the accept loop while it runs and every session between its Add and
      its Done, and Add never finds it at zero. */
  lemma WaitGroupIsExact(cfg: Config, ls: seq<Label>)
    requires Run(cfg, ls).Some?
    ensures var g := Run(cfg, ls).value;
            && g.front.group == One(!g.front.pc.Left?) + One(g.front.pc.Spawning?) + |LiveIn(g.procs).grouped|
            && (g.front.pc.AddingToGroup? ==> g.front.group >= 1)
  {
    RunsKeepLife(cfg, ls);
  }

  /** Everything is over: the accept loop has left and every session is gone. */
  ghost predicate Over(g: State) {
    && g.front.pc.Left? && g.front.sessions == {} && g.front.active == 0 && g.front.group == 0
    && forall id <- g.procs.Keys :: g.procs[id].svc.pc.Gone?
  }

  lemma ZeroGroupIsOver(cfg: Config, g: State)
    requires LifeInv(cfg, g)
    ensures g.front.group == 0 <==> Over(g)
  {
    if g.front.group == 0 {
      var live := LiveIn(g.procs);
      assert live.grouped == {} && live.counted == {} && live.listed == {};
      forall id | id in g.procs ensures g.procs[id].svc.pc.Gone? {
        assert id !in live.grouped;
      }
    }
  }

  /** When `stop` has returned, everything is over. */
  lemma StoppedIsOver(cfg: Config, ls: seq<Label>)
    requires Run(cfg, ls).Some? && Run(cfg, ls).value.stop.pc.Stopped?
    ensures Over(Run(cfg, ls).value)
  {
    RunsKeepLife(cfg, ls);
    ZeroGroupIsOver(cfg, Run(cfg, ls).value);
  }

  /** Nothing is admitted, counted or released once everything is over. */
  lemma OverIsFinal(cfg: Config, g: State, l: Label)
    requires Over(g) && Step(cfg, g, l).Some?
    ensures Over(Step(cfg, g, l).value)
    ensures Step(cfg, g, l).value.front == g.front && Step(cfg, g, l).value.procs.Keys == g.procs.Keys
  {
    match l
    case Accept(_) =>
    case Stop(_) =>
    case At(id, x) => ExitOrder(cfg.session, g.procs[id], x);
  }

  /** Nothing is admitted after `stop` has returned, however long the relays of old sessions
      still run. */
  lemma {:induction false} NothingAfterStop(cfg: Config, ls: seq<Label>, more: seq<Label>)
    requires Run(cfg, ls).Some? && Run(cfg, ls).value.stop.pc.Stopped? && Run(cfg, ls + more).Some?
    ensures Over(Run(cfg, ls + more).value)
    ensures Run(cfg, ls + more).value.front == Run(cfg, ls).value.front
  {
    if more == [] {
      StoppedIsOver(cfg, ls);
      assert ls + more == ls;
    } else {
      var n := |more| - 1;
      assert (ls + more)[..|ls + more|-1] == ls + more[..n] && (ls + more)[|ls + more|-1] == more[n];
      NothingAfterStop(cfg, ls, more[..n]);
      OverIsFinal(cfg, Run(cfg, ls + more[..n]).value, more[n]);
    }
  }

  lemma SilentStep(cfg: S.Config, s: S.Session, x: S.Label)
    requires S.Step(cfg, s, x).Some? && !ReachesClient(x)
    ensures S.Step(cfg, s, x).value.shared.client.out == s.shared.client.out
  {
    match x
    case Service(_) =>
    case Request(_) =>
    case Response(_) =>
  }

  lemma ForcedStepIsSilent(cfg: Config, g: State, l: Label, h: State, id: Id)
    requires Step(cfg, g, l) == Some(h) && IdsInOrder(g) && id in g.stop.forced && id in g.procs
    ensures id in h.stop.forced && id in h.procs && h.procs[id].shared.client.out == g.procs[id].shared.client.out
  {
    match l
    case Accept(_) =>
    case Stop(_) =>
    case At(i, x) =>
      if i == id {
        SilentStep(cfg.session, g.procs[id], x);
      }
  }

  /** A session whose client connection was closed by force has told its client its last word. */
  lemma {:induction false} ForcedStreamIsFinal(cfg: Config, ls: seq<Label>, g: State, more: seq<Label>, h: State,
                                               id: Id)
    requires Run(cfg, ls) == Some(g) && Run(cfg, ls + more) == Some(h)
    requires id in g.stop.forced && id in g.procs
    ensures id in h.stop.forced && id in h.procs && h.procs[id].shared.client.out == g.procs[id].shared.client.out
    decreases more
  {
    if more == [] {
      assert ls + more == ls;
    } else {
      var n := |more| - 1;
      assert (ls + more)[..|ls + more|-1] == ls + more[..n] && (ls + more)[|ls + more|-1] == more[n];
      var f := Run(cfg, ls + more[..n]).value;
      ForcedStreamIsFinal(cfg, ls, g, more[..n], f, id);
      RunsKeepIdsInOrder(cfg, ls + more[..n]);
      ForcedStepIsSilent(cfg, f, more[n], h, id);
    }
  }

  /** Whoever has a session came from an address the list permits. */
  lemma AdmittedFromPermittedAddress(cfg: Config, acl: Acl.ACL, ls: seq<Label>, id: Id)
    requires cfg.session.acl.Some? && Acl.IsCompiled(cfg.net, acl, cfg.session.acl.value)
    requires Run(cfg, ls).Some? && id in Run(cfg, ls).value.procs
    ensures id in Run(cfg, ls).value.front.passed
    ensures Acl.AddressPermitted(cfg.net, acl, Run(cfg, ls).value.front.passed[id])
  {
    RunsKeepLife(cfg, ls);
    Acl.CompiledAddrCheck(cfg.net, acl, cfg.session.acl.value, Run(cfg, ls).value.front.passed[id]);
  }
}
