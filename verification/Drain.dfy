/** Shutdown makes progress: once the accept loop is leaving and every session is ending, the
    remaining work is a number that every step of an exit lowers and no other step raises. */
module Drain {
  import opened Basics
  import opened Gateway
  import opened Lifecycle
  import S = Session

  /** How many steps of its own the service goroutine has left at most. */
  function Rank(pc: S.ServicePc): nat {
    match pc
    case Gone => 0
    case ReleasingGroup => 1
    case CountingDown => 2
    case DeletingSession => 3
    case ClosingClient => 4
    case ClosingBackend => 5
    case DeletingKey(_) => 6
    case LoadingKey => 7
    case Waiting => 8
    case ServiceFailing(_) => 5
    case Rejecting(_, _) => 6
    case CountingConnectError => 7
    case SendingCancel(_, _) => 5
    case DialingCancel(_, _) => 6
    case LookingUp(_) => 7
    case Connecting(_) => 9
    case Deciding(_) => 10
    case Reading => 11
  }

  function RankBelow(procs: map<Id, S.Session>, n: nat): nat {
    if n == 0 then 0 else RankBelow(procs, n - 1) + if n - 1 in procs then Rank(procs[n - 1].svc.pc) else 0
  }

  function Measure(g: State): nat {
    RankBelow(g.procs, g.front.lastId + 1) + One(!g.front.pc.Left?)
  }

  /** The session needs nothing more from its peers to end. */
  predicate Ending(s: S.Session) {
    && !s.svc.pc.Reading? && !s.svc.pc.Deciding? && !s.svc.pc.Connecting?
    && (s.svc.pc.Waiting? ==> s.shared.signal.closed)
  }

  ghost predicate AllEnding(g: State) {
    (g.front.pc.Leaving? || g.front.pc.Left?) && forall id <- g.procs.Keys :: Ending(g.procs[id])
  }

  // ---------------------------------------------------------------- a closed signal ends a session

  predicate Starting(pc: S.ServicePc) {
    || pc.Reading? || pc.Deciding? || pc.Connecting?
    || pc.Rejecting? || pc.CountingConnectError? || pc.ServiceFailing?
  }

  ghost predicate OpenWhileStarting(s: S.Session) {
    Starting(s.svc.pc) ==> !s.shared.signal.closed && !s.shared.spawned
  }

  lemma StepKeepsOpen(cfg: S.Config, s: S.Session, l: S.Label)
    requires OpenWhileStarting(s) && S.Step(cfg, s, l).Some?
    ensures OpenWhileStarting(S.Step(cfg, s, l).value)
  {
    match l
    case Service(_) =>
    case Request(_) =>
    case Response(_) =>
  }

  /** A session whose `errsig` is closed is ending. */
  lemma {:induction false} ClosedIsEnding(cfg: S.Config, ls: seq<S.Label>)
    requires S.Run(cfg, ls).Some?
    ensures OpenWhileStarting(S.Run(cfg, ls).value)
    ensures S.Run(cfg, ls).value.shared.signal.closed ==> Ending(S.Run(cfg, ls).value)
  {
    if ls != [] {
      ClosedIsEnding(cfg, ls[..|ls|-1]);
      StepKeepsOpen(cfg, S.Run(cfg, ls[..|ls|-1]).value, ls[|ls|-1]);
    }
  }

  // ---------------------------------------------------------------- one step

  /** The steps of an exit: a service goroutine's, and the accept loop's last. */
  predicate IsExit(l: Label) {
    (l.At? && l.l.Service?) || l == Accept(Leave)
  }

  lemma ServiceStepLowers(cfg: S.Config, v: S.ServiceSide, sh: S.Shared, x: S.ServiceLabel)
    requires S.ServiceStep(cfg, v, sh, x).Some? && !v.pc.Reading?
    ensures Rank(S.ServiceStep(cfg, v, sh, x).value.side.pc) < Rank(v.pc)
  {
  }

  lemma SessionStepLowers(cfg: S.Config, s: S.Session, l: S.Label)
    requires Ending(s) && S.Step(cfg, s, l).Some?
    ensures var t := S.Step(cfg, s, l).value;
            Ending(t) && if l.Service? then Rank(t.svc.pc) < Rank(s.svc.pc) else t.svc == s.svc
  {
    match l
    case Service(x) => ServiceStepLowers(cfg, s.svc, s.shared, x);
    case Request(_) =>
    case Response(_) =>
  }

  lemma {:induction false} RankElsewhere(procs: map<Id, S.Session>, n: nat, id: Id, t: S.Session)
    requires id >= n
    ensures RankBelow(procs[id := t], n) == RankBelow(procs, n)
  {
    if n > 0 {
      RankElsewhere(procs, n - 1, id, t);
    }
  }

  lemma {:induction false} RankUpdate(procs: map<Id, S.Session>, n: nat, id: Id, t: S.Session)
    requires id < n && id in procs
    ensures RankBelow(procs[id := t], n) == RankBelow(procs, n) + Rank(t.svc.pc) - Rank(procs[id].svc.pc)
  {
    if id == n - 1 {
      RankElsewhere(procs, n - 1, id, t);
    } else {
      RankUpdate(procs, n - 1, id, t);
    }
  }

  /** Every step keeps the sessions ending and raises the measure by nothing; every step of an
      exit lowers it. */
  lemma ExitsLowerMeasure(cfg: Config, g: State, l: Label)
    requires AllEnding(g) && IdsInOrder(g) && Step(cfg, g, l).Some?
    ensures var h := Step(cfg, g, l).value;
            AllEnding(h) && Measure(h) <= Measure(g) && (IsExit(l) ==> Measure(h) < Measure(g))
  {
    match l
    case Accept(_) =>
    case Stop(_) =>
    case At(id, x) => SessionLowersMeasure(cfg, g, id, x);
  }

  lemma SessionLowersMeasure(cfg: Config, g: State, id: Id, x: S.Label)
    requires AllEnding(g) && IdsInOrder(g) && Step(cfg, g, At(id, x)).Some?
    ensures var h := Step(cfg, g, At(id, x)).value;
            AllEnding(h) && if x.Service? then Measure(h) < Measure(g) else Measure(h) == Measure(g)
  {
    var t := S.Step(cfg.session, g.procs[id], x).value;
    SessionStepLowers(cfg.session, g.procs[id], x);
    RankUpdate(g.procs, g.front.lastId + 1, id, t);
  }

  // ---------------------------------------------------------------- progress

  /** The step that an ending session can always take. */
  function NextStep(r: Registry, s: S.Session): S.ServiceLabel {
    match s.svc.pc
    case ReleasingGroup => S.ReleaseGroup
    case CountingDown => S.CountDown
    case DeletingSession => S.DeleteSession
    case ClosingClient => S.CloseClient
    case ClosingBackend => S.CloseBackend
    case DeletingKey(_) => S.DeleteKey
    case LoadingKey => S.LoadKey
    case Waiting => S.PassWait
    case ServiceFailing(_) => S.ReportService
    case Rejecting(_, _) => S.SendFatal(false)
    case CountingConnectError => S.CountConnectError
    case SendingCancel(_, _) => S.SendCancel(false)
    case DialingCancel(_, _) => S.DialCancel(false)
    case LookingUp(key) => S.LookUp(LookUpEntry(r, key))
    case _ => S.Decide
  }

  lemma NextStepIsEnabled(cfg: Config, g: State, id: Id)
    requires id in g.procs && Ending(g.procs[id]) && Grouped(g.procs[id])
    ensures Step(cfg, g, At(id, S.Service(NextStep(g.registry, g.procs[id])))).Some?
  {
    var s := g.procs[id];
    assert S.ServiceStep(cfg.session, s.svc, s.shared, NextStep(g.registry, s)).Some?;
  }

  /** While the WaitGroup is not at zero, some step of an exit can be taken. */
  lemma ExitIsEnabled(cfg: Config, g: State) returns (l: Label)
    requires AllEnding(g) && LifeInv(cfg, g) && g.front.group > 0
    ensures IsExit(l) && Step(cfg, g, l).Some?
  {
    if g.front.pc.Leaving? {
      l := Accept(Leave);
    } else {
      var id :| id in LiveIn(g.procs).grouped;
      NextStepIsEnabled(cfg, g, id);
      l := At(id, S.Service(NextStep(g.registry, g.procs[id])));
    }
  }

  function Exits(ls: seq<Label>): nat {
    if ls == [] then 0 else Exits(ls[..|ls|-1]) + One(IsExit(ls[|ls|-1]))
  }

  /** However the steps interleave from then on, the exits take no more steps than the measure
      said, what is left of it after them being still to do. */
  lemma {:induction false} DrainIsBounded(cfg: Config, ls: seq<Label>, more: seq<Label>)
    requires Run(cfg, ls).Some? && AllEnding(Run(cfg, ls).value) && Run(cfg, ls + more).Some?
    ensures AllEnding(Run(cfg, ls + more).value)
    ensures Exits(more) + Measure(Run(cfg, ls + more).value) <= Measure(Run(cfg, ls).value)
  {
    if more == [] {
      assert ls + more == ls;
    } else {
      var n := |more| - 1;
      assert (ls + more)[..|ls + more|-1] == ls + more[..n] && (ls + more)[|ls + more|-1] == more[n];
      DrainIsBounded(cfg, ls, more[..n]);
      RunsKeepIdsInOrder(cfg, ls + more[..n]);
      ExitsLowerMeasure(cfg, Run(cfg, ls + more[..n]).value, more[n]);
    }
  }

  lemma {:induction false} NoRankIsGone(procs: map<Id, S.Session>, n: nat, id: Id)
    requires RankBelow(procs, n) == 0 && id < n && id in procs
    ensures procs[id].svc.pc.Gone?
  {
    if id < n - 1 {
      NoRankIsGone(procs, n - 1, id);
    }
  }

  lemma AllGone(procs: map<Id, S.Session>, n: nat)
    requires RankBelow(procs, n) == 0 && forall id <- procs.Keys :: id < n
    ensures forall id <- procs.Keys :: procs[id].svc.pc.Gone?
    ensures LiveIn(procs).grouped == {}
  {
    forall id | id in procs ensures procs[id].svc.pc.Gone? {
      NoRankIsGone(procs, n, id);
    }
  }

  lemma NothingLeft(cfg: Config, g: State)
    requires LifeInv(cfg, g) && Measure(g) == 0
    ensures Over(g)
  {
    AllGone(g.procs, g.front.lastId + 1);
    assert g.front.group == 0;
    ZeroGroupIsOver(cfg, g);
  }

  /** When nothing is left to do, the WaitGroup is at zero and everything is over. */
  lemma NoMeasureIsOver(cfg: Config, ls: seq<Label>)
    requires Run(cfg, ls).Some? && Measure(Run(cfg, ls).value) == 0
    ensures Over(Run(cfg, ls).value)
  {
    RunsKeepLife(cfg, ls);
    NothingLeft(cfg, Run(cfg, ls).value);
  }
}
