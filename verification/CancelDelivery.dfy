/** When a cancel request is passed on: exactly if its session received it, found its key, dialled
    and wrote, in that order; and then it went where the key's last registrar was. */
module CancelDelivery {
  import opened Basics
  import opened Startup
  import opened Gateway
  import opened EverySession
  import CancelRegistry
  import Lifecycle
  import Teardown
  import S = Session

  // ---------------------------------------------------------------- one session

  predicate IsCancelStep(l: S.ServiceLabel) {
    l.CancelArrives? || l.LookUp? || l.DialCancel? || l.SendCancel?
  }

  /** The steps of a schedule that have to do with a cancel request, in order. */
  function CancelSteps(ls: seq<S.Label>): seq<S.ServiceLabel> {
    if ls == [] then []
    else
      var l := ls[|ls|-1];
      CancelSteps(ls[..|ls|-1]) + if l.Service? && IsCancelStep(l.s) then [l.s] else []
  }

  /** The first steps of a request with this key whose lookup finds this target. */
  ghost predicate FoundBy(steps: seq<S.ServiceLabel>, target: Target, key: CancelKey) {
    && |steps| >= 2 && steps[0] == S.CancelArrives(key)
    && steps[1].LookUp? && steps[1].found == Some(S.RegistryEntry(target, key.secret))
  }

  ghost predicate Delivered(steps: seq<S.ServiceLabel>, target: Target, key: CancelKey) {
    steps == [S.CancelArrives(key), S.LookUp(Some(S.RegistryEntry(target, key.secret))),
              S.DialCancel(true), S.SendCancel(true)]
  }

  ghost predicate NotSent(steps: seq<S.ServiceLabel>) {
    forall x <- steps :: x != S.SendCancel(true)
  }

  /** What the steps so far amount to, point by point. */
  ghost predicate OnItsWay(steps: seq<S.ServiceLabel>, v: S.ServiceSide) {
    match v.pc
    case Reading => steps == [] && v.cancelled.None?
    case LookingUp(key) => steps == [S.CancelArrives(key)] && v.cancelled.None?
    case DialingCancel(target, key) => |steps| == 2 && FoundBy(steps, target, key) && v.cancelled.None?
    case SendingCancel(target, key) =>
      |steps| == 3 && FoundBy(steps, target, key) && steps[2] == S.DialCancel(true) && v.cancelled.None?
    case _ =>
      if v.cancelled.Some? then
        && |steps| == 4 && FoundBy(steps, v.cancelled.value.0, v.cancelled.value.1)
        && steps[2] == S.DialCancel(true) && steps[3] == S.SendCancel(true)
      else NotSent(steps)
  }

  lemma CancelStepIsOnItsWay(cfg: S.Config, v: S.ServiceSide, sh: S.Shared, l: S.ServiceLabel,
                             steps: seq<S.ServiceLabel>)
    requires OnItsWay(steps, v) && S.ServiceStep(cfg, v, sh, l).Some? && IsCancelStep(l)
    ensures OnItsWay(steps + [l], S.ServiceStep(cfg, v, sh, l).value.side)
  {
  }

  lemma OtherStepIsOnItsWay(cfg: S.Config, v: S.ServiceSide, sh: S.Shared, l: S.ServiceLabel,
                            steps: seq<S.ServiceLabel>)
    requires OnItsWay(steps, v) && S.ServiceStep(cfg, v, sh, l).Some? && !IsCancelStep(l)
    ensures OnItsWay(steps, S.ServiceStep(cfg, v, sh, l).value.side)
  {
    assert NotSent([]);
  }

  lemma {:induction false} RunIsOnItsWay(cfg: S.Config, ls: seq<S.Label>, s: S.Session)
    requires S.Run(cfg, ls) == Some(s)
    ensures OnItsWay(CancelSteps(ls), s.svc)
  {
    if ls != [] {
      var before, l := ls[..|ls|-1], ls[|ls|-1];
      var b := S.Run(cfg, before).value;
      RunIsOnItsWay(cfg, before, b);
      if l.Service? {
        if IsCancelStep(l.s) {
          CancelStepIsOnItsWay(cfg, b.svc, b.shared, l.s, CancelSteps(before));
        } else {
          OtherStepIsOnItsWay(cfg, b.svc, b.shared, l.s, CancelSteps(before));
        }
      }
    }
  }

  lemma OneRequest(steps: seq<S.ServiceLabel>, v: S.ServiceSide, k: CancelKey, key: CancelKey)
    requires OnItsWay(steps, v) && S.SendCancel(true) in steps
    requires S.CancelArrives(k) in steps && S.CancelArrives(key) in steps
    ensures k == key
  {
    assert steps == [steps[0], steps[1], steps[2], steps[3]];
  }

  lemma OneTarget(steps: seq<S.ServiceLabel>, v: S.ServiceSide, target: Target, key: CancelKey)
    requires OnItsWay(steps, v) && S.SendCancel(true) in steps && S.CancelArrives(key) in steps
    requires S.LookUp(Some(S.RegistryEntry(target, key.secret))) in steps
    ensures v.cancelled == Some((target, key))
  {
    assert steps == [steps[0], steps[1], steps[2], steps[3]];
  }

  lemma {:induction false} CancelStepsAreThose(ls: seq<S.Label>, x: S.ServiceLabel)
    requires IsCancelStep(x)
    ensures x in CancelSteps(ls) <==> S.Service(x) in ls
  {
    if ls != [] {
      var before, l := ls[..|ls|-1], ls[|ls|-1];
      CancelStepsAreThose(before, x);
      assert ls == before + [l];
    }
  }

  /** In every run, a session has passed on a cancel request if and only if it received it, found an
      entry with its secret, dialled the entry's target and wrote the request; and then it passed
      on that key, there. */
  lemma PassedOnIff(cfg: S.Config, ls: seq<S.Label>, s: S.Session, target: Target, key: CancelKey)
    requires S.Run(cfg, ls) == Some(s)
    ensures s.svc.cancelled == Some((target, key)) <==> Delivered(CancelSteps(ls), target, key)
    ensures s.svc.cancelled.Some? <==> S.Service(S.SendCancel(true)) in ls
  {
    RunIsOnItsWay(cfg, ls, s);
    CancelStepsAreThose(ls, S.SendCancel(true));
  }

  // ---------------------------------------------------------------- the whole proxy

  lemma {:induction false} ProjectHas(ls: seq<Label>, id: Id, x: S.Label)
    ensures x in Project(ls, id) <==> At(id, x) in ls
  {
    if ls != [] {
      var before, l := ls[..|ls|-1], ls[|ls|-1];
      ProjectHas(before, id, x);
      assert ls == before + [l];
    }
  }

  lemma {:induction false} EveryPrefixRuns(cfg: Config, ls: seq<Label>, n: nat)
    requires Run(cfg, ls).Some? && n <= |ls|
    ensures Run(cfg, ls[..n]).Some?
  {
    if n < |ls| {
      EveryPrefixRuns(cfg, ls[..|ls|-1], n);
      assert ls[..|ls|-1][..n] == ls[..n];
    } else {
      assert ls[..n] == ls;
    }
  }

  /** The session took this step at some point of the schedule. */
  predicate Takes(ls: seq<Label>, id: Id, l: S.ServiceLabel) {
    At(id, S.Service(l)) in ls
  }

  lemma TakesIsCancelStep(ls: seq<Label>, id: Id, l: S.ServiceLabel)
    requires IsCancelStep(l)
    ensures Takes(ls, id, l) <==> l in CancelSteps(Project(ls, id))
  {
    ProjectHas(ls, id, S.Service(l));
    CancelStepsAreThose(Project(ls, id), l);
  }

  /** A lookup of this key that takes place finds the entry of the key's last registrar. */
  lemma FindsThatEntry(cfg: Config, ls: seq<Label>, g: State, id: Id, found: Option<S.RegistryEntry>,
                       target: Target, key: CancelKey)
    requires Run(cfg, ls) == Some(g) && Step(cfg, g, At(id, S.Service(S.LookUp(found)))).Some?
    requires CancelRegistry.LastRegisteredFor(g.registry.log, key, target)
    ensures g.procs[id].svc.pc.LookingUp?
    ensures g.procs[id].svc.pc.key == key ==> found == Some(S.RegistryEntry(target, key.secret))
  {
    CancelRegistry.RunsKeepRegistry(cfg, ls);
    CancelRegistry.StepCancels(cfg.session, g.procs[id], S.Service(S.LookUp(found)));
  }

  lemma LookUpWasOf(cfg: Config, ls: seq<Label>, n: nat, id: Id, target: Target, key: CancelKey)
    returns (k: CancelKey)
    requires Run(cfg, ls).Some? && CancelRegistry.LookedUpAt(cfg, ls, n, id, target, key)
    ensures Takes(ls, id, S.CancelArrives(k))
    ensures k == key ==> Takes(ls, id, S.LookUp(Some(S.RegistryEntry(target, key.secret))))
  {
    var h := Run(cfg, ls[..n]).value;
    EveryPrefixRuns(cfg, ls, n + 1);
    assert ls[..n + 1] == ls[..n] + [ls[n]];
    RunSnoc(cfg, ls[..n], ls[n], h);
    FindsThatEntry(cfg, ls[..n], h, id, ls[n].l.s.found, target, key);
    k := h.procs[id].svc.pc.key;
    HasArrived(cfg, ls[..n], h, id);
    assert At(id, ls[n].l) in ls;
  }

  lemma HasArrived(cfg: Config, ls: seq<Label>, g: State, id: Id)
    requires Run(cfg, ls) == Some(g) && id in g.procs && g.procs[id].svc.pc.LookingUp?
    ensures Takes(ls, id, S.CancelArrives(g.procs[id].svc.pc.key))
  {
    SessionsRunAlone(cfg, ls, id);
    RunIsOnItsWay(cfg.session, Project(ls, id), g.procs[id]);
    TakesIsCancelStep(ls, id, S.CancelArrives(g.procs[id].svc.pc.key));
  }

  /** In every run of the proxy, a session has passed a cancel request on to a target if and only if
      it received the request, looked its key up while the target was that of the key's last
      registrar, and then dialled and wrote without a failure. */
  lemma CancelIsDeliveredIff(cfg: Config, ls: seq<Label>, g: State, id: Id, target: Target, key: CancelKey)
    requires Run(cfg, ls) == Some(g) && id in g.procs
    ensures g.procs[id].svc.cancelled == Some((target, key)) <==>
            && Takes(ls, id, S.CancelArrives(key))
            && (exists n :: CancelRegistry.LookedUpAt(cfg, ls, n, id, target, key))
            && Takes(ls, id, S.DialCancel(true)) && Takes(ls, id, S.SendCancel(true))
  {
    SessionsRunAlone(cfg, ls, id);
    var steps := CancelSteps(Project(ls, id));
    TakesIsCancelStep(ls, id, S.CancelArrives(key));
    TakesIsCancelStep(ls, id, S.DialCancel(true));
    TakesIsCancelStep(ls, id, S.SendCancel(true));
    PassedOnIff(cfg.session, Project(ls, id), g.procs[id], target, key);
    if g.procs[id].svc.cancelled == Some((target, key)) {
      CancelRegistry.CancelWentToLastRegistrar(cfg, ls, g, id);
    } else if Takes(ls, id, S.SendCancel(true)) && Takes(ls, id, S.CancelArrives(key)) {
      RunIsOnItsWay(cfg.session, Project(ls, id), g.procs[id]);
      forall n ensures !CancelRegistry.LookedUpAt(cfg, ls, n, id, target, key) {
        if CancelRegistry.LookedUpAt(cfg, ls, n, id, target, key) {
          var k := LookUpWasOf(cfg, ls, n, id, target, key);
          TakesIsCancelStep(ls, id, S.CancelArrives(k));
          OneRequest(steps, g.procs[id].svc, k, key);
          TakesIsCancelStep(ls, id, S.LookUp(Some(S.RegistryEntry(target, key.secret))));
          OneTarget(steps, g.procs[id].svc, target, key);
          assert false;
        }
      }
    }
  }

  // ---------------------------------------------------------------- every key a backend gives

  /** The keys that a session registered, in order. */
  function RegisteredBy(log: seq<Event>, id: Id): seq<CancelKey> {
    if log == [] then []
    else
      var e := log[|log|-1];
      RegisteredBy(log[..|log|-1], id) + if e.Registered? && e.id == id then [e.key] else []
  }

  function OnTheWay(pc: S.ResponsePc): seq<CancelKey> {
    if pc.StoringRegistry? then [pc.key] else []
  }

  ghost predicate StoresWhatItHears(p: S.ResponseSide) {
    p.stored + OnTheWay(p.pc) == Teardown.KeysOf(p.fromBackend)
  }

  lemma ResponseStores(p: S.ResponseSide, sh: S.Shared, l: S.ResponseLabel)
    requires StoresWhatItHears(p) && S.ResponseStep(p, sh, l).Some?
    ensures StoresWhatItHears(S.ResponseStep(p, sh, l).value.side)
  {
    if l.Hear? {
      Teardown.KeysSnoc(p.fromBackend, l.m);
    }
  }

  lemma {:induction false} RunStores(cfg: S.Config, ls: seq<S.Label>, s: S.Session)
    requires S.Run(cfg, ls) == Some(s)
    ensures StoresWhatItHears(s.resp)
  {
    if ls != [] {
      var before, l := ls[..|ls|-1], ls[|ls|-1];
      var b := S.Run(cfg, before).value;
      RunStores(cfg, before, b);
      match l
      case Service(_) =>
      case Request(_) =>
      case Response(x) => ResponseStores(b.resp, b.shared, x);
    }
  }

  lemma RegisteredSnoc(log: seq<Event>, e: Event, id: Id)
    ensures RegisteredBy(log + [e], id) ==
            RegisteredBy(log, id) + if e.Registered? && e.id == id then [e.key] else []
  {
    assert (log + [e])[..|log|] == log;
  }

  /** What a step of a session adds to the log, and to the session's own record. */
  lemma StepRegisters(cfg: S.Config, r: Registry, id: Id, s: S.Session, x: S.Label, t: S.Session, other: Id)
    requires S.Step(cfg, s, x) == Some(t) && CancelRegistry.DialInv(s)
    ensures RegisteredBy(RegistryAfter(r, id, s, x).log, other) ==
            RegisteredBy(r.log, other) + if other == id then t.resp.stored[|s.resp.stored|..] else []
    ensures s.resp.stored <= t.resp.stored
  {
    CancelRegistry.StepGrows(cfg, s, x);
    var after := RegistryAfter(r, id, s, x);
    if x.Response? && x.p.StoreRegistry? {
      assert after.log == r.log + [Registered(id, s.resp.pc.key, TargetOf(s).value)];
      RegisteredSnoc(r.log, after.log[|r.log|], other);
      assert t.resp.stored == s.resp.stored + [s.resp.pc.key];
    } else if after.log != r.log {
      RegisteredSnoc(r.log, after.log[|r.log|], other);
      StoresNothing(cfg, s, x, t);
    } else {
      StoresNothing(cfg, s, x, t);
    }
  }

  lemma StoresNothing(cfg: S.Config, s: S.Session, x: S.Label, t: S.Session)
    requires S.Step(cfg, s, x) == Some(t) && !(x.Response? && x.p.StoreRegistry?)
    ensures t.resp.stored == s.resp.stored
  {
    match x
    case Service(_) =>
    case Request(_) =>
    case Response(_) =>
  }

  ghost predicate LogIsRecord(g: State, id: Id) {
    RegisteredBy(g.registry.log, id) == if id in g.procs then g.procs[id].resp.stored else []
  }

  lemma SessionRecords(cfg: Config, g: State, i: Id, x: S.Label, h: State, id: Id)
    requires LogIsRecord(g, id) && Step(cfg, g, At(i, x)) == Some(h)
    requires CancelRegistry.DialInv(g.procs[i])
    ensures LogIsRecord(h, id)
  {
    StepRegisters(cfg.session, g.registry, i, g.procs[i], x, h.procs[i], id);
  }

  lemma AcceptRecords(cfg: Config, g: State, a: AcceptLabel, h: State, id: Id)
    requires LogIsRecord(g, id) && Step(cfg, g, Accept(a)) == Some(h) && Lifecycle.IdsInOrder(g)
    ensures LogIsRecord(h, id)
  {
  }

  lemma {:induction false} RunsRecord(cfg: Config, ls: seq<Label>, g: State, id: Id)
    requires Run(cfg, ls) == Some(g)
    ensures LogIsRecord(g, id)
  {
    if ls != [] {
      var before, l := ls[..|ls|-1], ls[|ls|-1];
      var b := Run(cfg, before).value;
      RunsRecord(cfg, before, b, id);
      match l
      case Accept(a) =>
        Lifecycle.RunsKeepIdsInOrder(cfg, before);
        AcceptRecords(cfg, b, a, g, id);
      case Stop(_) =>
      case At(i, x) =>
        CancelRegistry.RunsKeepRegistry(cfg, before);
        SessionRecords(cfg, b, i, x, g, id);
    }
  }

  /** In every run of the proxy, a session has registered the keys that its backend gave it, in that
      order and nothing else, but for the one that its relay is about to register. */
  lemma KeysAreRegistered(cfg: Config, ls: seq<Label>, g: State, id: Id)
    requires Run(cfg, ls) == Some(g) && id in g.procs
    ensures RegisteredBy(g.registry.log, id) + OnTheWay(g.procs[id].resp.pc) ==
            Teardown.KeysOf(g.procs[id].resp.fromBackend)
  {
    RunsRecord(cfg, ls, g, id);
    SessionsRunAlone(cfg, ls, id);
    RunStores(cfg.session, Project(ls, id), g.procs[id]);
  }

  /** A request that was passed on went to the backend configured for the database that a session
      with this key had asked for. */
  lemma CancelGoesToConfiguredBackend(cfg: Config, ls: seq<Label>, g: State, id: Id, target: Target, key: CancelKey)
    returns (owner: Id)
    requires Run(cfg, ls) == Some(g) && id in g.procs && g.procs[id].svc.cancelled == Some((target, key))
    ensures owner in g.procs && key in Teardown.KeysOf(g.procs[owner].resp.fromBackend)
    ensures g.procs[owner].svc.dialled.Some?
    ensures var database := Param(g.procs[owner].svc.dialled.value.0, "database");
            database in cfg.session.dbs && target == TargetFor(cfg.session.dbs[database].addr)
  {
    CancelRegistry.CancelReachesOwner(cfg, ls, id);
    owner :| owner in g.procs && key in g.procs[owner].resp.stored && TargetOf(g.procs[owner]) == Some(target);
    EverySessionIsSound(cfg, ls, owner);
    SessionsRunAlone(cfg, ls, owner);
    RunStores(cfg.session, Project(ls, owner), g.procs[owner]);
  }
}
