/** The cancel registry (section 55.2.8 of the PostgreSQL 16 documentation): whose entries it
    holds, where cancel requests go, and what teardown leaves. */
module CancelRegistry {
  import opened Basics
  import opened Startup
  import opened Gateway
  import opened Lifecycle
  import S = Session

  // ---------------------------------------------------------------- the registry and its history

  /** The last thing that happened to a key. */
  function LastEvent(log: seq<Event>, key: CancelKey): Option<Event> {
    if log == [] then None
    else if log[|log|-1].key == key then Some(log[|log|-1])
    else LastEvent(log[..|log|-1], key)
  }

  /** The registry holds exactly the keys whose last event is a registration, each with the
      target of the session that registered it last and with the key's own secret. */
  ghost predicate HoldsLast(r: Registry) {
    forall key :: match LastEvent(r.log, key)
                  case Some(Registered(_, _, target)) =>
                    key in r.entries && r.entries[key] == S.RegistryEntry(target, key.secret)
                  case _ => key !in r.entries
  }

  /** Each registration was made by a session, for a key its backend gave it, with the target
      that the session had dialled. */
  ghost predicate OwnTargets(log: seq<Event>, procs: map<Id, S.Session>) {
    forall e | e in log :: e.id in procs &&
      (e.Registered? ==> e.key in procs[e.id].resp.stored && TargetOf(procs[e.id]) == Some(e.target))
  }

  /** A session dials once, before it relays. */
  ghost predicate DialInv(s: S.Session) {
    && (s.svc.dialled.Some? ==> !s.svc.pc.Reading? && !s.svc.pc.Deciding?)
    && (s.svc.pc.Connecting? || s.shared.spawned ==> s.svc.dialled.Some?)
    && (s.svc.pc.Deciding? ==> !s.shared.spawned)
  }

  /** A cancel request that found an entry goes to a target some session registered its key with. */
  ghost predicate GoesToOwner(procs: map<Id, S.Session>, target: Target, key: CancelKey) {
    exists id <- procs.Keys :: key in procs[id].resp.stored && TargetOf(procs[id]) == Some(target)
  }

  ghost predicate CancelsInv(procs: map<Id, S.Session>) {
    forall id <- procs.Keys ::
      var v := procs[id].svc;
      && !v.mismatched
      && (v.pc.DialingCancel? || v.pc.SendingCancel? ==> GoesToOwner(procs, v.pc.target, v.pc.key))
      && (v.cancelled.Some? ==> GoesToOwner(procs, v.cancelled.value.0, v.cancelled.value.1))
  }

  lemma LogSnoc(log: seq<Event>, e: Event, key: CancelKey)
    ensures LastEvent(log + [e], key) == if e.key == key then Some(e) else LastEvent(log, key)
  {
    assert (log + [e])[..|log|] == log;
  }

  lemma RegistryKeepsLast(r: Registry, id: Id, s: S.Session, l: S.Label)
    requires HoldsLast(r)
    ensures HoldsLast(RegistryAfter(r, id, s, l))
  {
    var t := RegistryAfter(r, id, s, l);
    if t != r {
      var e := t.log[|r.log|];
      assert t.log == r.log + [e];
      forall key ensures match LastEvent(t.log, key)
                         case Some(Registered(_, _, target)) =>
                           key in t.entries && t.entries[key] == S.RegistryEntry(target, key.secret)
                         case _ => key !in t.entries
      {
        LogSnoc(r.log, e, key);
      }
    }
  }

  // ---------------------------------------------------------------- sessions only grow

  /** The keys a session has registered stay, and so does the target it dialled. */
  ghost predicate Grows(s: S.Session, t: S.Session) {
    s.resp.stored <= t.resp.stored && (TargetOf(s).Some? ==> TargetOf(t) == TargetOf(s))
  }

  lemma StepGrows(cfg: S.Config, s: S.Session, l: S.Label)
    requires DialInv(s) && S.Step(cfg, s, l).Some?
    ensures DialInv(S.Step(cfg, s, l).value) && Grows(s, S.Step(cfg, s, l).value)
  {
    match l
    case Service(_) =>
    case Request(_) =>
    case Response(_) =>
  }

  lemma OwnerStays(procs: map<Id, S.Session>, id: Id, t: S.Session, target: Target, key: CancelKey)
    requires id !in procs || Grows(procs[id], t)
    requires GoesToOwner(procs, target, key)
    ensures GoesToOwner(procs[id := t], target, key)
  {
    var x :| x in procs && key in procs[x].resp.stored && TargetOf(procs[x]) == Some(target);
    assert x in procs[id := t] && key in procs[id := t][x].resp.stored;
  }

  lemma TargetsStay(log: seq<Event>, procs: map<Id, S.Session>, id: Id, t: S.Session)
    requires OwnTargets(log, procs) && (id !in procs || Grows(procs[id], t))
    ensures OwnTargets(log, procs[id := t])
  {
  }

  // ---------------------------------------------------------------- every run

  ghost predicate RegistryInv(g: State) {
    && HoldsLast(g.registry)
    && OwnTargets(g.registry.log, g.procs)
    && (forall id <- g.procs.Keys :: DialInv(g.procs[id]))
    && CancelsInv(g.procs)
  }

  lemma {:induction false} LastEventIsIn(log: seq<Event>, key: CancelKey)
    requires LastEvent(log, key).Some?
    ensures LastEvent(log, key).value in log && LastEvent(log, key).value.key == key
  {
    if log[|log|-1].key != key {
      LastEventIsIn(log[..|log|-1], key);
    }
  }

  /** What a cancel request finds is the target of the session that registered its key last; and
      its secret is the key's. */
  lemma FoundIsLastRegistered(g: State, key: CancelKey)
    requires HoldsLast(g.registry) && OwnTargets(g.registry.log, g.procs) && key in g.registry.entries
    ensures g.registry.entries[key].secret == key.secret
    ensures LastEvent(g.registry.log, key).Some? && LastEvent(g.registry.log, key).value.Registered?
    ensures var e := LastEvent(g.registry.log, key).value;
            && e.id in g.procs && key in g.procs[e.id].resp.stored
            && TargetOf(g.procs[e.id]) == Some(g.registry.entries[key].target)
  {
    assert match LastEvent(g.registry.log, key)
           case Some(Registered(_, _, target)) => g.registry.entries[key] == S.RegistryEntry(target, key.secret)
           case _ => false;
    LastEventIsIn(g.registry.log, key);
  }

  lemma SessionKeepsTargets(cfg: Config, g: State, id: Id, x: S.Label)
    requires OwnTargets(g.registry.log, g.procs) && id in g.procs && DialInv(g.procs[id])
    requires S.Step(cfg.session, g.procs[id], x).Some?
    ensures OwnTargets(RegistryAfter(g.registry, id, g.procs[id], x).log,
                       g.procs[id := S.Step(cfg.session, g.procs[id], x).value])
  {
    var s, t := g.procs[id], S.Step(cfg.session, g.procs[id], x).value;
    StepGrows(cfg.session, s, x);
    TargetsStay(g.registry.log, g.procs, id, t);
    if x.Response? && x.p.StoreRegistry? {
      assert s.resp.pc.key in t.resp.stored;
    }
  }

  /** What the step itself does to its session's cancel request. */
  lemma StepCancels(cfg: S.Config, s: S.Session, x: S.Label)
    requires S.Step(cfg, s, x).Some?
    ensures var v, w := s.svc, S.Step(cfg, s, x).value.svc;
            if x.Service? && x.s.LookUp? then
              && v.pc.LookingUp? && w.cancelled == v.cancelled
              && (x.s.found.None? ==> !w.pc.DialingCancel? && !w.pc.SendingCancel? && w.mismatched == v.mismatched)
              && (x.s.found.Some? && x.s.found.value.secret == v.pc.key.secret ==>
                    w.pc == S.DialingCancel(x.s.found.value.target, v.pc.key) && w.mismatched == v.mismatched)
            else
              && w.mismatched == v.mismatched
              && (w.pc.DialingCancel? || w.pc.SendingCancel? ==>
                    (v.pc.DialingCancel? || v.pc.SendingCancel?) && w.pc.target == v.pc.target && w.pc.key == v.pc.key)
              && (w.cancelled.Some? && w.cancelled != v.cancelled ==>
                    v.pc.SendingCancel? && w.cancelled == Some((v.pc.target, v.pc.key)))
  {
    match x
    case Service(_) =>
    case Request(_) =>
    case Response(_) =>
  }

  lemma SessionKeepsCancels(cfg: Config, g: State, id: Id, x: S.Label)
    requires RegistryInv(g) && Step(cfg, g, At(id, x)).Some?
    ensures CancelsInv(Step(cfg, g, At(id, x)).value.procs)
  {
    var s, t := g.procs[id], S.Step(cfg.session, g.procs[id], x).value;
    var after := g.procs[id := t];
    StepGrows(cfg.session, s, x);
    StepCancels(cfg.session, s, x);
    if x.Service? && x.s.LookUp? && x.s.found.Some? {
      FoundIsLastRegistered(g, s.svc.pc.key);
      assert GoesToOwner(g.procs, x.s.found.value.target, s.svc.pc.key);
    }
    forall i | i in after
      ensures var v := after[i].svc;
              && !v.mismatched
              && (v.pc.DialingCancel? || v.pc.SendingCancel? ==> GoesToOwner(after, v.pc.target, v.pc.key))
              && (v.cancelled.Some? ==> GoesToOwner(after, v.cancelled.value.0, v.cancelled.value.1))
    {
      var v := after[i].svc;
      assert i in g.procs;
      if v.pc.DialingCancel? || v.pc.SendingCancel? {
        OwnerStays(g.procs, id, t, v.pc.target, v.pc.key);
      }
      if v.cancelled.Some? {
        OwnerStays(g.procs, id, t, v.cancelled.value.0, v.cancelled.value.1);
      }
    }
  }

  lemma SpawnKeepsCancels(procs: map<Id, S.Session>, id: Id)
    requires CancelsInv(procs) && id !in procs
    ensures CancelsInv(procs[id := S.FRESH])
  {
    var after := procs[id := S.FRESH];
    forall i | i in after
      ensures var v := after[i].svc;
              && !v.mismatched
              && (v.pc.DialingCancel? || v.pc.SendingCancel? ==> GoesToOwner(after, v.pc.target, v.pc.key))
              && (v.cancelled.Some? ==> GoesToOwner(after, v.cancelled.value.0, v.cancelled.value.1))
    {
      if i != id {
        var v := procs[i].svc;
        if v.pc.DialingCancel? || v.pc.SendingCancel? {
          OwnerStays(procs, id, S.FRESH, v.pc.target, v.pc.key);
        }
        if v.cancelled.Some? {
          OwnerStays(procs, id, S.FRESH, v.cancelled.value.0, v.cancelled.value.1);
        }
      }
    }
  }

  lemma StepKeepsRegistry(cfg: Config, g: State, l: Label)
    requires RegistryInv(g) && IdsInOrder(g) && Step(cfg, g, l).Some?
    ensures RegistryInv(Step(cfg, g, l).value)
  {
    match l
    case Accept(a) =>
      if a.Spawn? {
        TargetsStay(g.registry.log, g.procs, g.front.pc.id, S.FRESH);
        SpawnKeepsCancels(g.procs, g.front.pc.id);
      }
    case Stop(_) =>
    case At(id, x) =>
      RegistryKeepsLast(g.registry, id, g.procs[id], x);
      SessionKeepsTargets(cfg, g, id, x);
      SessionKeepsCancels(cfg, g, id, x);
      StepGrows(cfg.session, g.procs[id], x);
  }

  lemma {:induction false} RunsKeepRegistry(cfg: Config, ls: seq<Label>)
    requires Run(cfg, ls).Some?
    ensures RegistryInv(Run(cfg, ls).value)
  {
    if ls != [] {
      RunsKeepRegistry(cfg, ls[..|ls|-1]);
      RunsKeepIdsInOrder(cfg, ls[..|ls|-1]);
      StepKeepsRegistry(cfg, Run(cfg, ls[..|ls|-1]).value, ls[|ls|-1]);
    }
  }

  /** In every reachable state the registry is what its history says, and each entry is that of
      the session that registered exactly its key last. */
  lemma EntriesBelongToLastRegistrar(cfg: Config, ls: seq<Label>, key: CancelKey)
    requires Run(cfg, ls).Some?
    ensures var g := Run(cfg, ls).value;
            var last := LastEvent(g.registry.log, key);
            && (key in g.registry.entries <==> last.Some? && last.value.Registered?)
            && (key in g.registry.entries ==>
                  && g.registry.entries[key].secret == key.secret
                  && last.value.id in g.procs
                  && TargetOf(g.procs[last.value.id]) == Some(g.registry.entries[key].target))
  {
    RunsKeepRegistry(cfg, ls);
    var g := Run(cfg, ls).value;
    if key in g.registry.entries {
      FoundIsLastRegistered(g, key);
    }
  }

  /** A cancel request only ever goes to the backend of a session that registered its key, and
      the secret of what it finds never fails to match. */
  lemma CancelReachesOwner(cfg: Config, ls: seq<Label>, id: Id)
    requires Run(cfg, ls).Some? && id in Run(cfg, ls).value.procs
    ensures var g := Run(cfg, ls).value;
            && !g.procs[id].svc.mismatched
            && (g.procs[id].svc.cancelled.Some? ==>
                  GoesToOwner(g.procs, g.procs[id].svc.cancelled.value.0, g.procs[id].svc.cancelled.value.1))
  {
    RunsKeepRegistry(cfg, ls);
  }

  // ---------------------------------------------------------------- at the moment of the lookup

  ghost predicate LastRegisteredFor(log: seq<Event>, key: CancelKey, target: Target) {
    var last := LastEvent(log, key);
    last.Some? && last.value.Registered? && last.value.target == target
  }

  /** A lookup finds the target of the session that is at that moment the last to have registered
      exactly the key, or nothing if its last event is not a registration. */
  lemma LookUpFindsLastRegistrar(cfg: Config, ls: seq<Label>, g: State, id: Id, found: Option<S.RegistryEntry>,
                                 h: State)
    requires Run(cfg, ls) == Some(g) && Step(cfg, g, At(id, S.Service(S.LookUp(found)))) == Some(h)
    ensures g.procs[id].svc.pc.LookingUp?
    ensures var key := g.procs[id].svc.pc.key;
            var last := LastEvent(g.registry.log, key);
            if last.Some? && last.value.Registered? then
              && h.procs[id].svc.pc == S.DialingCancel(last.value.target, key)
              && last.value.id in g.procs && key in g.procs[last.value.id].resp.stored
              && TargetOf(g.procs[last.value.id]) == Some(last.value.target)
            else h.procs[id].svc.pc.ClosingClient?
  {
    RunsKeepRegistry(cfg, ls);
    StepCancels(cfg.session, g.procs[id], S.Service(S.LookUp(found)));
    var key := g.procs[id].svc.pc.key;
    assert match LastEvent(g.registry.log, key)
           case Some(Registered(_, _, target)) =>
             key in g.registry.entries && g.registry.entries[key] == S.RegistryEntry(target, key.secret)
           case _ => key !in g.registry.entries;
    if key in g.registry.entries {
      FoundIsLastRegistered(g, key);
    } else {
      NothingFound(cfg.session, g.procs[id]);
    }
  }

  lemma NothingFound(cfg: S.Config, s: S.Session)
    requires S.Step(cfg, s, S.Service(S.LookUp(None))).Some?
    ensures S.Step(cfg, s, S.Service(S.LookUp(None))).value.svc.pc.ClosingClient?
  {
  }

  /** At the n-th step the session looked a key up, and the target was then its last registrar's. */
  ghost predicate LookedUpAt(cfg: Config, ls: seq<Label>, n: nat, id: Id, target: Target, key: CancelKey) {
    && n < |ls| && ls[n].At? && ls[n].id == id && ls[n].l.Service? && ls[n].l.s.LookUp?
    && Run(cfg, ls[..n]).Some? && LastRegisteredFor(Run(cfg, ls[..n]).value.registry.log, key, target)
  }

  ghost predicate WentToLastRegistrar(cfg: Config, ls: seq<Label>, id: Id, v: S.ServiceSide) {
    && (v.pc.DialingCancel? || v.pc.SendingCancel? ==> exists n :: LookedUpAt(cfg, ls, n, id, v.pc.target, v.pc.key))
    && (v.cancelled.Some? ==> exists n :: LookedUpAt(cfg, ls, n, id, v.cancelled.value.0, v.cancelled.value.1))
  }

  lemma LookedUpStays(cfg: Config, ls: seq<Label>, l: Label, n: nat, id: Id, target: Target, key: CancelKey)
    requires LookedUpAt(cfg, ls, n, id, target, key)
    ensures LookedUpAt(cfg, ls + [l], n, id, target, key)
  {
    assert (ls + [l])[..n] == ls[..n];
  }

  lemma WentStays(cfg: Config, ls: seq<Label>, l: Label, id: Id, v: S.ServiceSide)
    requires WentToLastRegistrar(cfg, ls, id, v)
    ensures WentToLastRegistrar(cfg, ls + [l], id, v)
  {
    if v.pc.DialingCancel? || v.pc.SendingCancel? {
      var n :| LookedUpAt(cfg, ls, n, id, v.pc.target, v.pc.key);
      LookedUpStays(cfg, ls, l, n, id, v.pc.target, v.pc.key);
    }
    if v.cancelled.Some? {
      var n :| LookedUpAt(cfg, ls, n, id, v.cancelled.value.0, v.cancelled.value.1);
      LookedUpStays(cfg, ls, l, n, id, v.cancelled.value.0, v.cancelled.value.1);
    }
  }

  lemma StepWent(cfg: Config, ls: seq<Label>, g: State, id: Id, x: S.Label, h: State)
    requires Run(cfg, ls) == Some(g) && Step(cfg, g, At(id, x)) == Some(h)
    requires WentToLastRegistrar(cfg, ls, id, g.procs[id].svc)
    ensures WentToLastRegistrar(cfg, ls + [At(id, x)], id, h.procs[id].svc)
  {
    var more := ls + [At(id, x)];
    WentStays(cfg, ls, At(id, x), id, g.procs[id].svc);
    StepCancels(cfg.session, g.procs[id], x);
    if x.Service? && x.s.LookUp? {
      LookUpFindsLastRegistrar(cfg, ls, g, id, x.s.found, h);
      if h.procs[id].svc.pc.DialingCancel? {
        assert more[..|ls|] == ls;
        assert LookedUpAt(cfg, more, |ls|, id, h.procs[id].svc.pc.target, h.procs[id].svc.pc.key);
      }
    }
  }

  /** Every cancel request that was passed on went to the target of the session that was the last to
      have registered its key when it was looked up. */
  lemma {:induction false} CancelWentToLastRegistrar(cfg: Config, ls: seq<Label>, g: State, id: Id)
    requires Run(cfg, ls) == Some(g) && id in g.procs
    ensures WentToLastRegistrar(cfg, ls, id, g.procs[id].svc)
  {
    if ls != [] {
      var before, l := ls[..|ls|-1], ls[|ls|-1];
      var f := Run(cfg, before).value;
      assert ls == before + [l];
      if id in f.procs {
        CancelWentToLastRegistrar(cfg, before, f, id);
        if l.At? && l.id == id {
          StepWent(cfg, before, f, id, l.l, g);
        } else {
          RunsKeepIdsInOrder(cfg, before);
          WentStays(cfg, before, l, id, f.procs[id].svc);
        }
      }
    }
  }
}
