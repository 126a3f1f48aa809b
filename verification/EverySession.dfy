/** Whatever the other sessions, the accept loop and `stop` do in between, a session of the proxy
    goes through a run of its own; so all that holds of every session run holds of every session
    of the proxy. */
module EverySession {
  import opened Basics
  import opened Startup
  import opened Gateway
  import Acl
  import Lifecycle
  import S = Session
  import SessionSafety
  import SessionStatus
  import SessionStreams

  /** The steps of one session, in order. */
  function Project(ls: seq<Label>, id: Id): seq<S.Label> {
    if ls == [] then []
    else
      var l := ls[|ls|-1];
      if l.At? && l.id == id then Project(ls[..|ls|-1], id) + [l.l] else Project(ls[..|ls|-1], id)
  }

  ghost predicate RunsAlone(cfg: Config, g: State, id: Id, own: seq<S.Label>) {
    if id in g.procs then S.Run(cfg.session, own) == Some(g.procs[id]) else own == []
  }

  lemma StepRunsAlone(cfg: Config, g: State, l: Label, id: Id, own: seq<S.Label>)
    requires RunsAlone(cfg, g, id, own) && Step(cfg, g, l).Some?
    requires Lifecycle.IdsInOrder(g)
    ensures RunsAlone(cfg, Step(cfg, g, l).value, id, if l.At? && l.id == id then own + [l.l] else own)
  {
    match l
    case Accept(_) =>
    case Stop(_) =>
    case At(i, x) =>
      if i == id {
        assert (own + [x])[..|own|] == own;
      }
  }

  /** Each session of the proxy is in the state that its own steps alone lead to. */
  lemma {:induction false} SessionsRunAlone(cfg: Config, ls: seq<Label>, id: Id)
    requires Run(cfg, ls).Some?
    ensures RunsAlone(cfg, Run(cfg, ls).value, id, Project(ls, id))
  {
    if ls != [] {
      var before, l := ls[..|ls|-1], ls[|ls|-1];
      SessionsRunAlone(cfg, before, id);
      Lifecycle.RunsKeepIdsInOrder(cfg, before);
      StepRunsAlone(cfg, Run(cfg, before).value, l, id, Project(before, id));
    }
  }

  /** In every run of the whole proxy, every session has the stream and safety properties of a
      session by itself. */
  lemma EverySessionIsSound(cfg: Config, ls: seq<Label>, id: Id)
    requires Run(cfg, ls).Some? && id in Run(cfg, ls).value.procs
    ensures SessionStreams.StreamInv(Run(cfg, ls).value.procs[id])
    ensures SessionSafety.SafetyInv(cfg.session, Run(cfg, ls).value.procs[id])
  {
    SessionsRunAlone(cfg, ls, id);
    SessionStreams.RunsKeepStreams(cfg.session, Project(ls, id));
    SessionSafety.RunsAreSafe(cfg.session, Project(ls, id));
  }

  /** A session whose client and backend keep in step is told the truth whatever the other
      sessions do. */
  lemma LockStepSessionsAreToldTheTruth(cfg: Config, ls: seq<Label>, id: Id, s: S.Session)
    requires Run(cfg, ls).Some? && id in Run(cfg, ls).value.procs && s == Run(cfg, ls).value.procs[id]
    requires SessionStatus.LockStepRun(cfg.session, Project(ls, id))
    ensures SessionStatus.StatusPromise(s)
  {
    SessionsRunAlone(cfg, ls, id);
    SessionStatus.LockStepStatusIsTrue(cfg.session, Project(ls, id), s);
  }

  /** In every run of the whole proxy, a session that has dialled a backend passed all checks: its
      address when it was accepted, then its database and its user; and it dialled the backend
      configured for its database. */
  lemma DialledPassedEveryCheck(cfg: Config, acl: Acl.ACL, ls: seq<Label>, g: State, id: Id)
    requires cfg.session.acl.Some? && Acl.IsCompiled(cfg.net, acl, cfg.session.acl.value)
    requires Run(cfg, ls) == Some(g) && id in g.procs && g.procs[id].svc.dialled.Some?
    ensures id in g.front.passed && Acl.AddressPermitted(cfg.net, acl, g.front.passed[id])
    ensures var (sm, db) := g.procs[id].svc.dialled.value;
            && Acl.NamePermitted(acl.allowedDatabases, Param(sm, "database"))
            && Acl.NamePermitted(acl.allowedUsers, Param(sm, "user"))
            && Param(sm, "database") in cfg.session.dbs && db == cfg.session.dbs[Param(sm, "database")]
  {
    Lifecycle.AdmittedFromPermittedAddress(cfg, acl, ls, id);
    SessionsRunAlone(cfg, ls, id);
    var c := cfg.session.acl.value;
    assert cfg.session == S.Config(Some(c), cfg.session.dbs);
    SessionSafety.DialledOnlyIfPermitted(cfg.net, acl, c, cfg.session.dbs, Project(ls, id));
  }

  // ---------------------------------------------------------------- the blocked counter

  function BlockedBelow(procs: map<Id, S.Session>, n: nat): nat {
    if n == 0 then 0 else BlockedBelow(procs, n - 1) + if n - 1 in procs then procs[n - 1].req.blocked else 0
  }

  lemma {:induction false} BlockedElsewhere(procs: map<Id, S.Session>, n: nat, id: Id, t: S.Session)
    requires id >= n
    ensures BlockedBelow(procs[id := t], n) == BlockedBelow(procs, n)
  {
    if n > 0 {
      BlockedElsewhere(procs, n - 1, id, t);
    }
  }

  lemma {:induction false} BlockedUpdate(procs: map<Id, S.Session>, n: nat, id: Id, t: S.Session)
    requires id < n
    ensures BlockedBelow(procs[id := t], n) ==
            BlockedBelow(procs, n) + t.req.blocked - if id in procs then procs[id].req.blocked else 0
  {
    if id == n - 1 {
      BlockedElsewhere(procs, n - 1, id, t);
    } else {
      BlockedUpdate(procs, n - 1, id, t);
    }
  }

  lemma {:induction false} BlockedPadding(procs: map<Id, S.Session>, n: nat, m: nat)
    requires n <= m && forall id <- procs.Keys :: id < n
    ensures BlockedBelow(procs, m) == BlockedBelow(procs, n)
  {
    if n < m {
      BlockedPadding(procs, n, m - 1);
    }
  }

  lemma StepBlocked(cfg: S.Config, s: S.Session, l: S.Label)
    requires S.Step(cfg, s, l).Some?
    ensures S.Step(cfg, s, l).value.req.blocked == s.req.blocked + if l.Request? && l.q.CountBlocked? then 1 else 0
  {
    match l
    case Service(_) =>
    case Request(_) =>
    case Response(_) =>
  }

  ghost predicate BlockedInv(g: State) {
    g.meters.blocked == BlockedBelow(g.procs, g.front.lastId + 1)
  }

  lemma AcceptKeepsBlocked(cfg: Config, g: State, a: AcceptLabel)
    requires BlockedInv(g) && Lifecycle.IdsInOrder(g) && Step(cfg, g, Accept(a)).Some?
    ensures BlockedInv(Step(cfg, g, Accept(a)).value)
  {
    var n := g.front.lastId + 1;
    if a.TakeConnection? {
      BlockedPadding(g.procs, n, n + 1);
    } else if a.Spawn? {
      BlockedUpdate(g.procs, n, g.front.pc.id, S.FRESH);
    }
  }

  lemma SessionKeepsBlocked(cfg: Config, g: State, id: Id, x: S.Label)
    requires BlockedInv(g) && Lifecycle.IdsInOrder(g) && Step(cfg, g, At(id, x)).Some?
    ensures BlockedInv(Step(cfg, g, At(id, x)).value)
  {
    StepBlocked(cfg.session, g.procs[id], x);
    BlockedUpdate(g.procs, g.front.lastId + 1, id, S.Step(cfg.session, g.procs[id], x).value);
  }

  /** BlockedQueries is the number of refusals that all sessions together have counted. */
  lemma {:induction false} BlockedQueriesAddUp(cfg: Config, ls: seq<Label>)
    requires Run(cfg, ls).Some?
    ensures BlockedInv(Run(cfg, ls).value)
  {
    if ls != [] {
      var before, l := ls[..|ls|-1], ls[|ls|-1];
      BlockedQueriesAddUp(cfg, before);
      Lifecycle.RunsKeepIdsInOrder(cfg, before);
      match l
      case Accept(a) => AcceptKeepsBlocked(cfg, Run(cfg, before).value, a);
      case Stop(_) =>
      case At(id, x) => SessionKeepsBlocked(cfg, Run(cfg, before).value, id, x);
    }
  }
}
