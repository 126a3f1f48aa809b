/** The accept loop and `stop` as they are, updating the counters, the sessions map and the
    WaitGroup in place, with everything else free to step between any two of their actions. */
module ServerLoops {
  import opened Basics
  import opened Gateway
  import opened Lifecycle
  import Acl
  import S = Session

  /** `Metrics`. */
  class Metrics {
    var totalConnections: int
    var activeConnections: int
    var rejectedByACL: int
    var rejectedByMaxConnections: int
    var blockedQueries: int
    var backendConnectErrors: int

    constructor ()
      ensures totalConnections == activeConnections == rejectedByACL == rejectedByMaxConnections == 0
      ensures blockedQueries == backendConnectErrors == 0
    {
      totalConnections, activeConnections, rejectedByACL := 0, 0, 0;
      rejectedByMaxConnections, blockedQueries, backendConnectErrors := 0, 0, 0;
    }

    method AddTotalConnections(n: int)
      modifies `totalConnections
      ensures totalConnections == old(totalConnections) + n
    {
      totalConnections := totalConnections + n;
    }

    method AddActiveConnections(n: int)
      modifies `activeConnections
      ensures activeConnections == old(activeConnections) + n
    {
      activeConnections := activeConnections + n;
    }

    method AddRejectedByACL(n: int)
      modifies `rejectedByACL
      ensures rejectedByACL == old(rejectedByACL) + n
    {
      rejectedByACL := rejectedByACL + n;
    }

    method AddRejectedByMaxConnections(n: int)
      modifies `rejectedByMaxConnections
      ensures rejectedByMaxConnections == old(rejectedByMaxConnections) + n
    {
      rejectedByMaxConnections := rejectedByMaxConnections + n;
    }
  }

  lemma AcceptRuns(cfg: Config, ls: seq<Label>, g: State, a: AcceptLabel, f: Front)
    requires Run(cfg, ls) == Some(g) && AcceptStep(cfg, g.front, g.stop, a) == Some(f) && !a.Spawn?
    ensures Run(cfg, ls + [Accept(a)]) == Some(g.(front := f))
  {
    RunSnoc(cfg, ls, Accept(a), g);
  }

  lemma CapRejectionRuns(cfg: Config, ls: seq<Label>, g: State)
    requires Run(cfg, ls) == Some(g) && g.front.pc.CountingCapReject?
    ensures Run(cfg, ls + [Accept(CountCapReject)]) ==
            Some(g.(front := g.front.(pc := TurningAway("53300"), rejectedByCap := g.front.rejectedByCap + 1)))
  {
    RunSnoc(cfg, ls, Accept(CountCapReject), g);
  }

  lemma StopRuns(cfg: Config, ls: seq<Label>, g: State, x: StopLabel, st: Stopper)
    requires Run(cfg, ls) == Some(g) && StopStep(g.stop, g.front, x) == Some(st)
    ensures Run(cfg, ls + [Stop(x)]) == Some(g.(stop := st))
  {
    RunSnoc(cfg, ls, Stop(x), g);
  }

  /** From the `from`-th step on there was a moment with that many active connections. */
  ghost predicate ActiveSince(cfg: Config, ls: seq<Label>, from: nat, active: int) {
    exists n | from <= n <= |ls| :: Run(cfg, ls[..n]).Some? && Run(cfg, ls[..n]).value.front.active == active
  }

  lemma ActiveNow(cfg: Config, ls: seq<Label>, from: nat, g: State)
    requires Run(cfg, ls) == Some(g) && from <= |ls|
    ensures ActiveSince(cfg, ls, from, g.front.active)
  {
    assert ls[..|ls|] == ls;
  }

  lemma ActiveStays(cfg: Config, ls: seq<Label>, from: nat, active: int, more: seq<Label>, least: nat)
    requires ActiveSince(cfg, ls, from, active) && ls <= more && least <= from
    ensures ActiveSince(cfg, more, least, active)
  {
    var n :| from <= n <= |ls| && Run(cfg, ls[..n]).Some? && Run(cfg, ls[..n]).value.front.active == active;
    assert more[..n] == ls[..n];
  }

  ghost predicate Took(cfg: Config, g: State, l: Label, h: State) {
    h == if Step(cfg, g, l).Some? then Step(cfg, g, l).value else g
  }

  /** What a step that is not the accept loop's leaves alone. */
  ghost predicate AdmissionKept(g: State, h: State) {
    && h.front.pc == g.front.pc && h.front.lastId == g.front.lastId && h.front.total == g.front.total
    && h.front.rejectedByAcl == g.front.rejectedByAcl && h.front.rejectedByCap == g.front.rejectedByCap
    && h.front.passed == g.front.passed && h.procs.Keys == g.procs.Keys
  }

  datatype Who = Acceptor | Terminator

  predicate Own(me: Who, l: Label) {
    if me.Acceptor? then l.Accept? else l.Stop?
  }

  ghost predicate OwnPartKept(me: Who, g: State, h: State) {
    if me.Acceptor? then AdmissionKept(g, h) else h.stop == g.stop
  }

  lemma OthersLeave(cfg: Config, me: Who, g: State, l: Label, h: State)
    requires !Own(me, l) && Took(cfg, g, l, h)
    ensures OwnPartKept(me, g, h)
  {
  }

  lemma SpawnRuns(cfg: Config, ls: seq<Label>, g: State)
    requires Run(cfg, ls) == Some(g) && g.front.pc.Spawning?
    ensures Run(cfg, ls + [Accept(Spawn)]) ==
            Some(g.(front := g.front.(pc := Accepting), procs := g.procs[g.front.pc.id := S.FRESH]))
  {
    RunSnoc(cfg, ls, Accept(Spawn), g);
  }

  ghost predicate SameCounts(g: State, h: State, total: int, byAcl: int, byCap: int) {
    && h.front.total == g.front.total + total
    && h.front.rejectedByAcl == g.front.rejectedByAcl + byAcl
    && h.front.rejectedByCap == g.front.rejectedByCap + byCap
  }

  ghost predicate Decided(cfg: Config, g: State, h: State, id: Id, remote: string, loaded: int) {
    if !Acl.AddrOK(cfg.net, cfg.session.acl, remote) then SameCounts(g, h, 0, 1, 0) && h.procs.Keys == g.procs.Keys
    else if cfg.cap > 0 && loaded >= cfg.cap then SameCounts(g, h, 0, 0, 1) && h.procs.Keys == g.procs.Keys
    else
      && SameCounts(g, h, 0, 0, 0) && h.procs.Keys == g.procs.Keys + {id}
      && id in h.front.passed && h.front.passed[id] == remote
  }

  /** A connection from a forbidden address is counted as that; any other is let in with its address,
      or, if there is a cap and the count that was loaded has reached it, counted as over it. */
  ghost predicate Outcome(cfg: Config, g: State, h: State, remote: string, loaded: int) {
    var id := g.front.lastId + 1;
    if !Acl.AddrOK(cfg.net, cfg.session.acl, remote) then SameCounts(g, h, 1, 1, 0) && h.procs.Keys == g.procs.Keys
    else if cfg.cap > 0 && loaded >= cfg.cap then SameCounts(g, h, 1, 0, 1) && h.procs.Keys == g.procs.Keys
    else
      && SameCounts(g, h, 1, 0, 0) && h.procs.Keys == g.procs.Keys + {id}
      && id in h.front.passed && h.front.passed[id] == remote
  }

  ghost predicate Judged(cfg: Config, before: AcceptPc, after: AcceptPc, passed: map<Id, string>, loaded: int)
    requires before.CheckingAddr?
  {
    if !Acl.AddrOK(cfg.net, cfg.session.acl, before.remote) then after == CountingAclReject
    else if cfg.cap > 0 && loaded >= cfg.cap then after == CountingCapReject
    else after == StoringSession(before.id) && before.id in passed && passed[before.id] == before.remote
  }

  lemma OverOrNot(cfg: Config, ls: seq<Label>, g: State)
    requires Run(cfg, ls) == Some(g)
    ensures g.stop.pc.Stopped? ==> Over(g)
    ensures g.front.group >= 0
  {
    RunsKeepLife(cfg, ls);
    ZeroGroupIsOver(cfg, g);
  }

  lemma MetAndDecided(cfg: Config, g: State, m: State, h: State, remote: string, loaded: int)
    requires SameCounts(g, m, 1, 0, 0) && m.procs.Keys == g.procs.Keys && m.front.lastId == g.front.lastId + 1
    requires Decided(cfg, m, h, m.front.lastId, remote, loaded)
    ensures Outcome(cfg, g, h, remote, loaded)
  {
  }

  class Server {
    const cfg: Config
    const metrics: Metrics

    // the accept loop
    var pc: AcceptPc
    var connid: Id
    var passed: map<Id, string>

    // shared
    var sessions: set<Id>
    var group: int
    var stopper: Stopper
    var registry: Registry
    var procs: map<Id, S.Session>

    /** What the scheduler will let the others do at the next points. */
    var schedule: seq<seq<Label>>

    ghost var trace: seq<Label>

    function FrontNow(): Front
      reads this, metrics
    {
      Front(pc, connid, metrics.totalConnections, metrics.activeConnections, metrics.rejectedByACL,
            metrics.rejectedByMaxConnections, sessions, group, passed)
    }

    function Now(): State
      reads this, metrics
    {
      State(FrontNow(), stopper, registry, Meters(metrics.blockedQueries, metrics.backendConnectErrors), procs)
    }

    /** The proxy is where its steps so far have led. */
    ghost predicate Valid()
      reads this, metrics
    {
      Run(cfg, trace) == Some(Now())
    }

    constructor (cfg: Config, schedule: seq<seq<Label>>)
      ensures Valid() && fresh(metrics) && Now() == INITIAL && trace == []
      ensures this.cfg == cfg && this.schedule == schedule
    {
      this.cfg, this.schedule := cfg, schedule;
      metrics := new Metrics();
      pc, connid, passed, sessions, group := Accepting, 0, map[], {}, 1;
      stopper, registry, procs := Stopper(Running, false, false, false, {}), Registry(map[], []), map[];
      trace := [];
    }

    // -------------------------------------------------------------- the others' turns

    method Put(g: State)
      modifies this, metrics
      ensures Now() == g && schedule == old(schedule) && trace == old(trace)
    {
      pc, connid, passed := g.front.pc, g.front.lastId, g.front.passed;
      sessions, group := g.front.sessions, g.front.group;
      metrics.totalConnections, metrics.activeConnections := g.front.total, g.front.active;
      metrics.rejectedByACL, metrics.rejectedByMaxConnections := g.front.rejectedByAcl, g.front.rejectedByCap;
      metrics.blockedQueries, metrics.backendConnectErrors := g.meters.blocked, g.meters.connectErrors;
      stopper, registry, procs := g.stop, g.registry, g.procs;
    }

    /** A step of some goroutine, if it is enabled. */
    method Take(l: Label)
      requires Valid()
      modifies this, metrics
      ensures Valid() && schedule == old(schedule)
      ensures Took(cfg, old(Now()), l, Now())
      ensures trace == old(trace) + if Step(cfg, old(Now()), l).Some? then [l] else []
    {
      var after := Step(cfg, Now(), l);
      if after.Some? {
        Put(after.value);
        RunSnoc(cfg, trace, l, old(Now()));
        trace := trace + [l];
      }
    }

    /** The others take the steps that the scheduler gives them, those that are enabled. */
    method Interfere(me: Who)
      requires Valid()
      modifies this, metrics
      ensures Valid() && old(trace) <= trace && OwnPartKept(me, old(Now()), Now())
      ensures schedule == if old(schedule) == [] then [] else old(schedule)[1..]
    {
      if schedule != [] {
        var batch := schedule[0];
        schedule := schedule[1..];
        for i := 0 to |batch|
          invariant Valid() && old(trace) <= trace && OwnPartKept(me, old(Now()), Now())
          invariant schedule == old(schedule)[1..]
        {
          if !Own(me, batch[i]) {
            ghost var before := Now();
            Take(batch[i]);
            OthersLeave(cfg, me, before, batch[i], Now());
          }
        }
      }
    }

    // -------------------------------------------------------------- the accept loop

    /** `connid` is raised for a new connection. */
    method NextId(remote: string)
      requires Valid() && pc.Accepting? && !stopper.listenerClosed
      modifies `pc, `connid, `trace
      ensures Valid() && trace == old(trace) + [Accept(TakeConnection(remote))]
      ensures connid == old(connid) + 1 && pc == Numbered(connid, remote)
    {
      connid := connid + 1;
      pc := Numbered(connid, remote);
      AcceptRuns(cfg, trace, old(Now()), TakeConnection(remote), FrontNow());
      trace := trace + [Accept(TakeConnection(remote))];
    }

    method CountConnection()
      requires Valid() && pc.Numbered?
      modifies `pc, `trace, metrics`totalConnections
      ensures Valid() && trace == old(trace) + [Accept(CountTotal)]
      ensures metrics.totalConnections == old(metrics.totalConnections) + 1
      ensures pc == CheckingAddr(old(pc).id, old(pc).remote)
    {
      metrics.AddTotalConnections(1);
      pc := CheckingAddr(pc.id, pc.remote);
      AcceptRuns(cfg, trace, old(Now()), CountTotal, FrontNow());
      trace := trace + [Accept(CountTotal)];
    }

    method CheckAddress()
      requires Valid() && pc.CheckingAddr?
      modifies `pc, `trace
      ensures Valid() && trace == old(trace) + [Accept(CheckAddr)]
      ensures if Acl.AddrOK(cfg.net, cfg.session.acl, old(pc).remote) then pc == CheckingCap(old(pc).id, old(pc).remote)
              else pc == CountingAclReject
    {
      if Acl.AddrOK(cfg.net, cfg.session.acl, pc.remote) {
        pc := CheckingCap(pc.id, pc.remote);
      } else {
        pc := CountingAclReject;
      }
      AcceptRuns(cfg, trace, old(Now()), CheckAddr, FrontNow());
      trace := trace + [Accept(CheckAddr)];
    }

    method CountAddressRejection()
      requires Valid() && pc.CountingAclReject?
      modifies `pc, `trace, metrics`rejectedByACL
      ensures Valid() && trace == old(trace) + [Accept(CountAclReject)]
      ensures metrics.rejectedByACL == old(metrics.rejectedByACL) + 1 && pc == TurningAway("28000")
    {
      metrics.AddRejectedByACL(1);
      pc := TurningAway("28000");
      AcceptRuns(cfg, trace, old(Now()), CountAclReject, FrontNow());
      trace := trace + [Accept(CountAclReject)];
    }

    /** The load of the active connections, compared with the cap. */
    method CheckLimit()
      requires Valid() && pc.CheckingCap?
      modifies `pc, `trace, `passed
      ensures Valid() && trace == old(trace) + [Accept(CheckCap)]
      ensures if cfg.cap > 0 && metrics.activeConnections >= cfg.cap then
                pc == CountingCapReject && passed == old(passed)
              else pc == StoringSession(old(pc).id) && passed == old(passed)[old(pc).id := old(pc).remote]
    {
      if cfg.cap > 0 && metrics.activeConnections >= cfg.cap {
        pc := CountingCapReject;
      } else {
        passed := passed[pc.id := pc.remote];
        pc := StoringSession(pc.id);
      }
      AcceptRuns(cfg, trace, old(Now()), CheckCap, FrontNow());
      trace := trace + [Accept(CheckCap)];
    }

    method CountLimitRejection()
      requires Valid() && pc.CountingCapReject?
      modifies `pc, `trace, metrics`rejectedByMaxConnections
      ensures Valid() && trace == old(trace) + [Accept(CountCapReject)]
      ensures metrics.rejectedByMaxConnections == old(metrics.rejectedByMaxConnections) + 1
      ensures pc == TurningAway("53300")
    {
      metrics.AddRejectedByMaxConnections(1);
      pc := TurningAway("53300");
      CapRejectionRuns(cfg, trace, old(Now()));
      trace := trace + [Accept(CountCapReject)];
    }

    /** The error that a client that is not let in is sent; its connection is closed. */
    method Dismiss() returns (sent: string)
      requires Valid() && pc.TurningAway?
      modifies `pc, `trace
      ensures Valid() && trace == old(trace) + [Accept(TurnAway)]
      ensures pc == Accepting && sent == old(pc).code
    {
      sent := pc.code;
      pc := Accepting;
      AcceptRuns(cfg, trace, old(Now()), TurnAway, FrontNow());
      trace := trace + [Accept(TurnAway)];
    }

    method StoreInSessions()
      requires Valid() && pc.StoringSession?
      modifies `pc, `trace, `sessions
      ensures Valid() && trace == old(trace) + [Accept(StoreSession)]
      ensures sessions == old(sessions) + {old(pc).id} && pc == CountingUp(old(pc).id)
    {
      sessions := sessions + {pc.id};
      pc := CountingUp(pc.id);
      AcceptRuns(cfg, trace, old(Now()), StoreSession, FrontNow());
      trace := trace + [Accept(StoreSession)];
    }

    method CountActive()
      requires Valid() && pc.CountingUp?
      modifies `pc, `trace, metrics`activeConnections
      ensures Valid() && trace == old(trace) + [Accept(CountUp)]
      ensures metrics.activeConnections == old(metrics.activeConnections) + 1 && pc == AddingToGroup(old(pc).id)
    {
      metrics.AddActiveConnections(1);
      pc := AddingToGroup(pc.id);
      AcceptRuns(cfg, trace, old(Now()), CountUp, FrontNow());
      trace := trace + [Accept(CountUp)];
    }

    method JoinGroup()
      requires Valid() && pc.AddingToGroup?
      modifies `pc, `trace, `group
      ensures Valid() && trace == old(trace) + [Accept(AddToGroup)]
      ensures group == old(group) + 1 && pc == Spawning(old(pc).id)
    {
      group := group + 1;
      pc := Spawning(pc.id);
      AcceptRuns(cfg, trace, old(Now()), AddToGroup, FrontNow());
      trace := trace + [Accept(AddToGroup)];
    }

    method GoService()
      requires Valid() && pc.Spawning?
      modifies `pc, `procs, `trace
      ensures Valid() && trace == old(trace) + [Accept(Spawn)]
      ensures pc == Accepting && procs == old(procs)[old(pc).id := S.FRESH]
    {
      procs := procs[pc.id := S.FRESH];
      pc := Accepting;
      SpawnRuns(cfg, trace, old(Now()));
      trace := trace + [Accept(Spawn)];
    }

    /** An accept that fails: the loop ends if the proxy is stopping. */
    method FailToAccept()
      requires Valid() && pc.Accepting?
      modifies `pc, `trace
      ensures Valid() && trace == old(trace) + [Accept(AcceptError)]
      ensures pc == if stopper.stopping then Leaving else Accepting
    {
      if stopper.stopping {
        pc := Leaving;
      }
      AcceptRuns(cfg, trace, old(Now()), AcceptError, FrontNow());
      trace := trace + [Accept(AcceptError)];
    }

    method LeaveGroup()
      requires Valid() && pc.Leaving?
      modifies `pc, `trace, `group
      ensures Valid() && trace == old(trace) + [Accept(Leave)]
      ensures group == old(group) - 1 && pc == Left
    {
      group := group - 1;
      pc := Left;
      AcceptRuns(cfg, trace, old(Now()), Leave, FrontNow());
      trace := trace + [Accept(Leave)];
    }

    /** The WaitGroup, then the goroutine. */
    method Launch()
      requires Valid() && pc.AddingToGroup?
      modifies this, metrics
      ensures Valid() && old(trace) <= trace && pc.Accepting? && connid == old(connid) && passed == old(passed)
      ensures SameCounts(old(Now()), Now(), 0, 0, 0) && procs.Keys == old(procs).Keys + {old(pc).id}
    {
      JoinGroup();
      Interfere(Acceptor);
      GoService();
    }

    /** Let a connection in. */
    method Admit()
      requires Valid() && pc.StoringSession?
      modifies this, metrics
      ensures Valid() && old(trace) <= trace && pc.Accepting? && connid == old(connid) && passed == old(passed)
      ensures SameCounts(old(Now()), Now(), 0, 0, 0) && procs.Keys == old(procs).Keys + {old(pc).id}
    {
      StoreInSessions();
      Interfere(Acceptor);
      CountActive();
      Interfere(Acceptor);
      Launch();
    }

    /** Turn a connection away, for its address or for the cap. */
    method TurnDown() returns (sent: string)
      requires Valid() && (pc.CountingAclReject? || pc.CountingCapReject?)
      modifies this, metrics
      ensures Valid() && old(trace) <= trace && pc.Accepting? && connid == old(connid) && passed == old(passed)
      ensures SameCounts(old(Now()), Now(), 0, One(old(pc).CountingAclReject?), One(old(pc).CountingCapReject?))
      ensures procs.Keys == old(procs).Keys
      ensures sent == if old(pc).CountingAclReject? then "28000" else "53300"
    {
      if pc.CountingAclReject? {
        CountAddressRejection();
      } else {
        CountLimitRejection();
      }
      Interfere(Acceptor);
      sent := Dismiss();
    }

    /** Number and count a connection. */
    method Meet(remote: string)
      requires Valid() && pc.Accepting? && !stopper.listenerClosed
      modifies this, metrics
      ensures Valid() && old(trace) <= trace && connid == old(connid) + 1 && pc == CheckingAddr(connid, remote)
      ensures SameCounts(old(Now()), Now(), 1, 0, 0) && procs.Keys == old(procs).Keys
    {
      NextId(remote);
      Interfere(Acceptor);
      CountConnection();
    }

    /** The two checks; `loaded` is the count that the second one sees. */
    method Judge() returns (loaded: int)
      requires Valid() && pc.CheckingAddr?
      modifies this, metrics
      ensures Valid() && old(trace) <= trace && connid == old(connid)
      ensures SameCounts(old(Now()), Now(), 0, 0, 0) && procs.Keys == old(procs).Keys
      ensures Judged(cfg, old(pc), pc, passed, loaded)
      ensures Acl.AddrOK(cfg.net, cfg.session.acl, old(pc).remote) ==> ActiveSince(cfg, trace, |old(trace)|, loaded)
    {
      loaded := 0;
      CheckAddress();
      if pc.CheckingCap? {
        Interfere(Acceptor);
        loaded := LoadAndCheck();
      }
    }

    method LoadAndCheck() returns (loaded: int)
      requires Valid() && pc.CheckingCap?
      modifies `pc, `passed, `trace
      ensures Valid() && trace == old(trace) + [Accept(CheckCap)] && ActiveSince(cfg, trace, |old(trace)|, loaded)
      ensures if cfg.cap > 0 && loaded >= cfg.cap then pc == CountingCapReject && passed == old(passed)
              else pc == StoringSession(old(pc).id) && passed == old(passed)[old(pc).id := old(pc).remote]
    {
      loaded := metrics.activeConnections;
      ActiveNow(cfg, trace, |trace|, Now());
      CheckLimit();
      ActiveStays(cfg, old(trace), |old(trace)|, loaded, trace, |old(trace)|);
    }

    /** What the checks came to. */
    method Settle() returns (sent: Option<string>)
      requires Valid() && (pc.StoringSession? || pc.CountingAclReject? || pc.CountingCapReject?)
      modifies this, metrics
      ensures Valid() && old(trace) <= trace && pc.Accepting? && connid == old(connid) && passed == old(passed)
      ensures SameCounts(old(Now()), Now(), 0, One(old(pc).CountingAclReject?), One(old(pc).CountingCapReject?))
      ensures procs.Keys == old(procs).Keys + if old(pc).StoringSession? then {old(pc).id} else {}
      ensures sent == if old(pc).StoringSession? then None
                      else if old(pc).CountingAclReject? then Some("28000") else Some("53300")
    {
      sent := None;
      Interfere(Acceptor);
      if pc.StoringSession? {
        Admit();
      } else {
        var code := TurnDown();
        sent := Some(code);
      }
    }

    /** One accepted connection: its address is checked, then the count of active connections against
        the cap, and it is counted under what becomes of it. `loaded` was that count at some moment
        in between, and `sent` is the error code that a client not let in is sent. */
    method Handle(remote: string) returns (loaded: int, sent: Option<string>)
      requires Valid() && pc.Accepting? && !stopper.listenerClosed
      modifies this, metrics
      ensures Valid() && old(trace) <= trace && pc.Accepting? && connid == old(connid) + 1
      ensures Outcome(cfg, old(Now()), Now(), remote, loaded)
      ensures sent == if !Acl.AddrOK(cfg.net, cfg.session.acl, remote) then Some("28000")
                      else if cfg.cap > 0 && loaded >= cfg.cap then Some("53300") else None
      ensures Acl.AddrOK(cfg.net, cfg.session.acl, remote) ==> ActiveSince(cfg, trace, |old(trace)|, loaded)
    {
      ghost var before, was := Now(), trace;
      Meet(remote);
      ghost var met, since := Now(), trace;
      loaded, sent := Decide();
      MetAndDecided(cfg, before, met, Now(), remote, loaded);
      if Acl.AddrOK(cfg.net, cfg.session.acl, remote) {
        ActiveStays(cfg, trace, |since|, loaded, trace, |was|);
      }
    }

    method Decide() returns (loaded: int, sent: Option<string>)
      requires Valid() && pc.CheckingAddr? && pc.id == connid
      modifies this, metrics
      ensures Valid() && old(trace) <= trace && pc.Accepting? && connid == old(connid)
      ensures Decided(cfg, old(Now()), Now(), old(pc).id, old(pc).remote, loaded)
      ensures sent == if !Acl.AddrOK(cfg.net, cfg.session.acl, old(pc).remote) then Some("28000")
                      else if cfg.cap > 0 && loaded >= cfg.cap then Some("53300") else None
      ensures Acl.AddrOK(cfg.net, cfg.session.acl, old(pc).remote) ==> ActiveSince(cfg, trace, |old(trace)|, loaded)
    {
      Interfere(Acceptor);
      ghost var before := trace;
      loaded := Judge();
      ghost var judged := trace;
      sent := Settle();
      if Acl.AddrOK(cfg.net, cfg.session.acl, old(pc).remote) {
        ActiveStays(cfg, judged, |before|, loaded, trace, |old(trace)|);
      }
    }

    /** One turn of the loop; in the script None is an accept that fails. */
    method AcceptOne(arrival: Option<string>)
      requires Valid() && pc.Accepting?
      modifies this, metrics
      ensures Valid() && old(trace) <= trace
      ensures metrics.totalConnections - old(metrics.totalConnections) == connid - old(connid) <= 1
      ensures pc.Accepting? || (pc.Leaving? && stopper.stopping)
    {
      Interfere(Acceptor);
      if arrival.Some? && !stopper.listenerClosed {
        var _, _ := Handle(arrival.value);
      } else {
        FailToAccept();
      }
    }

    /** The accept loop. However the sessions and `stop` go on meanwhile, every connection is
        numbered and counted, and the loop ends only for `stop`. */
    method AcceptLoop(script: seq<Option<string>>)
      requires Valid() && pc.Accepting?
      modifies this, metrics
      ensures Valid() && old(trace) <= trace
      ensures metrics.totalConnections - old(metrics.totalConnections) == connid - old(connid) <= |script|
      ensures pc.Accepting? || (pc.Left? && stopper.stopping)
      ensures LifeInv(cfg, Now())
    {
      var i := 0;
      while i < |script| && pc.Accepting?
        invariant i <= |script| && Valid() && old(trace) <= trace
        invariant pc.Accepting? || (pc.Leaving? && stopper.stopping)
        invariant metrics.totalConnections - old(metrics.totalConnections) == connid - old(connid) <= i
      {
        AcceptOne(script[i]);
        i := i + 1;
      }
      if pc.Leaving? {
        Interfere(Acceptor);
        LeaveGroup();
      }
      RunsKeepLife(cfg, trace);
    }

    // -------------------------------------------------------------- stop

    method SignalStopping()
      requires Valid() && stopper.pc.Running?
      modifies `stopper, `trace
      ensures Valid() && trace == old(trace) + [Stop(CloseStopping)]
      ensures stopper == old(stopper).(pc := Signalled, stopping := true)
    {
      stopper := stopper.(pc := Signalled, stopping := true);
      StopRuns(cfg, trace, old(Now()), CloseStopping, stopper);
      trace := trace + [Stop(CloseStopping)];
    }

    method CloseTheListener()
      requires Valid() && stopper.pc.Signalled?
      modifies `stopper, `trace
      ensures Valid() && trace == old(trace) + [Stop(CloseListener)]
      ensures stopper == old(stopper).(pc := StopPc.Draining, listenerClosed := true)
    {
      stopper := stopper.(pc := StopPc.Draining, listenerClosed := true);
      StopRuns(cfg, trace, old(Now()), CloseListener, stopper);
      trace := trace + [Stop(CloseListener)];
    }

    /** The waiter goroutine: `wg.Wait` returns. */
    method FinishWaiting()
      requires Valid() && (stopper.pc.Draining? || stopper.pc.AwaitingDrain?) && group == 0
      modifies `stopper, `trace
      ensures Valid() && trace == old(trace) + [Stop(WaiterReturns)]
      ensures stopper == old(stopper).(drained := true)
    {
      stopper := stopper.(drained := true);
      StopRuns(cfg, trace, old(Now()), WaiterReturns, stopper);
      trace := trace + [Stop(WaiterReturns)];
    }

    method ReceiveDrained()
      requires Valid() && (stopper.pc.Draining? || stopper.pc.AwaitingDrain?) && stopper.drained
      modifies `stopper, `trace
      ensures Valid() && trace == old(trace) + [Stop(SeeDrained)]
      ensures stopper == old(stopper).(pc := Stopped)
    {
      stopper := stopper.(pc := Stopped);
      StopRuns(cfg, trace, old(Now()), SeeDrained, stopper);
      trace := trace + [Stop(SeeDrained)];
    }

    /** The drain time-out; `Range` begins. */
    method BeginForceClosing()
      requires Valid() && stopper.pc.Draining?
      modifies `stopper, `trace
      ensures Valid() && trace == old(trace) + [Stop(TimeOut)]
      ensures stopper == old(stopper).(pc := ForceClosing(sessions))
    {
      stopper := stopper.(pc := ForceClosing(sessions));
      StopRuns(cfg, trace, old(Now()), TimeOut, stopper);
      trace := trace + [Stop(TimeOut)];
    }

    method CloseClientOf(id: Id)
      requires Valid() && stopper.pc.ForceClosing? && id in sessions
      modifies `stopper, `trace
      ensures Valid() && trace == old(trace) + [Stop(ForceClose(id))]
      ensures var was := old(stopper);
              stopper == was.(pc := ForceClosing(was.pc.left - {id}), forced := was.forced + {id})
    {
      stopper := stopper.(pc := ForceClosing(stopper.pc.left - {id}), forced := stopper.forced + {id});
      StopRuns(cfg, trace, old(Now()), ForceClose(id), stopper);
      trace := trace + [Stop(ForceClose(id))];
    }

    method FinishForceClosing()
      requires Valid() && stopper.pc.ForceClosing? && stopper.pc.left * sessions == {}
      modifies `stopper, `trace
      ensures Valid() && trace == old(trace) + [Stop(RangeEnds)]
      ensures stopper == old(stopper).(pc := AwaitingDrain)
    {
      stopper := stopper.(pc := AwaitingDrain);
      StopRuns(cfg, trace, old(Now()), RangeEnds, stopper);
      trace := trace + [Stop(RangeEnds)];
    }

    /** Wait until the WaitGroup is at zero, for so many turns of the others at most. */
    method AwaitGroup(turns: nat)
      requires Valid() && (stopper.pc.Draining? || stopper.pc.AwaitingDrain?)
      modifies this, metrics
      ensures Valid() && old(trace) <= trace
      ensures stopper.pc.Stopped? || (stopper == old(stopper) && group != 0)
      ensures stopper.stopping == old(stopper).stopping && stopper.listenerClosed == old(stopper).listenerClosed
    {
      for i := 0 to turns
        invariant Valid() && old(trace) <= trace && stopper == old(stopper)
      {
        if group != 0 {
          Interfere(Terminator);
        }
      }
      if group == 0 {
        FinishWaiting();
        Interfere(Terminator);
        ReceiveDrained();
      }
    }

    /** Close the client connections of all sessions that were there when it began and still are. */
    method ForceCloseAll()
      requires Valid() && stopper.pc.Draining?
      modifies this, metrics
      ensures Valid() && old(trace) <= trace && stopper.pc.AwaitingDrain?
      ensures old(sessions) * sessions <= stopper.forced
      ensures stopper.stopping == old(stopper).stopping && stopper.listenerClosed == old(stopper).listenerClosed
    {
      BeginForceClosing();
      Interfere(Terminator);
      while stopper.pc.left * sessions != {}
        invariant Valid() && old(trace) <= trace && stopper.pc.ForceClosing?
        invariant old(sessions) <= stopper.pc.left + stopper.forced
        invariant stopper.stopping == old(stopper).stopping && stopper.listenerClosed == old(stopper).listenerClosed
        decreases stopper.pc.left
      {
        var id :| id in stopper.pc.left * sessions;
        CloseClientOf(id);
        Interfere(Terminator);
      }
      forall id | id in old(sessions) * sessions ensures id in stopper.forced {
        assert id !in stopper.pc.left * sessions;
      }
      FinishForceClosing();
    }

    method StopAccepting()
      requires Valid() && stopper.pc.Running?
      modifies this, metrics
      ensures Valid() && old(trace) <= trace
      ensures stopper.pc.Draining? && stopper.stopping && stopper.listenerClosed
    {
      SignalStopping();
      Interfere(Terminator);
      CloseTheListener();
    }

    /** `stop`: it returns only when everything is over; it is still waiting if the sessions did
        not end within the turns the scheduler gave them. */
    method StopServer(drainTurns: nat, lastTurns: nat) returns (returned: bool)
      requires Valid() && stopper.pc.Running?
      modifies this, metrics
      ensures Valid() && old(trace) <= trace && stopper.stopping && stopper.listenerClosed
      ensures returned ==> Over(Now())
      ensures !returned ==> stopper.pc.AwaitingDrain? && group > 0
    {
      StopAccepting();
      Interfere(Terminator);
      AwaitGroup(drainTurns);
      if stopper.pc.Draining? {
        ForceCloseAll();
        Interfere(Terminator);
        AwaitGroup(lastTurns);
      }
      returned := stopper.pc.Stopped?;
      OverOrNot(cfg, trace, Now());
    }
  }
}
