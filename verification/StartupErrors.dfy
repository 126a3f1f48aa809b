/** What a client whose start-up fails is told: the code of the first check that fails, once, behind
    the answers to its negotiation requests; and every failed connection to a backend is counted. */
module StartupErrors {
  import opened Basics
  import opened Startup
  import opened Session
  import Acl
  import G = Gateway
  import Lifecycle

  // ---------------------------------------------------------------- which code

  /** The configured lists, which are empty if there are none. */
  ghost predicate Restricts(net: Acl.NetParsers, c: Option<Acl.CompiledACL>, acl: Acl.ACL) {
    match c
    case Some(compiled) => Acl.IsCompiled(net, acl, compiled)
    case None => acl == Acl.ACL([], [], [])
  }

  /** What is wrong with a start-up message: its database or its user, where one that is missing is
      empty, is not on a list that has entries, or its database has no backend. */
  function RefusalCode(acl: Acl.ACL, dbs: map<string, DBConfig>, sm: StartupMessage): Option<string> {
    var database := if "database" in sm.params then sm.params["database"] else "";
    var user := if "user" in sm.params then sm.params["user"] else "";
    if acl.allowedDatabases != [] && database !in acl.allowedDatabases then Some("42501")
    else if acl.allowedUsers != [] && user !in acl.allowedUsers then Some("42501")
    else if database !in dbs then Some("3D000")
    else None
  }

  /** And of a session: that, or its backend could not be connected. */
  function Code(refusal: Option<string>, failed: bool): Option<string> {
    if refusal.Some? then refusal else if failed then Some("08006") else None
  }

  lemma DecidedSaysCode(net: Acl.NetParsers, acl: Acl.ACL, cfg: Config, sm: StartupMessage)
    requires Restricts(net, cfg.acl, acl)
    ensures match RefusalCode(acl, cfg.dbs, sm)
            case Some(code) => Decided(cfg, sm).Rejecting? && Decided(cfg, sm).code == code
            case None => Decided(cfg, sm).Connecting?
  {
    if cfg.acl.Some? {
      Acl.CompiledChecks(net, acl, cfg.acl.value, "", Param(sm, "user"), Param(sm, "database"));
    }
  }

  // ---------------------------------------------------------------- what the steps say

  /** The start-up message that a session has received. */
  function Arrived(ls: seq<Label>): Option<StartupMessage> {
    if ls == [] then None
    else
      var l := ls[|ls|-1];
      if l.Service? && l.s.StartupArrives? then Some(l.s.sm) else Arrived(ls[..|ls|-1])
  }

  predicate DialFailed(ls: seq<Label>) {
    Service(Connect(false)) in ls
  }

  // ---------------------------------------------------------------- the invariant

  ghost predicate OnlyNegotiated(out: seq<ClientOut>) {
    forall x <- out :: x.Negotiation?
  }

  ghost predicate NeverFatal(out: seq<ClientOut>) {
    forall x <- out :: !x.Fatal?
  }

  /** Negotiation answers, and then the one fatal error, unless a write failed. */
  ghost predicate IsTold(client: Stream, code: string) {
    if client.broken then OnlyNegotiated(client.out)
    else client.out != [] && client.out[|client.out|-1] == Fatal(code) && OnlyNegotiated(client.out[..|client.out|-1])
  }

  /** How far the session has got with a start-up that `code` is wrong with, if anything is. */
  ghost predicate TellsInTime(arrived: Option<StartupMessage>, refusal: Option<string>, failed: bool,
                              pc: ServicePc, spawned: bool, client: Stream)
  {
    match pc
    case Reading => arrived.None? && !failed && !spawned && OnlyNegotiated(client.out)
    case Deciding(sm) => arrived == Some(sm) && !failed && !spawned && OnlyNegotiated(client.out)
    case Connecting(_) => arrived.Some? && refusal.None? && !failed && !spawned && OnlyNegotiated(client.out)
    case CountingConnectError => arrived.Some? && refusal.None? && failed && !spawned && OnlyNegotiated(client.out)
    case Rejecting(code, _) =>
      arrived.Some? && Code(refusal, failed) == Some(code) && !spawned && OnlyNegotiated(client.out)
    case ServiceFailing(_) =>
      && !spawned && (arrived.None? ==> OnlyNegotiated(client.out))
      && (arrived.Some? ==> Code(refusal, failed).Some? && IsTold(client, Code(refusal, failed).value))
    case LookingUp(_) => arrived.None? && !spawned && OnlyNegotiated(client.out)
    case DialingCancel(_, _) => arrived.None? && !spawned && OnlyNegotiated(client.out)
    case SendingCancel(_, _) => arrived.None? && !spawned && OnlyNegotiated(client.out)
    case _ => HasTold(arrived, refusal, failed, spawned, client)
  }

  /** Later: all is said. */
  ghost predicate HasTold(arrived: Option<StartupMessage>, refusal: Option<string>, failed: bool,
                          spawned: bool, client: Stream)
  {
    if arrived.None? then !spawned && OnlyNegotiated(client.out)
    else if Code(refusal, failed).Some? then !spawned && IsTold(client, Code(refusal, failed).value)
    else NeverFatal(client.out)
  }

  ghost predicate TellInv(acl: Acl.ACL, dbs: map<string, DBConfig>, ls: seq<Label>, s: Session) {
    TellsInTime(Arrived(ls), RefusalOf(acl, dbs, Arrived(ls)), DialFailed(ls),
                s.svc.pc, s.shared.spawned, s.shared.client)
  }

  lemma WriteTells(cfg: Config, arrived: Option<StartupMessage>, refusal: Option<string>, failed: bool,
                   v: ServiceSide, sh: Shared, l: ServiceLabel)
    requires (l.Negotiate? || l.SendFatal?) && ServiceStep(cfg, v, sh, l).Some?
    requires TellsInTime(arrived, refusal, failed, v.pc, sh.spawned, sh.client)
    ensures var a := ServiceStep(cfg, v, sh, l).value;
            TellsInTime(arrived, refusal, failed, a.side.pc, a.shared.spawned, a.shared.client)
  {
  }

  lemma DecideTells(net: Acl.NetParsers, acl: Acl.ACL, cfg: Config, arrived: Option<StartupMessage>, failed: bool,
                    v: ServiceSide, sh: Shared)
    requires Restricts(net, cfg.acl, acl) && ServiceStep(cfg, v, sh, Decide).Some?
    requires TellsInTime(arrived, RefusalOf(acl, cfg.dbs, arrived), failed, v.pc, sh.spawned, sh.client)
    ensures var a := ServiceStep(cfg, v, sh, Decide).value;
            TellsInTime(arrived, RefusalOf(acl, cfg.dbs, arrived), failed, a.side.pc, a.shared.spawned, a.shared.client)
  {
    DecidedSaysCode(net, acl, cfg, v.pc.sm);
  }

  lemma ArrivalTells(cfg: Config, arrived: Option<StartupMessage>, refusal: Option<string>,
                     later: Option<string>, failed: bool, v: ServiceSide, sh: Shared, sm: StartupMessage)
    requires ServiceStep(cfg, v, sh, StartupArrives(sm)).Some?
    requires TellsInTime(arrived, refusal, failed, v.pc, sh.spawned, sh.client)
    ensures var a := ServiceStep(cfg, v, sh, StartupArrives(sm)).value;
            TellsInTime(Some(sm), later, failed, a.side.pc, a.shared.spawned, a.shared.client)
  {
  }

  lemma ConnectTells(cfg: Config, arrived: Option<StartupMessage>, refusal: Option<string>, failed: bool,
                     v: ServiceSide, sh: Shared, ok: bool)
    requires ServiceStep(cfg, v, sh, Connect(ok)).Some?
    requires TellsInTime(arrived, refusal, failed, v.pc, sh.spawned, sh.client)
    ensures var a := ServiceStep(cfg, v, sh, Connect(ok)).value;
            TellsInTime(arrived, refusal, failed || !ok, a.side.pc, a.shared.spawned, a.shared.client)
  {
  }

  predicate IsOther(l: ServiceLabel) {
    !l.Negotiate? && !l.SendFatal? && !l.Decide? && !l.StartupArrives? && !l.Connect?
  }

  lemma OtherTells(cfg: Config, arrived: Option<StartupMessage>, refusal: Option<string>, failed: bool,
                   v: ServiceSide, sh: Shared, l: ServiceLabel)
    requires IsOther(l) && ServiceStep(cfg, v, sh, l).Some?
    requires TellsInTime(arrived, refusal, failed, v.pc, sh.spawned, sh.client)
    ensures var a := ServiceStep(cfg, v, sh, l).value;
            TellsInTime(arrived, refusal, failed, a.side.pc, a.shared.spawned, a.shared.client)
  {
  }

  /** The relays write nothing fatal, and run only where the service goroutine had nothing to say. */
  lemma RelaysTell(cfg: Config, arrived: Option<StartupMessage>, refusal: Option<string>, failed: bool,
                   s: Session, l: Label)
    requires !l.Service? && Step(cfg, s, l).Some?
    requires TellsInTime(arrived, refusal, failed, s.svc.pc, s.shared.spawned, s.shared.client)
    ensures var t := Step(cfg, s, l).value;
            TellsInTime(arrived, refusal, failed, t.svc.pc, t.shared.spawned, t.shared.client)
  {
    RelayLeaves(cfg, s, l);
  }

  lemma RelayLeaves(cfg: Config, s: Session, l: Label)
    requires !l.Service? && Step(cfg, s, l).Some?
    ensures var t := Step(cfg, s, l).value;
            && s.shared.spawned && t.shared.spawned && t.svc == s.svc
            && (t.shared.client.out == s.shared.client.out
                || (exists x: ClientOut | !x.Fatal? :: t.shared.client.out == s.shared.client.out + [x]))
  {
    match l
    case Request(_) =>
    case Response(_) =>
  }

  ghost function RefusalOf(acl: Acl.ACL, dbs: map<string, DBConfig>, arrived: Option<StartupMessage>): Option<string> {
    if arrived.None? then None else RefusalCode(acl, dbs, arrived.value)
  }

  lemma ServiceTells(net: Acl.NetParsers, acl: Acl.ACL, cfg: Config, arrived: Option<StartupMessage>, failed: bool,
                     v: ServiceSide, sh: Shared, l: ServiceLabel)
    requires Restricts(net, cfg.acl, acl) && ServiceStep(cfg, v, sh, l).Some?
    requires TellsInTime(arrived, RefusalOf(acl, cfg.dbs, arrived), failed, v.pc, sh.spawned, sh.client)
    ensures var a := ServiceStep(cfg, v, sh, l).value;
            var now := if l.StartupArrives? then Some(l.sm) else arrived;
            TellsInTime(now, RefusalOf(acl, cfg.dbs, now), failed || l == Connect(false),
                        a.side.pc, a.shared.spawned, a.shared.client)
  {
    var refusal := RefusalOf(acl, cfg.dbs, arrived);
    if l.Negotiate? || l.SendFatal? {
      WriteTells(cfg, arrived, refusal, failed, v, sh, l);
    } else if l.StartupArrives? {
      ArrivalTells(cfg, arrived, refusal, RefusalCode(acl, cfg.dbs, l.sm), failed, v, sh, l.sm);
    } else if l.Decide? {
      DecideTells(net, acl, cfg, arrived, failed, v, sh);
    } else if l.Connect? {
      ConnectTells(cfg, arrived, refusal, failed, v, sh, l.ok);
    } else {
      OtherTells(cfg, arrived, refusal, failed, v, sh, l);
    }
  }

  lemma Recorded(ls: seq<Label>, l: Label)
    ensures Arrived(ls + [l]) == if l.Service? && l.s.StartupArrives? then Some(l.s.sm) else Arrived(ls)
    ensures DialFailed(ls + [l]) == (DialFailed(ls) || l == Service(Connect(false)))
  {
    assert (ls + [l])[..|ls|] == ls;
  }

  lemma StepTells(net: Acl.NetParsers, acl: Acl.ACL, cfg: Config, ls: seq<Label>, s: Session, l: Label, t: Session)
    requires Restricts(net, cfg.acl, acl) && Step(cfg, s, l) == Some(t) && TellInv(acl, cfg.dbs, ls, s)
    ensures TellInv(acl, cfg.dbs, ls + [l], t)
  {
    Recorded(ls, l);
    var arrived, failed := Arrived(ls), DialFailed(ls);
    match l
    case Service(x) => ServiceTells(net, acl, cfg, arrived, failed, s.svc, s.shared, x);
    case _ => RelaysTell(cfg, arrived, RefusalOf(acl, cfg.dbs, arrived), failed, s, l);
  }

  lemma FreshTells(acl: Acl.ACL, dbs: map<string, DBConfig>, ls: seq<Label>, s: Session)
    requires ls == [] && s == FRESH
    ensures TellInv(acl, dbs, ls, s)
  {
  }

  lemma {:induction false} RunsTell(net: Acl.NetParsers, acl: Acl.ACL, cfg: Config, ls: seq<Label>, s: Session)
    requires Restricts(net, cfg.acl, acl) && Run(cfg, ls) == Some(s)
    ensures TellInv(acl, cfg.dbs, ls, s)
  {
    if ls == [] {
      FreshTells(acl, cfg.dbs, ls, s);
    } else {
      var before, l := ls[..|ls|-1], ls[|ls|-1];
      var b := Run(cfg, before).value;
      RunsTell(net, acl, cfg, before, b);
      StepTells(net, acl, cfg, before, b, l, s);
      assert ls == before + [l];
    }
  }

  /** The service goroutine has said all it will. */
  predicate IsLeaving(pc: ServicePc) {
    pc.ClosingClient? || pc.DeletingSession? || pc.CountingDown? || pc.ReleasingGroup? || pc.Gone?
  }

  /** In every run, a session that has dealt with its start-up message, and is leaving, has told its
      client the code of the first check that failed, once, behind the negotiation answers and
      nothing else, and has started no relay; and nothing fatal if no check failed. Only a write
      that fails leaves the code out. */
  lemma RefusedClientIsTold(net: Acl.NetParsers, acl: Acl.ACL, cfg: Config, ls: seq<Label>, s: Session,
                            sm: StartupMessage)
    requires Restricts(net, cfg.acl, acl) && Run(cfg, ls) == Some(s)
    requires Arrived(ls) == Some(sm) && IsLeaving(s.svc.pc)
    ensures match Code(RefusalCode(acl, cfg.dbs, sm), DialFailed(ls))
            case Some(code) => !s.shared.spawned && IsTold(s.shared.client, code)
            case None => NeverFatal(s.shared.client.out)
  {
    RunsTell(net, acl, cfg, ls, s);
  }

  // ---------------------------------------------------------------- the connect-error counter

  /** How many of the proxy's steps so far were a connection to a backend that failed. */
  function FailedDials(ls: seq<G.Label>): nat {
    if ls == [] then 0
    else
      FailedDials(ls[..|ls|-1]) + if ls[|ls|-1].At? && ls[|ls|-1].l == Service(Connect(false)) then 1 else 0
  }

  function AboutToCount(procs: map<G.Id, Session>): set<G.Id> {
    set id | id in procs && procs[id].svc.pc.CountingConnectError?
  }

  ghost predicate ConnectErrorsInv(g: G.State, failed: nat) {
    g.meters.connectErrors + |AboutToCount(g.procs)| == failed
  }

  lemma StepCounts(cfg: Config, s: Session, l: Label, t: Session)
    requires Step(cfg, s, l) == Some(t)
    ensures l == Service(Connect(false)) ==> !s.svc.pc.CountingConnectError? && t.svc.pc.CountingConnectError?
    ensures l == Service(CountConnectError) ==> s.svc.pc.CountingConnectError? && !t.svc.pc.CountingConnectError?
    ensures l != Service(Connect(false)) && l != Service(CountConnectError) ==>
              (s.svc.pc.CountingConnectError? <==> t.svc.pc.CountingConnectError?)
  {
    match l
    case Service(_) =>
    case Request(_) =>
    case Response(_) =>
  }

  lemma OneMoves(procs: map<G.Id, Session>, id: G.Id, t: Session)
    requires id in procs || !t.svc.pc.CountingConnectError?
    ensures AboutToCount(procs[id := t]) ==
            if t.svc.pc.CountingConnectError? then AboutToCount(procs) + {id} else AboutToCount(procs) - {id}
  {
  }

  lemma SessionCounts(cfg: G.Config, g: G.State, id: G.Id, l: Label, h: G.State, failed: nat)
    requires ConnectErrorsInv(g, failed) && G.Step(cfg, g, G.At(id, l)) == Some(h)
    ensures ConnectErrorsInv(h, failed + if l == Service(Connect(false)) then 1 else 0)
  {
    var s, t := g.procs[id], h.procs[id];
    StepCounts(cfg.session, s, l, t);
    OneMoves(g.procs, id, t);
    if id in AboutToCount(g.procs) && id in AboutToCount(h.procs) {
      assert AboutToCount(g.procs) + {id} == AboutToCount(g.procs);
    }
    if id !in AboutToCount(g.procs) && id !in AboutToCount(h.procs) {
      assert AboutToCount(g.procs) - {id} == AboutToCount(g.procs);
    }
  }

  lemma AcceptCounts(cfg: G.Config, g: G.State, a: G.AcceptLabel, h: G.State, failed: nat)
    requires ConnectErrorsInv(g, failed) && G.Step(cfg, g, G.Accept(a)) == Some(h) && Lifecycle.IdsInOrder(g)
    ensures ConnectErrorsInv(h, failed)
  {
    if a.Spawn? {
      OneMoves(g.procs, g.front.pc.id, FRESH);
      assert g.front.pc.id !in AboutToCount(g.procs);
      assert AboutToCount(h.procs) == AboutToCount(g.procs);
    }
  }

  /** In every run of the proxy, the connect-error counter is the number of connections to a backend
      that have failed, less those that their session is about to count. */
  lemma {:induction false} ConnectErrorsAddUp(cfg: G.Config, ls: seq<G.Label>, g: G.State)
    requires G.Run(cfg, ls) == Some(g)
    ensures ConnectErrorsInv(g, FailedDials(ls))
  {
    if ls == [] {
      assert AboutToCount(g.procs) == {};
    } else {
      var before, l := ls[..|ls|-1], ls[|ls|-1];
      var b := G.Run(cfg, before).value;
      ConnectErrorsAddUp(cfg, before, b);
      Lifecycle.RunsKeepIdsInOrder(cfg, before);
      match l
      case Accept(a) => AcceptCounts(cfg, b, a, g, FailedDials(before));
      case Stop(_) =>
      case At(id, x) => SessionCounts(cfg, b, id, x, g, FailedDials(before));
    }
  }
}
