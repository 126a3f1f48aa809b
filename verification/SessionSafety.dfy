/** What holds in every interleaving of a session's goroutines beside its streams: the error
    signal, the phases, admission, and the decoder's authentication type. */
module SessionSafety {
  import opened Basics
  import opened Startup
  import opened Session
  import Acl

  // ---------------------------------------------------------------- the error signal

  /** `errsig` is closed at most once, by the first call of `err`, the only one reported. */
  ghost predicate SignalInv(e: Signal) {
    && (e.closed <==> e.calls != [])
    && e.closes == (if e.closed then 1 else 0)
    && e.report == if e.calls == [] then None else Some(e.calls[0])
  }

  predicate PastWait(pc: ServicePc) {
    pc.LoadingKey? || pc.DeletingKey? || pc.ClosingBackend?
  }

  // ---------------------------------------------------------------- phases

  predicate BeforeConnected(pc: ServicePc) {
    || pc.Reading? || pc.Deciding? || pc.Rejecting? || pc.Connecting? || pc.CountingConnectError?
    || pc.ServiceFailing? || pc.LookingUp? || pc.DialingCancel? || pc.SendingCancel?
  }

  ghost predicate NoFatal(out: seq<ClientOut>) {
    forall x <- out :: !x.Fatal?
  }

  ghost predicate NothingRelayed(out: seq<ClientOut>) {
    forall x <- out :: x.Negotiation? || x.Fatal?
  }

  /** The relays run only once the backend is connected, and then no fatal error is sent; before
      that the client is sent nothing but negotiation answers and a fatal error. */
  ghost predicate PhaseInv(s: Session) {
    InPhase(s.svc.pc, s.shared.spawned, s.shared.client.out, s.req == FRESH_REQUEST && s.resp == FRESH_RESPONSE)
  }

  ghost predicate InPhase(pc: ServicePc, spawned: bool, out: seq<ClientOut>, untouched: bool) {
    && (BeforeConnected(pc) ==> !spawned)
    && (!spawned ==> untouched && NothingRelayed(out))
    && (spawned ==> NoFatal(out))
    && ((pc.Reading? || pc.Deciding? || pc.Rejecting? || pc.Connecting? || pc.CountingConnectError?) ==> NoFatal(out))
    && (pc.Waiting? || PastWait(pc) ==> spawned)
  }

  // ---------------------------------------------------------------- admission

  /** A backend is dialled only after the session was decided that way. */
  ghost predicate AdmissionInv(cfg: Config, s: Session) {
    && (s.svc.dialled.Some? ==> Decided(cfg, s.svc.dialled.value.0) == Connecting(s.svc.dialled.value.1))
    && (s.svc.pc.Connecting? ==> s.svc.dialled.Some? && s.svc.dialled.value.1 == s.svc.pc.db)
    && (s.shared.spawned ==> s.svc.dialled.Some?)
  }

  // ---------------------------------------------------------------- the decoder's type

  function AuthTypes(ms: seq<BackMsg>): seq<AuthType> {
    if ms == [] then []
    else
      var m := ms[|ms|-1];
      AuthTypes(ms[..|ms|-1]) + if m.AuthRequest? && !m.at.AuthOk? then [m.at] else []
  }

  function PendingAuth(pc: ResponsePc): Option<AuthType> {
    if pc.SendingAuth? then Some(pc.at) else None
  }

  /** The channel is a FIFO of at most four, and the decoder holds the last type taken. */
  ghost predicate PipeInv(a: AuthPipe) {
    && |a.chan| <= AUTH_CHANNEL_CAPACITY
    && a.taken + |a.chan| == |a.sent|
    && a.chan == a.sent[a.taken..]
    && a.held == if a.taken == 0 then AuthOk else a.sent[a.taken - 1]
  }

  ghost predicate SentInv(sent: seq<AuthType>, pending: Option<AuthType>, fromBackend: seq<BackMsg>) {
    AuthTypes(fromBackend) == sent + (if pending.Some? then [pending.value] else [])
  }

  ghost predicate AuthInv(s: Session) {
    PipeInv(s.shared.auth) && SentInv(s.shared.auth.sent, PendingAuth(s.resp.pc), s.resp.fromBackend)
  }

  // ---------------------------------------------------------------- every schedule

  ghost predicate SafetyInv(cfg: Config, s: Session) {
    && SignalInv(s.shared.signal)
    && (PastWait(s.svc.pc) ==> s.shared.signal.closed)
    && PhaseInv(s)
    && AdmissionInv(cfg, s)
    && AuthInv(s)
  }

  lemma ServiceKeepsInPhase(cfg: Config, v: ServiceSide, sh: Shared, l: ServiceLabel, untouched: bool)
    requires InPhase(v.pc, sh.spawned, sh.client.out, untouched) && ServiceStep(cfg, v, sh, l).Some?
    ensures var a := ServiceStep(cfg, v, sh, l).value;
            InPhase(a.side.pc, a.shared.spawned, a.shared.client.out, untouched)
  {
  }

  lemma ServiceKeepsPhase(cfg: Config, s: Session, l: ServiceLabel)
    requires PhaseInv(s) && Step(cfg, s, Service(l)).Some?
    ensures PhaseInv(Step(cfg, s, Service(l)).value)
  {
    ServiceKeepsInPhase(cfg, s.svc, s.shared, l, s.req == FRESH_REQUEST && s.resp == FRESH_RESPONSE);
  }

  lemma ServiceKeepsAdmission(cfg: Config, s: Session, l: ServiceLabel)
    requires AdmissionInv(cfg, s) && Step(cfg, s, Service(l)).Some?
    requires s.svc.pc.Deciding? ==> !s.shared.spawned
    ensures AdmissionInv(cfg, Step(cfg, s, Service(l)).value)
  {
  }

  lemma ServiceKeepsSafety(cfg: Config, s: Session, l: ServiceLabel)
    requires SafetyInv(cfg, s) && Step(cfg, s, Service(l)).Some?
    ensures SafetyInv(cfg, Step(cfg, s, Service(l)).value)
  {
    ServiceKeepsPhase(cfg, s, l);
    ServiceKeepsAdmission(cfg, s, l);
    ServiceKeepsSignal(cfg, s.svc, s.shared, l);
  }

  lemma ServiceKeepsSignal(cfg: Config, v: ServiceSide, sh: Shared, l: ServiceLabel)
    requires SignalInv(sh.signal) && (PastWait(v.pc) ==> sh.signal.closed)
    requires ServiceStep(cfg, v, sh, l).Some?
    ensures var a := ServiceStep(cfg, v, sh, l).value;
            SignalInv(a.shared.signal) && (PastWait(a.side.pc) ==> a.shared.signal.closed) && a.shared.auth == sh.auth
  {
  }

  lemma RequestKeepsSafety(cfg: Config, s: Session, l: RequestLabel)
    requires SafetyInv(cfg, s) && Step(cfg, s, Request(l)).Some?
    ensures SafetyInv(cfg, Step(cfg, s, Request(l)).value)
  {
  }

  lemma ResponseKeepsSafety(cfg: Config, s: Session, l: ResponseLabel)
    requires SafetyInv(cfg, s) && Step(cfg, s, Response(l)).Some?
    ensures SafetyInv(cfg, Step(cfg, s, Response(l)).value)
  {
    if l.Hear? {
      assert (s.resp.fromBackend + [l.m])[..|s.resp.fromBackend|] == s.resp.fromBackend;
    }
  }

  lemma {:induction false} RunsAreSafe(cfg: Config, ls: seq<Label>)
    requires Run(cfg, ls).Some?
    ensures SafetyInv(cfg, Run(cfg, ls).value)
  {
    if ls != [] {
      var s, l := Run(cfg, ls[..|ls|-1]).value, ls[|ls|-1];
      RunsAreSafe(cfg, ls[..|ls|-1]);
      match l
      case Service(x) => ServiceKeepsSafety(cfg, s, x);
      case Request(x) => RequestKeepsSafety(cfg, s, x);
      case Response(x) => ResponseKeepsSafety(cfg, s, x);
    }
  }

  // ---------------------------------------------------------------- what follows

  /** Whatever mix of goroutines calls `err`, the signal is closed at most once, the first call is
      the one reported, and the service goroutine is past its wait only after that close. */
  lemma ErrorSignalledOnce(cfg: Config, ls: seq<Label>, s: Session)
    requires Run(cfg, ls) == Some(s)
    ensures s.shared.signal.closes <= 1
    ensures s.shared.signal.closed <==> s.shared.signal.calls != []
    ensures s.shared.signal.calls != [] ==> s.shared.signal.report == Some(s.shared.signal.calls[0])
    ensures PastWait(s.svc.pc) ==> s.shared.signal.closes == 1
  {
    RunsAreSafe(cfg, ls);
  }

  /** Once closed, the signal stays closed and its report does not change. */
  lemma SignalIsFinal(cfg: Config, s: Session, l: Label)
    requires s.shared.signal.closed && Step(cfg, s, l).Some?
    ensures var t := Step(cfg, s, l).value; t.shared.signal.closed && t.shared.signal.report == s.shared.signal.report
  {
    match l
    case Service(x) =>
    case Request(x) =>
    case Response(x) =>
  }

  /** The client gets a fatal error or relayed traffic, never both, and gets neither before the
      start-up was decided. */
  lemma FatalOrRelayed(cfg: Config, ls: seq<Label>)
    requires Run(cfg, ls).Some?
    ensures NoFatal(Run(cfg, ls).value.shared.client.out) || NothingRelayed(Run(cfg, ls).value.shared.client.out)
  {
    RunsAreSafe(cfg, ls);
  }

  /** The start-up is let through to a backend just when its database and user are on every list
      that is not empty and the database is configured; the backend is then that database's. */
  lemma DecidedIsPermission(net: Acl.NetParsers, acl: Acl.ACL, c: Acl.CompiledACL, dbs: map<string, DBConfig>,
                            sm: StartupMessage)
    requires Acl.IsCompiled(net, acl, c)
    ensures var database := Param(sm, "database");
            Decided(Config(Some(c), dbs), sm).Connecting? <==>
            Acl.NamePermitted(acl.allowedDatabases, database) && Acl.NamePermitted(acl.allowedUsers, Param(sm, "user"))
            && database in dbs
    ensures Decided(Config(Some(c), dbs), sm).Connecting? ==>
            Decided(Config(Some(c), dbs), sm).db == dbs[Param(sm, "database")]
  {
    Acl.CompiledChecks(net, acl, c, "", Param(sm, "user"), Param(sm, "database"));
  }

  /** In every interleaving, a session that has dialled a backend, and in particular one that
      relays, was permitted to, and dialled the one configured for its database. */
  lemma DialledOnlyIfPermitted(net: Acl.NetParsers, acl: Acl.ACL, c: Acl.CompiledACL, dbs: map<string, DBConfig>,
                               ls: seq<Label>)
    requires Acl.IsCompiled(net, acl, c) && Run(Config(Some(c), dbs), ls).Some?
    ensures var s := Run(Config(Some(c), dbs), ls).value;
            && (s.shared.spawned || s.svc.pc.Connecting? ==> s.svc.dialled.Some?)
            && (s.svc.dialled.Some? ==>
                  var sm := s.svc.dialled.value.0;
                  && Acl.NamePermitted(acl.allowedDatabases, Param(sm, "database"))
                  && Acl.NamePermitted(acl.allowedUsers, Param(sm, "user"))
                  && Param(sm, "database") in dbs
                  && s.svc.dialled.value.1 == dbs[Param(sm, "database")])
  {
    RunsAreSafe(Config(Some(c), dbs), ls);
    var d := Run(Config(Some(c), dbs), ls).value.svc.dialled;
    if d.Some? {
      DecidedIsPermission(net, acl, c, dbs, d.value.0);
    }
  }

  // ---------------------------------------------------------------- building schedules

  /** A schedule taken one step further. */
  lemma Go(cfg: Config, ls: seq<Label>, l: Label) returns (more: seq<Label>)
    requires Run(cfg, ls).Some?
    ensures more == ls + [l] && Run(cfg, more) == Step(cfg, Run(cfg, ls).value, l)
  {
    more := ls + [l];
    RunSnoc(cfg, ls, l, Run(cfg, ls).value);
  }

  /** A schedule that brings a session to relaying. */
  lemma Connected(sm: StartupMessage, db: DBConfig) returns (cfg: Config, ls: seq<Label>)
    ensures Run(cfg, ls) == Some(FRESH.(svc := ServiceSide(Waiting, Some((sm, db)), None, None, false),
                                        shared := FRESH_SHARED.(spawned := true)))
  {
    cfg := Config(None, map[Param(sm, "database") := db]);
    ls := [];
    ls := Go(cfg, ls, Service(StartupArrives(sm)));
    ls := Go(cfg, ls, Service(Decide));
    ls := Go(cfg, ls, Service(Connect(true)));
  }
}
