/** A schedule in which a session ends and leaves its entry in the cancel registry: its teardown
    loads `registeredKey` between the backend's key message and the relay's stores. */
module TeardownRace {
  import opened Basics
  import opened Startup
  import opened Gateway
  import opened Teardown
  import Acl
  import S = Session

  /** The run so far, with one session in the given state. */
  ghost predicate Reaches(cfg: Config, ls: seq<Label>, id: Id, s: S.Session) {
    && Run(cfg, ls).Some? && FreshKeysRun(cfg, ls)
    && Run(cfg, ls).value.procs == map[id := s] && Run(cfg, ls).value.stop.forced == {}
  }

  lemma FreshSnoc(cfg: Config, ls: seq<Label>, l: Label, g: State)
    requires Run(cfg, ls) == Some(g) && FreshKeysRun(cfg, ls) && GivesFreshKey(g, l)
    ensures FreshKeysRun(cfg, ls + [l])
  {
    assert (ls + [l])[..|ls|] == ls;
  }

  /** A step of the only session there is. */
  lemma OnlyStep(cfg: Config, g: State, id: Id, x: S.Label)
    requires g.procs.Keys == {id} && g.stop.forced == {}
    requires S.Step(cfg.session, g.procs[id], x).Some? && !(x.Service? && x.s.LookUp?)
    ensures var h := Step(cfg, g, At(id, x));
            && h.Some? && h.value.stop == g.stop
            && h.value.procs == map[id := S.Step(cfg.session, g.procs[id], x).value]
            && h.value.registry == RegistryAfter(g.registry, id, g.procs[id], x)
  {
  }

  /** One step of that session further; the registry follows. */
  lemma Onward(cfg: Config, ls: seq<Label>, id: Id, s: S.Session, x: S.Label)
    returns (more: seq<Label>, t: S.Session)
    requires Reaches(cfg, ls, id, s) && S.Step(cfg.session, s, x).Some?
    requires GetsKey(x) ==> Given(s) == None
    requires !(x.Service? && x.s.LookUp?)
    ensures t == S.Step(cfg.session, s, x).value && Reaches(cfg, more, id, t)
    ensures Run(cfg, more).value.registry == RegistryAfter(Run(cfg, ls).value.registry, id, s, x)
  {
    var g := Run(cfg, ls).value;
    more, t := ls + [At(id, x)], S.Step(cfg.session, s, x).value;
    OnlyStep(cfg, g, id, x);
    RunSnoc(cfg, ls, At(id, x), g);
    FreshSnoc(cfg, ls, At(id, x), g);
  }

  /** A step of the accept loop, before there is a session. */
  lemma AcceptOnward(cfg: Config, ls: seq<Label>, a: AcceptLabel) returns (more: seq<Label>)
    requires Run(cfg, ls).Some? && FreshKeysRun(cfg, ls) && Step(cfg, Run(cfg, ls).value, Accept(a)).Some?
    ensures Run(cfg, more) == Step(cfg, Run(cfg, ls).value, Accept(a)) && FreshKeysRun(cfg, more)
  {
    more := ls + [Accept(a)];
    RunSnoc(cfg, ls, Accept(a), Run(cfg, ls).value);
    FreshSnoc(cfg, ls, Accept(a), Run(cfg, ls).value);
  }

  lemma Checked(cfg: Config, remote: string) returns (ls: seq<Label>)
    requires cfg.session.acl.None? && cfg.cap == 0
    ensures Run(cfg, ls).Some? && FreshKeysRun(cfg, ls)
    ensures var g := Run(cfg, ls).value;
            && g.front.pc == StoringSession(1) && g.front.sessions == {} && g.stop == INITIAL.stop
            && g.procs == map[] && g.registry == Registry(map[], [])
  {
    ls := [];
    ls := AcceptOnward(cfg, ls, TakeConnection(remote));
    ls := AcceptOnward(cfg, ls, CountTotal);
    ls := AcceptOnward(cfg, ls, CheckAddr);
    ls := AcceptOnward(cfg, ls, CheckCap);
  }

  lemma Counted(cfg: Config, remote: string) returns (ls: seq<Label>)
    requires cfg.session.acl.None? && cfg.cap == 0
    ensures Run(cfg, ls).Some? && FreshKeysRun(cfg, ls)
    ensures var g := Run(cfg, ls).value;
            && g.front.pc == AddingToGroup(1) && g.stop.forced == {}
            && g.procs == map[] && g.registry == Registry(map[], [])
  {
    ls := Checked(cfg, remote);
    ls := AcceptOnward(cfg, ls, StoreSession);
    ls := AcceptOnward(cfg, ls, CountUp);
  }

  lemma Admitted(cfg: Config, remote: string) returns (ls: seq<Label>)
    requires cfg.session.acl.None? && cfg.cap == 0
    ensures Reaches(cfg, ls, 1, S.FRESH) && Run(cfg, ls).value.registry == Registry(map[], [])
  {
    ls := Counted(cfg, remote);
    ls := AcceptOnward(cfg, ls, AddToGroup);
    ls := AcceptOnward(cfg, ls, Spawn);
    assert Run(cfg, ls).value.procs == map[1 := S.FRESH];
  }

  /** The session relays, and has heard its key. */
  lemma KeyHeard(net: Acl.NetParsers, remote: string, sm: StartupMessage, db: DBConfig, key: CancelKey)
    returns (cfg: Config, ls: seq<Label>, s: S.Session)
    ensures Reaches(cfg, ls, 1, s) && Run(cfg, ls).value.registry == Registry(map[], [])
    ensures s.svc.pc.Waiting? && s.svc.dialled == Some((sm, db)) && s.shared == S.FRESH_SHARED.(spawned := true)
    ensures s.req == S.FRESH_REQUEST && s.resp == S.ResponseSide(S.StoringRegistry(key), [S.KeyData(key)], [])
  {
    cfg := Config(S.Config(None, map[Param(sm, "database") := db]), net, 0);
    ls := Admitted(cfg, remote);
    s := S.FRESH;
    ls, s := Onward(cfg, ls, 1, s, S.Service(S.StartupArrives(sm)));
    ls, s := Onward(cfg, ls, 1, s, S.Service(S.Decide));
    ls, s := Onward(cfg, ls, 1, s, S.Service(S.Connect(true)));
    ls, s := Onward(cfg, ls, 1, s, S.Response(S.Hear(S.KeyData(key))));
  }

  /** The client goes away, and the service goroutine is woken. */
  lemma ClientGone(net: Acl.NetParsers, remote: string, sm: StartupMessage, db: DBConfig, key: CancelKey)
    returns (cfg: Config, ls: seq<Label>, s: S.Session)
    ensures Reaches(cfg, ls, 1, s) && Run(cfg, ls).value.registry == Registry(map[], [])
    ensures s.svc.pc.Waiting? && s.shared.signal.closed && s.shared.registered == None
    ensures s.svc.dialled == Some((sm, db)) && s.shared.spawned
    ensures s.resp == S.ResponseSide(S.StoringRegistry(key), [S.KeyData(key)], [])
  {
    cfg, ls, s := KeyHeard(net, remote, sm, db, key);
    ls, s := Onward(cfg, ls, 1, s, S.Request(S.FindEmpty));
    ls, s := Onward(cfg, ls, 1, s, S.Request(S.ReceiveFails(S.ClientClosed)));
    ls, s := Onward(cfg, ls, 1, s, S.Request(S.ReportRequest));
  }

  /** The teardown's load finds no key. */
  lemma LoadedTooEarly(net: Acl.NetParsers, remote: string, sm: StartupMessage, db: DBConfig, key: CancelKey)
    returns (cfg: Config, ls: seq<Label>, s: S.Session)
    ensures Reaches(cfg, ls, 1, s) && Run(cfg, ls).value.registry == Registry(map[], [])
    ensures s.svc.pc.ClosingBackend? && s.svc.loaded.None? && s.svc.dialled == Some((sm, db)) && s.shared.spawned
    ensures s.resp == S.ResponseSide(S.StoringRegistry(key), [S.KeyData(key)], [])
  {
    cfg, ls, s := ClientGone(net, remote, sm, db, key);
    ls, s := Onward(cfg, ls, 1, s, S.Service(S.PassWait));
    ls, s := Onward(cfg, ls, 1, s, S.Service(S.LoadKey));
  }

  lemma Closed(net: Acl.NetParsers, remote: string, sm: StartupMessage, db: DBConfig, key: CancelKey)
    returns (cfg: Config, ls: seq<Label>, s: S.Session)
    ensures Reaches(cfg, ls, 1, s) && Run(cfg, ls).value.registry == Registry(map[], [])
    ensures s.svc.pc.DeletingSession? && s.svc.dialled == Some((sm, db)) && s.shared.spawned
    ensures s.resp == S.ResponseSide(S.StoringRegistry(key), [S.KeyData(key)], [])
  {
    cfg, ls, s := LoadedTooEarly(net, remote, sm, db, key);
    ls, s := Onward(cfg, ls, 1, s, S.Service(S.CloseBackend));
    ls, s := Onward(cfg, ls, 1, s, S.Service(S.CloseClient));
  }

  lemma Ended(net: Acl.NetParsers, remote: string, sm: StartupMessage, db: DBConfig, key: CancelKey)
    returns (cfg: Config, ls: seq<Label>, s: S.Session)
    ensures Reaches(cfg, ls, 1, s) && Run(cfg, ls).value.registry == Registry(map[], [])
    ensures s.svc.pc.Gone? && s.svc.dialled == Some((sm, db)) && s.shared.spawned
    ensures s.resp == S.ResponseSide(S.StoringRegistry(key), [S.KeyData(key)], [])
  {
    cfg, ls, s := Closed(net, remote, sm, db, key);
    ls, s := Onward(cfg, ls, 1, s, S.Service(S.DeleteSession));
    ls, s := Onward(cfg, ls, 1, s, S.Service(S.CountDown));
    ls, s := Onward(cfg, ls, 1, s, S.Service(S.ReleaseGroup));
  }

  /** The relay, which nothing waits for, stores the key after the session's end: the entry is
      there with the session gone, though every key was given once. */
  lemma EndedSessionCanLeaveEntry(net: Acl.NetParsers, remote: string, sm: StartupMessage, db: DBConfig, key: CancelKey)
    returns (cfg: Config, ls: seq<Label>)
    ensures Run(cfg, ls).Some? && FreshKeysRun(cfg, ls)
    ensures var g := Run(cfg, ls).value;
            1 in g.procs && g.procs[1].svc.pc.Gone?
            && g.registry.entries == map[key := S.RegistryEntry(TargetFor(db.addr), key.secret)]
  {
    var s;
    cfg, ls, s := Ended(net, remote, sm, db, key);
    ls, s := Onward(cfg, ls, 1, s, S.Response(S.StoreRegistry));
  }
}
