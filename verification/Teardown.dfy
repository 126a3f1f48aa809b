/** What teardown does to the cancel registry. If backends give each session at most one key,
    distinct among live sessions, and a session's two stores come before its teardown's load, then
    an ended session leaves no entry and no teardown touches an entry of another session. The code
    does not ensure the last of these; what happens without it is stated exactly. */
module Teardown {
  import opened Basics
  import opened Startup
  import opened Gateway
  import opened Lifecycle
  import opened CancelRegistry
  import S = Session
  import SessionSafety

  // ---------------------------------------------------------------- one session

  /** The keys a session's backend has given it. */
  function KeysOf(ms: seq<S.BackMsg>): seq<CancelKey> {
    if ms == [] then []
    else
      var m := ms[|ms|-1];
      KeysOf(ms[..|ms|-1]) + if m.KeyData? then [m.key] else []
  }

  function Given(s: S.Session): Option<CancelKey> {
    var keys := KeysOf(s.resp.fromBackend);
    if keys == [] then None else Some(keys[0])
  }

  /** Past the end of `serviceStartup`, or never in it. */
  predicate TornDown(pc: S.ServicePc) {
    || pc.ClosingBackend? || pc.ClosingClient? || pc.DeletingSession?
    || pc.CountingDown? || pc.ReleasingGroup? || pc.Gone?
  }

  predicate Storing(pc: S.ResponsePc) {
    pc.StoringRegistry? || pc.StoringKey?
  }

  /** Where the two stores of the one key stand. */
  ghost predicate StoreInv(p: S.ResponseSide, keys: seq<CancelKey>, registered: Option<CancelKey>) {
    && |keys| <= 1
    && match p.pc
       case StoringRegistry(k) => keys == [k] && p.stored == [] && registered == None
       case StoringKey(k) => keys == [k] && p.stored == [k] && registered == None
       case _ => p.stored == keys && registered == if keys == [] then None else Some(keys[0])
  }

  ghost predicate LoadInv(v: S.ServiceSide, registered: Option<CancelKey>) {
    && (v.pc.DeletingKey? ==> v.loaded == Some(v.pc.key))
    && (v.loaded.Some? ==> v.loaded == registered && (v.pc.DeletingKey? || TornDown(v.pc)))
  }

  ghost predicate IdleInv(s: S.Session) {
    && (SessionSafety.BeforeConnected(s.svc.pc) ==> !s.shared.spawned)
    && (!s.shared.spawned ==> s.resp == S.FRESH_RESPONSE && s.shared.registered == None)
  }

  ghost predicate KeyInv(s: S.Session) {
    && StoreInv(s.resp, KeysOf(s.resp.fromBackend), s.shared.registered)
    && LoadInv(s.svc, s.shared.registered)
    && IdleInv(s)
  }

  predicate GetsKey(l: S.Label) {
    l.Response? && l.p.Hear? && l.p.m.KeyData?
  }

  lemma KeysSnoc(ms: seq<S.BackMsg>, m: S.BackMsg)
    ensures KeysOf(ms + [m]) == KeysOf(ms) + if m.KeyData? then [m.key] else []
  {
    assert (ms + [m])[..|ms|] == ms;
  }

  /** What the registry needs to know of a session. */
  datatype View = View(given: Option<CancelKey>, stored: bool, removed: bool, over: bool)

  function ViewOf(s: S.Session): View {
    View(Given(s), s.resp.stored != [], s.svc.loaded.Some? && TornDown(s.svc.pc), TornDown(s.svc.pc))
  }

  predicate StoresEntry(l: S.Label) { l.Response? && l.p.StoreRegistry? }
  predicate DeletesEntry(l: S.Label) { l.Service? && l.s.DeleteKey? }

  /** The service goroutine's part in it. */
  lemma LoadsAndDeletes(cfg: S.Config, v: S.ServiceSide, sh: S.Shared, x: S.ServiceLabel)
    requires LoadInv(v, sh.registered) && S.ServiceStep(cfg, v, sh, x).Some?
    requires SessionSafety.BeforeConnected(v.pc) ==> !sh.spawned
    ensures var w, after := S.ServiceStep(cfg, v, sh, x).value.side, S.ServiceStep(cfg, v, sh, x).value.shared;
            && after.registered == sh.registered && LoadInv(w, sh.registered)
            && (SessionSafety.BeforeConnected(w.pc) ==> !after.spawned) && (sh.spawned ==> after.spawned)
            && (TornDown(v.pc) ==> TornDown(w.pc) && w.loaded == v.loaded)
            && (x.DeleteKey? ==> v.pc.DeletingKey? && TornDown(w.pc) && w.loaded == v.loaded)
            && (!x.DeleteKey? && TornDown(w.pc) && !TornDown(v.pc) ==>
                  w.loaded == None && (!sh.spawned || (x.LoadKey? && sh.registered == None)))
  {
  }

  lemma ServiceView(cfg: S.Config, s: S.Session, x: S.ServiceLabel)
    requires KeyInv(s) && S.Step(cfg, s, S.Service(x)).Some?
    ensures var t := S.Step(cfg, s, S.Service(x)).value;
            && KeyInv(t)
            && ViewOf(t).given == ViewOf(s).given && ViewOf(t).stored == ViewOf(s).stored
            && (x.DeleteKey? ==>
                  s.svc.pc.DeletingKey? && Given(s) == Some(s.svc.pc.key) && ViewOf(s).stored && !ViewOf(s).over
                  && ViewOf(t).removed && ViewOf(t).over)
            && (!x.DeleteKey? ==> ViewOf(t).removed == ViewOf(s).removed)
            && (!x.DeleteKey? && ViewOf(t).over && !ViewOf(s).over && ViewOf(s).stored ==>
                  x.LoadKey? && Storing(s.resp.pc))
            && (ViewOf(s).over ==> ViewOf(t).over)
  {
    LoadsAndDeletes(cfg, s.svc, s.shared, x);
  }

  lemma RequestView(cfg: S.Config, s: S.Session, x: S.RequestLabel)
    requires KeyInv(s) && S.Step(cfg, s, S.Request(x)).Some?
    ensures var t := S.Step(cfg, s, S.Request(x)).value; KeyInv(t) && ViewOf(t) == ViewOf(s)
  {
  }

  lemma KeyHeardView(cfg: S.Config, s: S.Session, key: CancelKey)
    requires KeyInv(s) && S.Step(cfg, s, S.Response(S.Hear(S.KeyData(key)))).Some? && Given(s) == None
    ensures var t := S.Step(cfg, s, S.Response(S.Hear(S.KeyData(key)))).value;
            KeyInv(t) && ViewOf(t) == ViewOf(s).(given := Some(key)) && !ViewOf(s).stored
  {
    KeysSnoc(s.resp.fromBackend, S.KeyData(key));
    var t := S.Step(cfg, s, S.Response(S.Hear(S.KeyData(key)))).value;
    assert t.svc == s.svc && t.shared == s.shared && KeysOf(t.resp.fromBackend) == [key];
  }

  lemma OtherHeardView(cfg: S.Config, s: S.Session, m: S.BackMsg)
    requires KeyInv(s) && S.Step(cfg, s, S.Response(S.Hear(m))).Some? && !m.KeyData?
    ensures var t := S.Step(cfg, s, S.Response(S.Hear(m))).value; KeyInv(t) && ViewOf(t) == ViewOf(s)
  {
    KeysSnoc(s.resp.fromBackend, m);
    var t := S.Step(cfg, s, S.Response(S.Hear(m))).value;
    assert t.svc == s.svc && t.shared == s.shared && KeysOf(t.resp.fromBackend) == KeysOf(s.resp.fromBackend);
  }

  lemma EntryStoredView(cfg: S.Config, s: S.Session)
    requires KeyInv(s) && S.Step(cfg, s, S.Response(S.StoreRegistry)).Some?
    ensures var t := S.Step(cfg, s, S.Response(S.StoreRegistry)).value;
            && KeyInv(t) && s.resp.pc.StoringRegistry? && Given(s) == Some(s.resp.pc.key)
            && !ViewOf(s).stored && !ViewOf(s).removed && ViewOf(t) == ViewOf(s).(stored := true)
  {
  }

  lemma OtherResponseView(cfg: S.Config, s: S.Session, x: S.ResponseLabel)
    requires KeyInv(s) && S.Step(cfg, s, S.Response(x)).Some? && !x.Hear? && !x.StoreRegistry?
    ensures var t := S.Step(cfg, s, S.Response(x)).value; KeyInv(t) && ViewOf(t) == ViewOf(s)
  {
    var t := S.Step(cfg, s, S.Response(x)).value;
    assert t.svc == s.svc && t.resp.fromBackend == s.resp.fromBackend && t.resp.stored == s.resp.stored;
  }

  lemma ResponseView(cfg: S.Config, s: S.Session, x: S.ResponseLabel)
    requires KeyInv(s) && S.Step(cfg, s, S.Response(x)).Some?
    requires x.Hear? && x.m.KeyData? ==> Given(s) == None
    ensures var t := S.Step(cfg, s, S.Response(x)).value;
            && KeyInv(t)
            && (if x.Hear? && x.m.KeyData? then ViewOf(t) == ViewOf(s).(given := Some(x.m.key)) && !ViewOf(s).stored
                else if x.StoreRegistry? then
                  s.resp.pc.StoringRegistry? && Given(s) == Some(s.resp.pc.key)
                  && !ViewOf(s).stored && !ViewOf(s).removed && ViewOf(t) == ViewOf(s).(stored := true)
                else ViewOf(t) == ViewOf(s))
  {
    if x.Hear? {
      if x.m.KeyData? {
        KeyHeardView(cfg, s, x.m.key);
      } else {
        OtherHeardView(cfg, s, x.m);
      }
    } else if x.StoreRegistry? {
      EntryStoredView(cfg, s);
    } else {
      OtherResponseView(cfg, s, x);
    }
  }

  // ---------------------------------------------------------------- every run: keys given once

  function Views(procs: map<Id, S.Session>): map<Id, View> {
    map id | id in procs :: ViewOf(procs[id])
  }

  lemma ViewsUpdate(procs: map<Id, S.Session>, id: Id, t: S.Session)
    ensures Views(procs[id := t]) == Views(procs)[id := ViewOf(t)]
  {
  }

  /** A backend gives a session at most one key (section 55.2.1), and no two sessions the same. */
  ghost predicate GivesFreshKey(g: State, l: Label) {
    l.At? && l.id in g.procs && GetsKey(l.l) ==>
      && Given(g.procs[l.id]) == None
      && forall i <- g.procs.Keys :: Given(g.procs[i]) != Some(l.l.p.m.key)
  }

  ghost predicate FreshKeysRun(cfg: Config, ls: seq<Label>) {
    ls != [] ==>
      && FreshKeysRun(cfg, ls[..|ls|-1])
      && (Run(cfg, ls[..|ls|-1]).Some? ==> GivesFreshKey(Run(cfg, ls[..|ls|-1]).value, ls[|ls|-1]))
  }

  /** What became of a session's key. */
  ghost predicate Fate(log: seq<Event>, id: Id, v: View) {
    v.given.Some? ==>
      match LastEvent(log, v.given.value)
      case None => !v.stored
      case Some(e) => v.stored && e.id == id && (e.Removed? <==> v.removed)
  }

  ghost predicate AllFates(log: seq<Event>, vs: map<Id, View>) {
    && (forall i <- vs.Keys :: Fate(log, i, vs[i]))
    && (forall i <- vs.Keys, j <- vs.Keys :: i != j && vs[i].given.Some? ==> vs[i].given != vs[j].given)
    && (forall key :: LastEvent(log, key).Some? ==>
          LastEvent(log, key).value.id in vs && vs[LastEvent(log, key).value.id].given == Some(key))
  }

  lemma EventKeepsFates(log: seq<Event>, vs: map<Id, View>, id: Id, e: Event, v: View)
    requires AllFates(log, vs) && id in vs && e.id == id && vs[id].given == Some(e.key)
    requires v.given == vs[id].given && v.stored && (e.Removed? <==> v.removed)
    ensures AllFates(log + [e], vs[id := v])
  {
    var ws := vs[id := v];
    forall key ensures LastEvent(log + [e], key) == if e.key == key then Some(e) else LastEvent(log, key) {
      LogSnoc(log, e, key);
    }
    assert forall i <- ws.Keys :: Fate(log + [e], i, ws[i]);
  }

  lemma GiftKeepsFates(log: seq<Event>, vs: map<Id, View>, id: Id, key: CancelKey)
    requires AllFates(log, vs) && id in vs && vs[id].given == None && !vs[id].stored
    requires forall i <- vs.Keys :: vs[i].given != Some(key)
    ensures AllFates(log, vs[id := vs[id].(given := Some(key))])
  {
  }

  lemma QuietKeepsFates(log: seq<Event>, vs: map<Id, View>, id: Id, v: View)
    requires AllFates(log, vs)
    requires id in vs ==> v.given == vs[id].given && v.stored == vs[id].stored && v.removed == vs[id].removed
    requires id !in vs ==> v.given == None
    ensures AllFates(log, vs[id := v])
  {
  }

  ghost predicate AllKeyInv(procs: map<Id, S.Session>) {
    forall id <- procs.Keys :: KeyInv(procs[id])
  }

  ghost predicate FatesInv(g: State) {
    AllKeyInv(g.procs) && AllFates(g.registry.log, Views(g.procs))
  }

  /** The log after a session's step. */
  lemma LogAfter(r: Registry, id: Id, s: S.Session, x: S.Label)
    requires StoresEntry(x) ==> s.resp.pc.StoringRegistry? && TargetOf(s).Some?
    requires DeletesEntry(x) ==> s.svc.pc.DeletingKey?
    ensures RegistryAfter(r, id, s, x).log == r.log +
            if StoresEntry(x) then [Registered(id, s.resp.pc.key, TargetOf(s).value)]
            else if DeletesEntry(x) then [Removed(id, s.svc.pc.key)] else []
  {
  }

  /** The log and the views after a session's step. */
  lemma FatesAfter(cfg: Config, g: State, id: Id, x: S.Label)
    requires FatesInv(g) && Step(cfg, g, At(id, x)).Some?
    requires var h := Step(cfg, g, At(id, x)).value;
             KeyInv(h.procs[id]) && AllFates(h.registry.log, Views(g.procs)[id := ViewOf(h.procs[id])])
    ensures FatesInv(Step(cfg, g, At(id, x)).value)
  {
    ViewsUpdate(g.procs, id, Step(cfg, g, At(id, x)).value.procs[id]);
  }

  lemma ServiceKeepsFates(cfg: Config, g: State, id: Id, y: S.ServiceLabel)
    requires FatesInv(g) && Step(cfg, g, At(id, S.Service(y))).Some?
    ensures FatesInv(Step(cfg, g, At(id, S.Service(y))).value)
  {
    var s, v := g.procs[id], ViewOf(Step(cfg, g, At(id, S.Service(y))).value.procs[id]);
    ServiceView(cfg.session, s, y);
    LogAfter(g.registry, id, s, S.Service(y));
    if y.DeleteKey? {
      EventKeepsFates(g.registry.log, Views(g.procs), id, Removed(id, s.svc.pc.key), v);
    } else {
      QuietKeepsFates(g.registry.log, Views(g.procs), id, v);
    }
    FatesAfter(cfg, g, id, S.Service(y));
  }

  lemma RequestKeepsFates(cfg: Config, g: State, id: Id, y: S.RequestLabel)
    requires FatesInv(g) && Step(cfg, g, At(id, S.Request(y))).Some?
    ensures FatesInv(Step(cfg, g, At(id, S.Request(y))).value)
  {
    RequestView(cfg.session, g.procs[id], y);
    QuietKeepsFates(g.registry.log, Views(g.procs), id, ViewOf(g.procs[id]));
    FatesAfter(cfg, g, id, S.Request(y));
  }

  lemma ResponseKeepsFates(cfg: Config, g: State, id: Id, y: S.ResponseLabel)
    requires FatesInv(g) && Step(cfg, g, At(id, S.Response(y))).Some? && DialInv(g.procs[id])
    requires GivesFreshKey(g, At(id, S.Response(y)))
    ensures FatesInv(Step(cfg, g, At(id, S.Response(y))).value)
  {
    var s, v := g.procs[id], ViewOf(Step(cfg, g, At(id, S.Response(y))).value.procs[id]);
    ResponseView(cfg.session, s, y);
    LogAfter(g.registry, id, s, S.Response(y));
    if GetsKey(S.Response(y)) {
      GiftKeepsFates(g.registry.log, Views(g.procs), id, y.m.key);
    } else if y.StoreRegistry? {
      EventKeepsFates(g.registry.log, Views(g.procs), id, Registered(id, s.resp.pc.key, TargetOf(s).value), v);
    } else {
      QuietKeepsFates(g.registry.log, Views(g.procs), id, v);
    }
    FatesAfter(cfg, g, id, S.Response(y));
  }

  lemma StepKeepsFates(cfg: Config, g: State, l: Label)
    requires FatesInv(g) && RegistryInv(g) && IdsInOrder(g)
    requires GivesFreshKey(g, l) && Step(cfg, g, l).Some?
    ensures FatesInv(Step(cfg, g, l).value)
  {
    match l
    case Accept(a) =>
      if a.Spawn? {
        ViewsUpdate(g.procs, g.front.pc.id, S.FRESH);
        QuietKeepsFates(g.registry.log, Views(g.procs), g.front.pc.id, ViewOf(S.FRESH));
      }
    case Stop(_) =>
    case At(id, Service(y)) => ServiceKeepsFates(cfg, g, id, y);
    case At(id, Request(y)) => RequestKeepsFates(cfg, g, id, y);
    case At(id, Response(y)) => ResponseKeepsFates(cfg, g, id, y);
  }

  lemma {:induction false} FreshKeysKeepFates(cfg: Config, ls: seq<Label>)
    requires FreshKeysRun(cfg, ls) && Run(cfg, ls).Some?
    ensures FatesInv(Run(cfg, ls).value)
  {
    if ls != [] {
      var before := ls[..|ls|-1];
      FreshKeysKeepFates(cfg, before);
      RunsKeepRegistry(cfg, before);
      RunsKeepIdsInOrder(cfg, before);
      StepKeepsFates(cfg, Run(cfg, before).value, ls[|ls|-1]);
    }
  }

  /** Where every key is given once, the key of a session that is torn down is left in the registry
      just when it was stored and the teardown's load found none: that is the guard before the
      delete. Otherwise it is not there. */
  lemma LeavesEntryIff(cfg: Config, ls: seq<Label>, id: Id, key: CancelKey)
    requires FreshKeysRun(cfg, ls) && Run(cfg, ls).Some? && id in Run(cfg, ls).value.procs
    requires TornDown(Run(cfg, ls).value.procs[id].svc.pc) && Given(Run(cfg, ls).value.procs[id]) == Some(key)
    ensures var g := Run(cfg, ls).value;
            key in g.registry.entries <==> key in g.procs[id].resp.stored && g.procs[id].svc.loaded.None?
  {
    FreshKeysKeepFates(cfg, ls);
    RunsKeepRegistry(cfg, ls);
    var g := Run(cfg, ls).value;
    assert Fate(g.registry.log, id, Views(g.procs)[id]);
    assert KeyInv(g.procs[id]);
    assert match LastEvent(g.registry.log, key)
           case Some(Registered(_, _, target)) => key in g.registry.entries
           case _ => key !in g.registry.entries;
  }

  // ---------------------------------------------------------------- every run: both stores in time

  /** No two live sessions have the same key, and a session's stores come before its teardown's
      load, with at most one key each. */
  ghost predicate Tidy(g: State, l: Label) {
    l.At? && l.id in g.procs ==>
      var s := g.procs[l.id];
      && (GetsKey(l.l) ==>
            && Given(s) == None
            && (s.svc.pc.Waiting? || s.svc.pc.LoadingKey?)
            && forall i <- g.procs.Keys :: TornDown(g.procs[i].svc.pc) || Given(g.procs[i]) != Some(l.l.p.m.key))
      && (l.l == S.Service(S.LoadKey) ==> !Storing(s.resp.pc))
  }

  ghost predicate TidyRun(cfg: Config, ls: seq<Label>) {
    ls != [] ==>
      && TidyRun(cfg, ls[..|ls|-1])
      && (Run(cfg, ls[..|ls|-1]).Some? ==> Tidy(Run(cfg, ls[..|ls|-1]).value, ls[|ls|-1]))
  }

  /** Every live session's entry is its own, and every entry is a live session's. */
  ghost predicate Clean(log: seq<Event>, vs: map<Id, View>) {
    && (forall i <- vs.Keys :: !vs[i].over && vs[i].stored && vs[i].given.Some? ==>
          LastEvent(log, vs[i].given.value).Some?
          && LastEvent(log, vs[i].given.value).value.Registered? && LastEvent(log, vs[i].given.value).value.id == i)
    && (forall key :: LastEvent(log, key).Some? && LastEvent(log, key).value.Registered? ==>
          var i := LastEvent(log, key).value.id;
          i in vs && vs[i].given == Some(key) && vs[i].stored && !vs[i].over)
    && (forall i <- vs.Keys, j <- vs.Keys :: i != j && !vs[i].over && !vs[j].over && vs[i].given.Some? ==>
          vs[i].given != vs[j].given)
  }

  lemma EventKeepsClean(log: seq<Event>, vs: map<Id, View>, id: Id, e: Event, v: View)
    requires Clean(log, vs) && id in vs && e.id == id && vs[id].given == Some(e.key) && !vs[id].over
    requires v.given == vs[id].given && v.stored && v.over == e.Removed?
    ensures Clean(log + [e], vs[id := v])
  {
    forall key ensures LastEvent(log + [e], key) == if e.key == key then Some(e) else LastEvent(log, key) {
      LogSnoc(log, e, key);
    }
  }

  lemma GiftKeepsClean(log: seq<Event>, vs: map<Id, View>, id: Id, key: CancelKey)
    requires Clean(log, vs) && id in vs && vs[id].given == None && !vs[id].stored
    requires forall i <- vs.Keys :: vs[i].over || vs[i].given != Some(key)
    ensures Clean(log, vs[id := vs[id].(given := Some(key))])
  {
  }

  lemma QuietKeepsClean(log: seq<Event>, vs: map<Id, View>, id: Id, v: View)
    requires Clean(log, vs)
    requires id in vs ==> v.given == vs[id].given && v.stored == vs[id].stored
    requires id in vs ==> (vs[id].over ==> v.over) && (v.over && !vs[id].over ==> !v.stored)
    requires id !in vs ==> v.given == None
    ensures Clean(log, vs[id := v])
  {
  }

  /** What is being stored is stored before the load. */
  ghost predicate InTime(s: S.Session) {
    Storing(s.resp.pc) ==> s.svc.pc.Waiting? || s.svc.pc.LoadingKey?
  }

  ghost predicate TidyInv(g: State) {
    AllKeyInv(g.procs) && (forall id <- g.procs.Keys :: InTime(g.procs[id])) && Clean(g.registry.log, Views(g.procs))
  }

  lemma StepKeepsInTime(cfg: S.Config, s: S.Session, x: S.Label)
    requires InTime(s) && S.Step(cfg, s, x).Some?
    requires GetsKey(x) ==> s.svc.pc.Waiting? || s.svc.pc.LoadingKey?
    requires x == S.Service(S.LoadKey) ==> !Storing(s.resp.pc)
    ensures InTime(S.Step(cfg, s, x).value)
  {
    match x
    case Service(_) =>
    case Request(_) =>
    case Response(_) =>
  }

  lemma CleanAfter(cfg: Config, g: State, id: Id, x: S.Label)
    requires TidyInv(g) && Step(cfg, g, At(id, x)).Some?
    requires var h := Step(cfg, g, At(id, x)).value;
             && KeyInv(h.procs[id]) && InTime(h.procs[id])
             && Clean(h.registry.log, Views(g.procs)[id := ViewOf(h.procs[id])])
    ensures TidyInv(Step(cfg, g, At(id, x)).value)
  {
    ViewsUpdate(g.procs, id, Step(cfg, g, At(id, x)).value.procs[id]);
  }

  lemma ServiceKeepsClean(cfg: Config, g: State, id: Id, y: S.ServiceLabel)
    requires TidyInv(g) && Tidy(g, At(id, S.Service(y))) && Step(cfg, g, At(id, S.Service(y))).Some?
    ensures TidyInv(Step(cfg, g, At(id, S.Service(y))).value)
  {
    var s, v := g.procs[id], ViewOf(Step(cfg, g, At(id, S.Service(y))).value.procs[id]);
    ServiceView(cfg.session, s, y);
    StepKeepsInTime(cfg.session, s, S.Service(y));
    LogAfter(g.registry, id, s, S.Service(y));
    if y.DeleteKey? {
      EventKeepsClean(g.registry.log, Views(g.procs), id, Removed(id, s.svc.pc.key), v);
    } else {
      QuietKeepsClean(g.registry.log, Views(g.procs), id, v);
    }
    CleanAfter(cfg, g, id, S.Service(y));
  }

  lemma RequestKeepsClean(cfg: Config, g: State, id: Id, y: S.RequestLabel)
    requires TidyInv(g) && Step(cfg, g, At(id, S.Request(y))).Some?
    ensures TidyInv(Step(cfg, g, At(id, S.Request(y))).value)
  {
    RequestView(cfg.session, g.procs[id], y);
    StepKeepsInTime(cfg.session, g.procs[id], S.Request(y));
    QuietKeepsClean(g.registry.log, Views(g.procs), id, ViewOf(g.procs[id]));
    CleanAfter(cfg, g, id, S.Request(y));
  }

  lemma KeyGivenKeepsClean(cfg: Config, g: State, id: Id, key: CancelKey)
    requires TidyInv(g) && Step(cfg, g, At(id, S.Response(S.Hear(S.KeyData(key))))).Some?
    requires Tidy(g, At(id, S.Response(S.Hear(S.KeyData(key)))))
    ensures TidyInv(Step(cfg, g, At(id, S.Response(S.Hear(S.KeyData(key))))).value)
  {
    var y := S.Hear(S.KeyData(key));
    ResponseView(cfg.session, g.procs[id], y);
    StepKeepsInTime(cfg.session, g.procs[id], S.Response(y));
    GiftKeepsClean(g.registry.log, Views(g.procs), id, key);
    CleanAfter(cfg, g, id, S.Response(y));
  }

  lemma ResponseKeepsClean(cfg: Config, g: State, id: Id, y: S.ResponseLabel)
    requires TidyInv(g) && Step(cfg, g, At(id, S.Response(y))).Some? && DialInv(g.procs[id])
    requires !GetsKey(S.Response(y))
    ensures TidyInv(Step(cfg, g, At(id, S.Response(y))).value)
  {
    var s, v := g.procs[id], ViewOf(Step(cfg, g, At(id, S.Response(y))).value.procs[id]);
    ResponseView(cfg.session, s, y);
    StepKeepsInTime(cfg.session, s, S.Response(y));
    LogAfter(g.registry, id, s, S.Response(y));
    if y.StoreRegistry? {
      EventKeepsClean(g.registry.log, Views(g.procs), id, Registered(id, s.resp.pc.key, TargetOf(s).value), v);
    } else {
      QuietKeepsClean(g.registry.log, Views(g.procs), id, v);
    }
    CleanAfter(cfg, g, id, S.Response(y));
  }

  lemma SpawnKeepsTidy(g: State, id: Id, h: State)
    requires TidyInv(g) && id !in g.procs && h.procs == g.procs[id := S.FRESH] && h.registry == g.registry
    ensures TidyInv(h)
  {
    ViewsUpdate(g.procs, id, S.FRESH);
    QuietKeepsClean(g.registry.log, Views(g.procs), id, ViewOf(S.FRESH));
  }

  lemma StepKeepsTidy(cfg: Config, g: State, l: Label)
    requires TidyInv(g) && RegistryInv(g) && IdsInOrder(g)
    requires Tidy(g, l) && Step(cfg, g, l).Some?
    ensures TidyInv(Step(cfg, g, l).value)
  {
    match l
    case Accept(a) =>
      if a.Spawn? {
        SpawnKeepsTidy(g, g.front.pc.id, Step(cfg, g, l).value);
      }
    case Stop(_) =>
    case At(id, Service(y)) => ServiceKeepsClean(cfg, g, id, y);
    case At(id, Request(y)) => RequestKeepsClean(cfg, g, id, y);
    case At(id, Response(y)) =>
      if GetsKey(l.l) {
        KeyGivenKeepsClean(cfg, g, id, y.m.key);
      } else {
        ResponseKeepsClean(cfg, g, id, y);
      }
  }

  lemma {:induction false} TidyRunsAreClean(cfg: Config, ls: seq<Label>)
    requires TidyRun(cfg, ls) && Run(cfg, ls).Some?
    ensures TidyInv(Run(cfg, ls).value)
  {
    if ls != [] {
      var before := ls[..|ls|-1];
      TidyRunsAreClean(cfg, before);
      RunsKeepRegistry(cfg, before);
      RunsKeepIdsInOrder(cfg, before);
      StepKeepsTidy(cfg, Run(cfg, before).value, ls[|ls|-1]);
    }
  }

  /** In a tidy run the registry holds the keys of live sessions only, each registered by the one
      it was given to; so a session that is torn down leaves none. */
  lemma TornDownLeavesNothing(cfg: Config, ls: seq<Label>, key: CancelKey)
    requires TidyRun(cfg, ls) && Run(cfg, ls).Some? && key in Run(cfg, ls).value.registry.entries
    ensures var g := Run(cfg, ls).value;
            exists id <- g.procs.Keys ::
              && !TornDown(g.procs[id].svc.pc) && Given(g.procs[id]) == Some(key)
              && TargetOf(g.procs[id]) == Some(g.registry.entries[key].target)
  {
    var g := Run(cfg, ls).value;
    TidyRunsAreClean(cfg, ls);
    RunsKeepRegistry(cfg, ls);
    FoundIsLastRegistered(g, key);
    var id := LastEvent(g.registry.log, key).value.id;
    assert Views(g.procs)[id].given == Some(key) && !Views(g.procs)[id].over;
  }

  /** A teardown that found a key is about to remove its own entry. */
  lemma DeletesOwn(g: State, id: Id)
    requires TidyInv(g) && HoldsLast(g.registry) && id in g.procs && g.procs[id].svc.pc.DeletingKey?
    ensures var key := g.procs[id].svc.pc.key;
            && Given(g.procs[id]) == Some(key) && key in g.registry.entries
            && LastEvent(g.registry.log, key).Some? && LastEvent(g.registry.log, key).value.id == id
  {
    var key := g.procs[id].svc.pc.key;
    assert KeyInv(g.procs[id]);
    assert Views(g.procs)[id] == ViewOf(g.procs[id]);
    assert match LastEvent(g.registry.log, key)
           case Some(Registered(_, _, target)) => key in g.registry.entries
           case _ => key !in g.registry.entries;
  }

  lemma DeleteIsGuarded(cfg: S.Config, s: S.Session, x: S.ServiceLabel)
    requires S.Step(cfg, s, S.Service(x)).Some?
    ensures x.DeleteKey? ==> s.svc.pc.DeletingKey?
  {
  }

  /** In a tidy run teardown removes the session's own entry and touches no other. */
  lemma TeardownTouchesOwnOnly(cfg: Config, ls: seq<Label>, g: State, id: Id, x: S.ServiceLabel, h: State)
    requires TidyRun(cfg, ls) && Run(cfg, ls) == Some(g) && Step(cfg, g, At(id, S.Service(x))) == Some(h)
    ensures !x.DeleteKey? ==> h.registry.entries == g.registry.entries
    ensures x.DeleteKey? ==>
              exists key <- g.registry.entries.Keys ::
                && Given(g.procs[id]) == Some(key)
                && LastEvent(g.registry.log, key).Some? && LastEvent(g.registry.log, key).value.id == id
                && h.registry.entries == g.registry.entries - {key}
  {
    if x.DeleteKey? {
      TidyRunsAreClean(cfg, ls);
      RunsKeepRegistry(cfg, ls);
      DeleteIsGuarded(cfg.session, g.procs[id], x);
      DeletesOwn(g, id);
    }
  }
}
