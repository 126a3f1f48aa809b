/** The relay goroutines of a session as the loops they are, updating the session's fields in
    place, with the other goroutines free to step between any two of their atomic actions. Each
    action is one step of the session's step system, so the loops only ever go through its runs,
    and all that holds of those holds of the loops. */
module SessionLoops {
  import opened Basics
  import opened Session
  import L = Session
  import opened Startup
  import Acl
  import Decoder
  import SessionSafety
  import SessionStreams

  /** What a turn of the request loop meets: a message, the handler's answer, and which writes
      work; or a read that fails. */
  datatype Turn =
    | Arrives(m: FrontMsg, result: HandlerResult, errorOk: bool, readyOk: bool, forwardOk: bool)
    | Breaks(kind: ErrKind)

  /** What a turn of the response loop meets. */
  datatype BackTurn = Comes(m: BackMsg, relayOk: bool) | Stops(kind: ErrKind)

  datatype Who = Servicer | Requester | Responder

  predicate Own(me: Who, l: Label) {
    match me
    case Servicer => l.Service?
    case Requester => l.Request?
    case Responder => l.Response?
  }

  /** What the others leave alone. */
  ghost predicate OwnSideKept(me: Who, s: Session, t: Session) {
    match me
    case Servicer => t.svc == s.svc
    case Requester => t.req == s.req
    case Responder => t.resp == s.resp
  }

  ghost predicate Took(cfg: Config, s: Session, l: Label, t: Session) {
    t == if Step(cfg, s, l).Some? then Step(cfg, s, l).value else s
  }

  lemma StreamsHold(cfg: Config, ls: seq<Label>, s: Session)
    requires Run(cfg, ls) == Some(s)
    ensures SessionStreams.StreamInv(s)
  {
    SessionStreams.RunsKeepStreams(cfg, ls);
  }

  lemma ServiceRuns(cfg: Config, ls: seq<Label>, s: Session, l: ServiceLabel, v: ServiceSide, sh: Shared)
    requires Run(cfg, ls) == Some(s) && ServiceStep(cfg, s.svc, s.shared, l) == Some(After(v, sh))
    ensures Run(cfg, ls + [Service(l)]) == Some(Session(v, s.req, s.resp, sh))
  {
    RunSnoc(cfg, ls, Service(l), s);
  }

  lemma DrainedHoldsLatest(cfg: Config, ls: seq<Label>, s: Session)
    requires Run(cfg, ls) == Some(s) && s.shared.auth.chan == []
    ensures s.shared.auth.held == Decoder.LatestAuth(s.shared.auth)
  {
    SessionSafety.RunsAreSafe(cfg, ls);
  }

  /** All that was refused has been answered, as far as the client could be written to. */
  ghost predicate Answered(c: Stream, decided: seq<Decision>) {
    && SessionStreams.OwnPart(c.out) <= SessionStreams.Replies(decided)
    && (!c.broken ==> SessionStreams.OwnPart(c.out) == SessionStreams.Replies(decided))
  }

  lemma DrainingHasAnswered(cfg: Config, ls: seq<Label>, s: Session)
    requires Run(cfg, ls) == Some(s) && s.req.pc.Draining?
    ensures Answered(s.shared.client, s.req.decided)
  {
    SessionStreams.ClientStreamIsMerge(cfg, ls, s);
  }

  lemma RequestRuns(cfg: Config, ls: seq<Label>, s: Session, l: RequestLabel, q: RequestSide, sh: Shared)
    requires Run(cfg, ls) == Some(s) && RequestStep(s.req, s.shared, l) == Some(After(q, sh))
    ensures Run(cfg, ls + [Request(l)]) == Some(Session(s.svc, q, s.resp, sh))
  {
    RunSnoc(cfg, ls, Request(l), s);
  }

  lemma ResponseRuns(cfg: Config, ls: seq<Label>, s: Session, l: ResponseLabel, p: ResponseSide, sh: Shared)
    requires Run(cfg, ls) == Some(s) && ResponseStep(s.resp, s.shared, l) == Some(After(p, sh))
    ensures Run(cfg, ls + [Response(l)]) == Some(Session(s.svc, s.req, p, sh))
  {
    RunSnoc(cfg, ls, Response(l), s);
  }

  /** What a step of another goroutine leaves alone. */
  lemma OthersLeave(cfg: Config, me: Who, s: Session, l: Label, t: Session)
    requires !Own(me, l) && Took(cfg, s, l, t)
    ensures OwnSideKept(me, s, t) && (s.shared.spawned ==> t.shared.spawned)
    ensures s.shared.signal.closed ==> t.shared.signal.closed
  {
    match l
    case Service(_) =>
    case Request(_) =>
    case Response(_) =>
  }

  /** The decoder may take a reply to an authentication request for another type of reply. */
  predicate SameMessage(d: FrontMsg, m: FrontMsg) {
    if m.AuthReply? then d.AuthReply? && d.payload == m.payload else d == m
  }

  ghost predicate Decides(before: seq<Decision>, after: seq<Decision>, t: Turn)
    requires t.Arrives?
  {
    && |after| == |before| + 1 && before <= after
    && SameMessage(after[|before|].msg, t.m) && after[|before|].result == t.result
  }

  /** The first `n` turns of the script, and nothing else, were decided, in their order. */
  ghost predicate Follows(before: seq<Decision>, after: seq<Decision>, script: seq<Turn>, n: nat)
    requires n <= |script|
  {
    && |after| == |before| + n && before <= after
    && forall i | 0 <= i < n ::
         && script[i].Arrives? && SameMessage(after[|before| + i].msg, script[i].m)
         && after[|before| + i].result == script[i].result
  }

  lemma FollowsOneMore(before: seq<Decision>, mid: seq<Decision>, after: seq<Decision>, script: seq<Turn>, n: nat)
    requires n < |script| && script[n].Arrives? && Follows(before, mid, script, n) && Decides(mid, after, script[n])
    ensures Follows(before, after, script, n + 1)
  {
  }

  /** The relay ends after this turn. */
  predicate Ends(t: Turn) {
    t.Arrives? && ApplyHandler(t.m, t.result).Some? && (t.m.Terminate? || !t.forwardOk)
  }

  ghost predicate Hears(before: seq<BackMsg>, after: seq<BackMsg>, t: BackTurn)
    requires t.Comes?
  {
    |after| == |before| + 1 && before <= after && after[|before|] == t.m
  }

  /** The first `n` turns of the backend's script, and nothing else, were heard, in their order. */
  ghost predicate Heard(before: seq<BackMsg>, after: seq<BackMsg>, script: seq<BackTurn>, n: nat)
    requires n <= |script|
  {
    && |after| == |before| + n && before <= after
    && forall i | 0 <= i < n :: script[i].Comes? && after[|before| + i] == script[i].m
  }

  lemma HeardOneMore(before: seq<BackMsg>, mid: seq<BackMsg>, after: seq<BackMsg>, script: seq<BackTurn>, n: nat)
    requires n < |script| && script[n].Comes? && Heard(before, mid, script, n) && Hears(mid, after, script[n])
    ensures Heard(before, after, script, n + 1)
  {
  }

  /** Where it stops: done just behind a turn that ended it or before a read that fails, and otherwise
      waiting for more. */
  ghost predicate HasStopped(pc: RequestPc, script: seq<Turn>, n: nat)
    requires n <= |script|
  {
    && (forall i | 0 <= i < n - 1 :: !Ends(script[i]))
    && if (n > 0 && Ends(script[n - 1])) || (n < |script| && script[n].Breaks?) then pc.RequestDone?
       else n == |script| && pc.Draining?
  }

  /** How far the response relay has come in its script: all turns before the last were relayed. */
  ghost predicate HasCome(pc: ResponsePc, stuck: bool, script: seq<BackTurn>, n: nat)
    requires n <= |script| && forall i | 0 <= i < n :: script[i].Comes?
  {
    && (forall i | 0 <= i < n - 1 :: script[i].relayOk)
    && if stuck then n > 0 && pc.SendingAuth?
       else if n > 0 && !script[n - 1].relayOk then pc.ResponseDone?
       else pc.Listening?
  }

  /** Where it ends: stuck, done, or waiting for more. */
  ghost predicate HasEnded(pc: ResponsePc, stuck: bool, script: seq<BackTurn>, n: nat)
    requires n <= |script| && forall i | 0 <= i < n :: script[i].Comes?
  {
    && (forall i | 0 <= i < n - 1 :: script[i].relayOk)
    && if stuck then n > 0 && pc.SendingAuth?
       else if (n > 0 && !script[n - 1].relayOk) || (n < |script| && script[n].Stops?) then pc.ResponseDone?
       else n == |script| && pc.Listening?
  }

  /** How far the request relay has come in its script: no turn before the last ended it. */
  ghost predicate HasRelayed(pc: RequestPc, script: seq<Turn>, n: nat)
    requires n <= |script|
  {
    && (forall i | 0 <= i < n - 1 :: !Ends(script[i]))
    && if n > 0 && Ends(script[n - 1]) then pc.RequestDone? else pc.Draining?
  }

  /** The steps behind a check that refuses, and behind a backend that cannot be reached: that one
      is counted. */
  function Rejection(writeOk: bool): seq<Label> {
    [Service(SendFatal(writeOk)), Service(ReportService)]
  }

  function FailedDial(writeOk: bool): seq<Label> {
    [Service(Connect(false)), Service(CountConnectError)] + Rejection(writeOk)
  }

  lemma EndsAsDecided(t: Turn, m: FrontMsg)
    requires t.Arrives? && SameMessage(m, t.m)
    ensures var out := ApplyHandler(m, t.result);
            Ends(t) <==> out.Some? && (out.value.Terminate? || !t.forwardOk)
  {
  }

  class Proxy {
    const cfg: Config

    // the service goroutine, and the locals and histories of the relays
    var svc: ServiceSide
    var req: RequestSide
    var resp: ResponseSide

    // what they share
    var spawned: bool
    var lconn: Stream
    var errsig: Signal
    var authTypeCh: AuthPipe
    var lastTxStatus: char
    var registeredKey: Option<CancelKey>

    /** What the scheduler will let the others do at the next points. */
    var schedule: seq<seq<Label>>

    ghost var trace: seq<Label>

    function SharedNow(): Shared
      reads this
    {
      Shared(spawned, lconn, errsig, authTypeCh, lastTxStatus, registeredKey)
    }

    function Now(): Session
      reads this
    {
      Session(svc, req, resp, SharedNow())
    }

    /** The session is where its steps so far have led. */
    ghost predicate Valid()
      reads this
    {
      Run(cfg, trace) == Some(Now())
    }

    /** As `Start` creates it. */
    constructor (cfg: Config, schedule: seq<seq<Label>>)
      ensures Valid() && Now() == FRESH && trace == [] && this.cfg == cfg && this.schedule == schedule
    {
      this.cfg, this.schedule := cfg, schedule;
      svc, req, resp := FRESH_SERVICE, FRESH_REQUEST, FRESH_RESPONSE;
      spawned, lconn, errsig := false, Stream([], false), Signal(false, None, 0, []);
      authTypeCh, lastTxStatus, registeredKey := AuthPipe([], AuthOk, [], 0), 'I', None;
      trace := [];
    }

    // -------------------------------------------------------------- the others' turns

    method Put(s: Session)
      modifies this
      ensures Now() == s && schedule == old(schedule) && trace == old(trace)
    {
      svc, req, resp, spawned := s.svc, s.req, s.resp, s.shared.spawned;
      lconn, errsig, authTypeCh := s.shared.client, s.shared.signal, s.shared.auth;
      lastTxStatus, registeredKey := s.shared.lastTx, s.shared.registered;
    }

    /** A step of some goroutine, if it is enabled. */
    method Take(l: Label)
      requires Valid()
      modifies this
      ensures Valid() && schedule == old(schedule)
      ensures Took(cfg, old(Now()), l, Now())
      ensures trace == old(trace) + if Step(cfg, old(Now()), l).Some? then [l] else []
    {
      var after := Step(cfg, Now(), l);
      if after.Some? {
        Put(after.value);
        RunSnoc(cfg, trace, l, old(Now()));
        trace := trace + [l];
      }
    }

    /** The others take the steps that the scheduler gives them, those that are enabled. */
    method Interfere(me: Who)
      requires Valid() && spawned
      modifies this
      ensures Valid() && spawned && old(trace) <= trace
      ensures OwnSideKept(me, old(Now()), Now()) && (old(errsig).closed ==> errsig.closed)
      ensures old(schedule) == [] ==> schedule == [] && Now() == old(Now())
      ensures old(schedule) != [] ==> schedule == old(schedule)[1..]
    {
      if schedule != [] {
        var batch := schedule[0];
        schedule := schedule[1..];
        for i := 0 to |batch|
          invariant Valid() && spawned && old(trace) <= trace
          invariant OwnSideKept(me, old(Now()), Now()) && (old(errsig).closed ==> errsig.closed)
          invariant schedule == old(schedule)[1..]
        {
          if !Own(me, batch[i]) {
            ghost var before := Now();
            Take(batch[i]);
            OthersLeave(cfg, me, before, batch[i], Now());
          }
        }
      }
    }

    // -------------------------------------------------------------- shared operations

    /** `Proxy.err`: only the first call reports and closes. */
    method Err(kind: ErrKind)
      modifies `errsig
      ensures errsig == CallErr(old(errsig), kind)
      ensures errsig.closed && errsig.report == if old(errsig).closed then old(errsig).report else Some(kind)
    {
      if !errsig.closed {
        errsig := errsig.(closed := true, report := Some(kind), closes := errsig.closes + 1);
      }
      errsig := errsig.(calls := errsig.calls + [kind]);
    }

    /** A lock region that writes one message to the client. */
    method WriteClient(x: ClientOut, ok: bool)
      modifies `lconn
      ensures lconn == Write(old(lconn), x, ok)
    {
      if !ok {
        lconn := lconn.(broken := true);
      } else if !lconn.broken {
        lconn := lconn.(out := lconn.out + [x]);
      }
    }

    // -------------------------------------------------------------- the request relay's actions

    method TakeAuthType()
      requires Valid() && spawned && req.pc.Draining? && authTypeCh.chan != []
      modifies `authTypeCh, `trace
      ensures Valid() && trace == old(trace) + [Request(L.TakeAuth)]
      ensures authTypeCh.chan == old(authTypeCh).chan[1..] && authTypeCh.held == old(authTypeCh).chan[0]
    {
      var ch := authTypeCh;
      authTypeCh := ch.(chan := ch.chan[1..], held := ch.chan[0], taken := ch.taken + 1);
      RequestRuns(cfg, trace, old(Now()), L.TakeAuth, req, SharedNow());
      trace := trace + [Request(L.TakeAuth)];
    }

    method SeeEmpty()
      requires Valid() && spawned && req.pc.Draining? && authTypeCh.chan == []
      modifies `req, `trace
      ensures Valid() && trace == old(trace) + [Request(L.FindEmpty)]
      ensures req == old(req).(pc := Receiving)
    {
      req := req.(pc := Receiving);
      RequestRuns(cfg, trace, old(Now()), L.FindEmpty, req, SharedNow());
      trace := trace + [Request(L.FindEmpty)];
    }

    method Receive(m: FrontMsg)
      requires Valid() && spawned && req.pc.Receiving?
      modifies `req, `trace
      ensures Valid() && trace == old(trace) + [Request(L.Receive(m))]
      ensures var d := Decode(m, authTypeCh.held);
              req == old(req).(pc := Handling(d), received := old(req).received + [d])
    {
      var d := Decode(m, authTypeCh.held);
      req := req.(pc := Handling(d), received := req.received + [d]);
      RequestRuns(cfg, trace, old(Now()), L.Receive(m), req, SharedNow());
      trace := trace + [Request(L.Receive(m))];
    }

    method FailToReceive(kind: ErrKind)
      requires Valid() && spawned && req.pc.Receiving?
      modifies `req, `trace
      ensures Valid() && trace == old(trace) + [Request(L.ReceiveFails(kind))]
      ensures req == old(req).(pc := RequestFailing(kind))
    {
      req := req.(pc := RequestFailing(kind));
      RequestRuns(cfg, trace, old(Now()), L.ReceiveFails(kind), req, SharedNow());
      trace := trace + [Request(L.ReceiveFails(kind))];
    }

    method CallHandler(r: HandlerResult)
      requires Valid() && spawned && req.pc.Handling?
      modifies `req, `trace
      ensures Valid() && trace == old(trace) + [Request(L.Handle(r))]
      ensures var out := ApplyHandler(old(req).pc.m, r);
              req == old(req).(pc := if out.Some? then Forwarding(out.value) else Counting(old(req).pc.m, r.reason),
                               decided := old(req).decided + [Decision(old(req).pc.m, r)])
    {
      var m, out := req.pc.m, ApplyHandler(req.pc.m, r);
      req := req.(decided := req.decided + [Decision(m, r)]);
      if out.Some? {
        req := req.(pc := Forwarding(out.value));
      } else {
        req := req.(pc := Counting(m, r.reason));
      }
      RequestRuns(cfg, trace, old(Now()), L.Handle(r), req, SharedNow());
      trace := trace + [Request(L.Handle(r))];
    }

    method AddBlockedQuery()
      requires Valid() && spawned && req.pc.Counting?
      modifies `req, `trace
      ensures Valid() && trace == old(trace) + [Request(L.CountBlocked)]
      ensures req == old(req).(pc := Refusing(old(req).pc.m, old(req).pc.reason), blocked := old(req).blocked + 1)
    {
      req := req.(pc := Refusing(req.pc.m, req.pc.reason), blocked := req.blocked + 1);
      RequestRuns(cfg, trace, old(Now()), L.CountBlocked, req, SharedNow());
      trace := trace + [Request(L.CountBlocked)];
    }

    method WriteRefusal(ok: bool)
      requires Valid() && spawned && req.pc.Refusing?
      modifies `req, `lconn, `trace
      ensures Valid() && trace == old(trace) + [Request(L.SendRefusal(ok))]
      ensures req == old(req).(pc := if old(req).pc.m.Query? then LoadingStatus else Draining)
      ensures lconn == Write(old(lconn), Refusal(RefusalText(old(req).pc.reason)), ok)
    {
      WriteClient(Refusal(RefusalText(req.pc.reason)), ok);
      req := req.(pc := if req.pc.m.Query? then LoadingStatus else Draining);
      RequestRuns(cfg, trace, old(Now()), L.SendRefusal(ok), req, SharedNow());
      trace := trace + [Request(L.SendRefusal(ok))];
    }

    method LoadTxStatus()
      requires Valid() && spawned && req.pc.LoadingStatus?
      modifies `req, `trace
      ensures Valid() && trace == old(trace) + [Request(L.LoadStatus)]
      ensures req == old(req).(pc := SendingReady(lastTxStatus))
    {
      req := req.(pc := SendingReady(lastTxStatus));
      RequestRuns(cfg, trace, old(Now()), L.LoadStatus, req, SharedNow());
      trace := trace + [Request(L.LoadStatus)];
    }

    method WriteReady(ok: bool)
      requires Valid() && spawned && req.pc.SendingReady?
      modifies `req, `lconn, `trace
      ensures Valid() && trace == old(trace) + [Request(L.SendReady(ok))]
      ensures req == old(req).(pc := Draining) && lconn == Write(old(lconn), SynthReady(old(req).pc.tx), ok)
    {
      WriteClient(SynthReady(req.pc.tx), ok);
      req := req.(pc := Draining);
      RequestRuns(cfg, trace, old(Now()), L.SendReady(ok), req, SharedNow());
      trace := trace + [Request(L.SendReady(ok))];
    }

    method WriteBackend(ok: bool)
      requires Valid() && spawned && req.pc.Forwarding?
      modifies `req, `trace
      ensures Valid() && trace == old(trace) + [Request(L.Forward(ok))]
      ensures var m := old(req).pc.m;
              req == if ok then old(req).(pc := if m.Terminate? then RequestDone else Draining,
                                          toBackend := old(req).toBackend + [m])
                     else old(req).(pc := RequestFailing(BackendWriteFailed), broken := true)
    {
      var m := req.pc.m;
      if ok {
        req := req.(pc := if m.Terminate? then RequestDone else Draining, toBackend := req.toBackend + [m]);
      } else {
        req := req.(pc := RequestFailing(BackendWriteFailed), broken := true);
      }
      RequestRuns(cfg, trace, old(Now()), L.Forward(ok), req, SharedNow());
      trace := trace + [Request(L.Forward(ok))];
    }

    method ReportRequest()
      requires Valid() && spawned && req.pc.RequestFailing?
      modifies `req, `errsig, `trace
      ensures Valid() && trace == old(trace) + [Request(L.ReportRequest)]
      ensures req == old(req).(pc := RequestDone) && errsig == CallErr(old(errsig), old(req).pc.kind)
    {
      Err(req.pc.kind);
      req := req.(pc := RequestDone);
      RequestRuns(cfg, trace, old(Now()), L.ReportRequest, req, SharedNow());
      trace := trace + [Request(L.ReportRequest)];
    }

    // -------------------------------------------------------------- the response relay's actions

    method Hear(m: BackMsg)
      requires Valid() && spawned && resp.pc.Listening?
      modifies `resp, `trace
      ensures Valid() && trace == old(trace) + [Response(L.Hear(m))]
      ensures resp == old(resp).(pc := Classify(m), fromBackend := old(resp).fromBackend + [m])
    {
      resp := resp.(pc := Classify(m), fromBackend := resp.fromBackend + [m]);
      ResponseRuns(cfg, trace, old(Now()), L.Hear(m), resp, SharedNow());
      trace := trace + [Response(L.Hear(m))];
    }

    method FailToHear(kind: ErrKind)
      requires Valid() && spawned && resp.pc.Listening?
      modifies `resp, `trace
      ensures Valid() && trace == old(trace) + [Response(L.HearFails(kind))]
      ensures resp == old(resp).(pc := ResponseFailing(kind))
    {
      resp := resp.(pc := ResponseFailing(kind));
      ResponseRuns(cfg, trace, old(Now()), L.HearFails(kind), resp, SharedNow());
      trace := trace + [Response(L.HearFails(kind))];
    }

    method SendAuthType()
      requires Valid() && spawned && resp.pc.SendingAuth? && |authTypeCh.chan| < AUTH_CHANNEL_CAPACITY
      modifies `resp, `authTypeCh, `trace
      ensures Valid() && trace == old(trace) + [Response(L.SendAuth)]
      ensures resp == old(resp).(pc := Relaying(AuthRequest(old(resp).pc.at)))
      ensures authTypeCh.chan == old(authTypeCh).chan + [old(resp).pc.at] && authTypeCh.held == old(authTypeCh).held
    {
      authTypeCh := authTypeCh.(chan := authTypeCh.chan + [resp.pc.at], sent := authTypeCh.sent + [resp.pc.at]);
      resp := resp.(pc := Relaying(AuthRequest(resp.pc.at)));
      ResponseRuns(cfg, trace, old(Now()), L.SendAuth, resp, SharedNow());
      trace := trace + [Response(L.SendAuth)];
    }

    method StoreInRegistry()
      requires Valid() && spawned && resp.pc.StoringRegistry?
      modifies `resp, `trace
      ensures Valid() && trace == old(trace) + [Response(L.StoreRegistry)]
      ensures resp == old(resp).(pc := StoringKey(old(resp).pc.key), stored := old(resp).stored + [old(resp).pc.key])
    {
      resp := resp.(pc := StoringKey(resp.pc.key), stored := resp.stored + [resp.pc.key]);
      ResponseRuns(cfg, trace, old(Now()), L.StoreRegistry, resp, SharedNow());
      trace := trace + [Response(L.StoreRegistry)];
    }

    method StoreRegisteredKey()
      requires Valid() && spawned && resp.pc.StoringKey?
      modifies `resp, `registeredKey, `trace
      ensures Valid() && trace == old(trace) + [Response(L.StoreKey)]
      ensures resp == old(resp).(pc := Relaying(KeyData(old(resp).pc.key))) && registeredKey == Some(old(resp).pc.key)
    {
      registeredKey := Some(resp.pc.key);
      resp := resp.(pc := Relaying(KeyData(resp.pc.key)));
      ResponseRuns(cfg, trace, old(Now()), L.StoreKey, resp, SharedNow());
      trace := trace + [Response(L.StoreKey)];
    }

    method StoreTxStatus()
      requires Valid() && spawned && resp.pc.StoringStatus?
      modifies `resp, `lastTxStatus, `trace
      ensures Valid() && trace == old(trace) + [Response(L.StoreStatus)]
      ensures resp == old(resp).(pc := Relaying(Ready(old(resp).pc.tx))) && lastTxStatus == old(resp).pc.tx
    {
      lastTxStatus := resp.pc.tx;
      resp := resp.(pc := Relaying(Ready(resp.pc.tx)));
      ResponseRuns(cfg, trace, old(Now()), L.StoreStatus, resp, SharedNow());
      trace := trace + [Response(L.StoreStatus)];
    }

    method WriteRelayed(ok: bool)
      requires Valid() && spawned && resp.pc.Relaying?
      modifies `resp, `lconn, `trace
      ensures Valid() && trace == old(trace) + [Response(L.Relay(ok))]
      ensures resp == old(resp).(pc := if ok then Listening else ResponseFailing(ClientWriteFailed))
      ensures lconn == Write(old(lconn), Relayed(old(resp).pc.m), ok)
    {
      WriteClient(Relayed(resp.pc.m), ok);
      resp := resp.(pc := if ok then Listening else ResponseFailing(ClientWriteFailed));
      ResponseRuns(cfg, trace, old(Now()), L.Relay(ok), resp, SharedNow());
      trace := trace + [Response(L.Relay(ok))];
    }

    method ReportResponse()
      requires Valid() && spawned && resp.pc.ResponseFailing?
      modifies `resp, `errsig, `trace
      ensures Valid() && trace == old(trace) + [Response(L.ReportResponse)]
      ensures resp == old(resp).(pc := ResponseDone) && errsig == CallErr(old(errsig), old(resp).pc.kind)
    {
      Err(resp.pc.kind);
      resp := resp.(pc := ResponseDone);
      ResponseRuns(cfg, trace, old(Now()), L.ReportResponse, resp, SharedNow());
      trace := trace + [Response(L.ReportResponse)];
    }

    // -------------------------------------------------------------- serviceStartup

    /** The checks: database list, user list, configured databases. */
    method CheckStartup()
      requires Valid() && svc.pc.Deciding?
      modifies `svc, `trace
      ensures Valid() && trace == old(trace) + [Service(Decide)]
      ensures svc.pc == Decided(cfg, old(svc).pc.sm)
    {
      var sm := svc.pc.sm;
      var database := Param(sm, "database");
      if !Acl.DatabaseOK(cfg.acl, database) {
        svc := svc.(pc := Rejecting("42501", DatabaseRejected), dialled := None);
      } else if !Acl.UserOK(cfg.acl, Param(sm, "user")) {
        svc := svc.(pc := Rejecting("42501", UserRejected), dialled := None);
      } else if database !in cfg.dbs {
        svc := svc.(pc := Rejecting("3D000", DatabaseUnknown), dialled := None);
      } else {
        svc := svc.(pc := Connecting(cfg.dbs[database]), dialled := Some((sm, cfg.dbs[database])));
      }
      ServiceRuns(cfg, trace, old(Now()), Decide, svc, SharedNow());
      trace := trace + [Service(Decide)];
    }

    method WriteFatal(ok: bool)
      requires Valid() && svc.pc.Rejecting?
      modifies `svc, `trace, `lconn
      ensures Valid() && trace == old(trace) + [Service(SendFatal(ok))]
      ensures svc == old(svc).(pc := ServiceFailing(old(svc).pc.kind))
      ensures lconn == Write(old(lconn), Fatal(old(svc).pc.code), ok)
    {
      WriteClient(Fatal(svc.pc.code), ok);
      svc := svc.(pc := ServiceFailing(svc.pc.kind));
      ServiceRuns(cfg, trace, old(Now()), SendFatal(ok), svc, SharedNow());
      trace := trace + [Service(SendFatal(ok))];
    }

    method ReportFailure()
      requires Valid() && svc.pc.ServiceFailing?
      modifies `svc, `trace, `errsig
      ensures Valid() && trace == old(trace) + [Service(L.ReportService)]
      ensures svc == old(svc).(pc := ClosingClient) && errsig == CallErr(old(errsig), old(svc).pc.kind)
    {
      Err(svc.pc.kind);
      svc := svc.(pc := ClosingClient);
      ServiceRuns(cfg, trace, old(Now()), L.ReportService, svc, SharedNow());
      trace := trace + [Service(L.ReportService)];
    }

    /** Connect to the backend; then the two relays are started. */
    method ConnectBackend(ok: bool)
      requires Valid() && svc.pc.Connecting?
      modifies `svc, `trace, `spawned
      ensures Valid() && trace == old(trace) + [Service(L.Connect(ok))]
      ensures svc == old(svc).(pc := if ok then Waiting else CountingConnectError) && spawned == (old(spawned) || ok)
    {
      if ok {
        spawned := true;
        svc := svc.(pc := Waiting);
      } else {
        svc := svc.(pc := CountingConnectError);
      }
      ServiceRuns(cfg, trace, old(Now()), L.Connect(ok), svc, SharedNow());
      trace := trace + [Service(L.Connect(ok))];
    }

    method AddConnectError()
      requires Valid() && svc.pc.CountingConnectError?
      modifies `svc, `trace
      ensures Valid() && trace == old(trace) + [Service(L.CountConnectError)]
      ensures svc == old(svc).(pc := Rejecting("08006", ConnectFailed))
    {
      svc := svc.(pc := Rejecting("08006", ConnectFailed));
      ServiceRuns(cfg, trace, old(Now()), L.CountConnectError, svc, SharedNow());
      trace := trace + [Service(L.CountConnectError)];
    }

    method PassErrsig()
      requires Valid() && svc.pc.Waiting? && errsig.closed
      modifies `svc, `trace
      ensures Valid() && trace == old(trace) + [Service(L.PassWait)]
      ensures svc == old(svc).(pc := LoadingKey)
    {
      svc := svc.(pc := LoadingKey);
      ServiceRuns(cfg, trace, old(Now()), L.PassWait, svc, SharedNow());
      trace := trace + [Service(L.PassWait)];
    }

    method LoadRegisteredKey()
      requires Valid() && svc.pc.LoadingKey?
      modifies `svc, `trace
      ensures Valid() && trace == old(trace) + [Service(L.LoadKey)]
      ensures svc.loaded == registeredKey
      ensures svc.pc == if registeredKey.Some? then DeletingKey(registeredKey.value) else ClosingBackend
    {
      svc := svc.(loaded := registeredKey);
      if registeredKey.Some? {
        svc := svc.(pc := DeletingKey(registeredKey.value));
      } else {
        svc := svc.(pc := ClosingBackend);
      }
      ServiceRuns(cfg, trace, old(Now()), L.LoadKey, svc, SharedNow());
      trace := trace + [Service(L.LoadKey)];
    }

    /** The delete itself is done to the registry, which all sessions share. */
    method DeleteFromRegistry()
      requires Valid() && svc.pc.DeletingKey?
      modifies `svc, `trace
      ensures Valid() && trace == old(trace) + [Service(L.DeleteKey)]
      ensures svc == old(svc).(pc := ClosingBackend)
    {
      svc := svc.(pc := ClosingBackend);
      ServiceRuns(cfg, trace, old(Now()), L.DeleteKey, svc, SharedNow());
      trace := trace + [Service(L.DeleteKey)];
    }

    /** A fatal error to the client, then the report of it. */
    method Reject(writeOk: bool)
      requires Valid() && svc.pc.Rejecting?
      modifies this
      ensures Valid() && svc.pc.ClosingClient? && spawned == old(spawned)
      ensures trace == old(trace) + Rejection(writeOk)
      ensures lconn == Write(old(lconn), Fatal(old(svc).pc.code), writeOk)
      ensures errsig == CallErr(old(errsig), old(svc).pc.kind)
    {
      WriteFatal(writeOk);
      ReportFailure();
    }

    /** The wait for `errsig`; `waiting` if nobody calls `err`. */
    method AwaitErrsig() returns (waiting: bool)
      requires Valid() && spawned && svc.pc.Waiting?
      modifies this
      ensures Valid() && spawned && old(trace) <= trace && svc == old(svc)
      ensures if waiting then !errsig.closed && schedule == [] else errsig.closed
    {
      while !errsig.closed && schedule != []
        invariant Valid() && spawned && old(trace) <= trace && svc == old(svc)
        decreases |schedule|
      {
        Interfere(Servicer);
      }
      waiting := !errsig.closed;
    }

    /** What comes behind the wait. The relays may still run, and store, between any two of its
        actions: the registry is told to delete a key just when the load found one. */
    method TearDown()
      requires Valid() && spawned && svc.pc.Waiting? && errsig.closed
      modifies this
      ensures Valid() && spawned && old(trace) <= trace && svc.pc.ClosingBackend? && errsig.closed
      ensures trace[|trace|-1] == if svc.loaded.Some? then Service(L.DeleteKey) else Service(L.LoadKey)
    {
      PassErrsig();
      Interfere(Servicer);
      LoadRegisteredKey();
      if svc.pc.DeletingKey? {
        Interfere(Servicer);
        DeleteFromRegistry();
      }
    }

    /** The wait and the teardown. */
    method AwaitError() returns (waiting: bool)
      requires Valid() && spawned && svc.pc.Waiting?
      modifies this
      ensures Valid() && old(trace) <= trace && HasServed(waiting)
      ensures waiting ==> schedule == []
    {
      waiting := AwaitErrsig();
      if !waiting {
        Interfere(Servicer);
        TearDown();
      }
    }

    /** Connect, and run the relays until somebody calls `err`; or count the failure and refuse. */
    method Serve(dialOk: bool, writeOk: bool) returns (waiting: bool)
      requires Valid() && svc.pc.Connecting?
      modifies this
      ensures Valid() && old(trace) <= trace
      ensures !dialOk ==>
                && !waiting && svc.pc.ClosingClient? && spawned == old(spawned)
                && lconn == Write(old(lconn), Fatal("08006"), writeOk) && errsig == CallErr(old(errsig), ConnectFailed)
                && trace == old(trace) + FailedDial(writeOk)
      ensures dialOk ==> HasServed(waiting)
    {
      waiting := false;
      ConnectBackend(dialOk);
      if svc.pc.CountingConnectError? {
        AddConnectError();
        Reject(writeOk);
      } else {
        waiting := AwaitError();
      }
    }

    /** Still waiting, or torn down behind a call of `err`. */
    ghost predicate HasServed(waiting: bool)
      reads this
    {
      && spawned
      && if waiting then svc.pc.Waiting? && !errsig.closed
         else
           && svc.pc.ClosingBackend? && errsig.closed && trace != []
           && trace[|trace|-1] == if svc.loaded.Some? then Service(L.DeleteKey) else Service(L.LoadKey)
    }

    /** `serviceStartup`. The client is refused with the code of the first check that fails, a
        failed connection is counted and refused, or the relays run until somebody calls `err`. */
    method ServiceStartup(dialOk: bool, writeOk: bool) returns (waiting: bool)
      requires Valid() && svc.pc.Deciding?
      modifies this
      ensures Valid() && old(trace) <= trace
      ensures var decided := Decided(cfg, old(svc).pc.sm);
              if decided.Rejecting? then
                && !waiting && svc.pc.ClosingClient? && spawned == old(spawned)
                && lconn == Write(old(lconn), Fatal(decided.code), writeOk)
                && errsig == CallErr(old(errsig), decided.kind)
                && trace == old(trace) + [Service(Decide)] + Rejection(writeOk)
              else if !dialOk then
                && !waiting && svc.pc.ClosingClient? && spawned == old(spawned)
                && lconn == Write(old(lconn), Fatal("08006"), writeOk) && errsig == CallErr(old(errsig), ConnectFailed)
                && trace == old(trace) + [Service(Decide)] + FailedDial(writeOk)
              else HasServed(waiting)
    {
      waiting := false;
      CheckStartup();
      if svc.pc.Rejecting? {
        Reject(writeOk);
      } else {
        waiting := Serve(dialOk, writeOk);
      }
    }

    // -------------------------------------------------------------- handleIncomingConnection

    /** The loop that empties the channel before each message. */
    method DrainAuthTypes()
      requires Valid() && spawned && req.pc.Draining?
      modifies this
      ensures Valid() && spawned && old(trace) <= trace && req == old(req).(pc := Receiving)
      ensures authTypeCh.chan == [] && authTypeCh.held == Decoder.LatestAuth(authTypeCh)
    {
      Interfere(Requester);
      while authTypeCh.chan != []
        invariant Valid() && spawned && old(trace) <= trace && req == old(req)
        decreases |schedule|, |authTypeCh.chan|
      {
        TakeAuthType();
        Interfere(Requester);
      }
      SeeEmpty();
      DrainedHoldsLatest(cfg, trace, Now());
    }

    /** The ReadyForQuery behind a refused Query: the status is loaded before the lock is taken. */
    method ReportStatus(ok: bool)
      requires Valid() && spawned && req.pc.LoadingStatus?
      modifies this
      ensures Valid() && spawned && old(trace) <= trace && req == old(req).(pc := Draining)
    {
      Interfere(Requester);
      LoadTxStatus();
      Interfere(Requester);
      WriteReady(ok);
    }

    /** A refused message: count it, answer it, and, for a Query, report the stored status. */
    method Refuse(errorOk: bool, readyOk: bool)
      requires Valid() && spawned && req.pc.Counting?
      modifies this
      ensures Valid() && spawned && old(trace) <= trace
      ensures req == old(req).(pc := Draining, blocked := old(req).blocked + 1) && Answered(lconn, req.decided)
    {
      var isQuery := req.pc.m.Query?;
      Interfere(Requester);
      AddBlockedQuery();
      Interfere(Requester);
      WriteRefusal(errorOk);
      if isQuery {
        ReportStatus(readyOk);
      }
      DrainingHasAnswered(cfg, trace, Now());
    }

    /** Report why the relay ends. */
    method End()
      requires Valid() && spawned && req.pc.RequestFailing?
      modifies this
      ensures Valid() && spawned && old(trace) <= trace && errsig.closed && req == old(req).(pc := RequestDone)
    {
      Interfere(Requester);
      ReportRequest();
    }

    /** Forward a message that was let through. */
    method Forward(ok: bool)
      requires Valid() && spawned && req.pc.Forwarding?
      modifies this
      ensures Valid() && spawned && old(trace) <= trace && req.decided == old(req).decided
      ensures if old(req).pc.m.Terminate? || !ok then req.pc.RequestDone? else req.pc.Draining?
    {
      Interfere(Requester);
      WriteBackend(ok);
      if req.pc.RequestFailing? {
        End();
      }
    }

    /** Empty the channel and read a message. */
    method Fetch(m: FrontMsg)
      requires Valid() && spawned && req.pc.Draining?
      modifies this
      ensures Valid() && spawned && old(trace) <= trace && req.decided == old(req).decided
      ensures req.pc.Handling? && SameMessage(req.pc.m, m) && (req.pc.m.Terminate? <==> m.Terminate?)
    {
      DrainAuthTypes();
      Interfere(Requester);
      Receive(m);
    }

    /** Answer a message that was decided, or pass it on. */
    method Dispose(t: Turn)
      requires Valid() && spawned && (req.pc.Counting? || req.pc.Forwarding?) && t.Arrives?
      modifies this
      ensures Valid() && spawned && old(trace) <= trace && req.decided == old(req).decided
      ensures if old(req).pc.Forwarding? && (old(req).pc.m.Terminate? || !t.forwardOk) then req.pc.RequestDone?
              else req.pc.Draining?
    {
      if req.pc.Counting? {
        Refuse(t.errorOk, t.readyOk);
      } else {
        Forward(t.forwardOk);
      }
    }

    /** One turn of the loop that gets a message. */
    method RelayOne(t: Turn)
      requires Valid() && spawned && req.pc.Draining? && t.Arrives?
      modifies this
      ensures Valid() && spawned && old(trace) <= trace
      ensures Decides(old(req).decided, req.decided, t)
      ensures if Ends(t) then req.pc.RequestDone? else req.pc.Draining?
    {
      Fetch(t.m);
      Interfere(Requester);
      EndsAsDecided(t, req.pc.m);
      CallHandler(t.result);
      Dispose(t);
    }

    /** The last turn: a read that fails. */
    method Abandon(kind: ErrKind)
      requires Valid() && spawned && req.pc.Draining?
      modifies this
      ensures Valid() && spawned && old(trace) <= trace && req.decided == old(req).decided
      ensures req.pc.RequestDone? && errsig.closed
    {
      DrainAuthTypes();
      Interfere(Requester);
      FailToReceive(kind);
      End();
    }

    /** The turns that get a message, up to the first that ends the loop. */
    method RelayAll(script: seq<Turn>) returns (n: nat)
      requires Valid() && spawned && req.pc.Draining?
      modifies this
      ensures Valid() && spawned && old(trace) <= trace
      ensures n <= |script| && Follows(old(req).decided, req.decided, script, n) && HasRelayed(req.pc, script, n)
      ensures n == |script| || script[n].Breaks? || req.pc.RequestDone?
    {
      n := 0;
      ghost var before := req.decided;
      while n < |script| && script[n].Arrives? && !req.pc.RequestDone?
        invariant Valid() && spawned && old(trace) <= trace
        invariant n <= |script| && Follows(before, req.decided, script, n)
        invariant HasRelayed(req.pc, script, n)
        decreases |script| - n
      {
        ghost var mid := req.decided;
        RelayOne(script[n]);
        FollowsOneMore(before, mid, req.decided, script, n);
        n := n + 1;
      }
    }

    /** `handleIncomingConnection`. Whatever the others do in between, the messages are handled in
        the order in which they arrive, up to the first that cannot be read, cannot be forwarded,
        or is a forwarded Terminate. */
    method HandleIncomingConnection(script: seq<Turn>) returns (n: nat)
      requires Valid() && spawned && req.pc.Draining?
      modifies this
      ensures Valid() && old(trace) <= trace
      ensures n <= |script| && Follows(old(req).decided, req.decided, script, n)
      ensures HasStopped(req.pc, script, n)
      ensures SessionStreams.StreamInv(Now())
    {
      n := RelayAll(script);
      if n < |script| && !req.pc.RequestDone? {
        Abandon(script[n].kind);
      }
      StreamsHold(cfg, trace, Now());
    }

    // -------------------------------------------------------------- handleResponseConnection

    /** The channel send blocks until there is room; `stuck` if nobody makes any. */
    method AwaitRoom() returns (stuck: bool)
      requires Valid() && spawned
      modifies this
      ensures Valid() && spawned && old(trace) <= trace && resp == old(resp)
      ensures if stuck then |authTypeCh.chan| >= AUTH_CHANNEL_CAPACITY && schedule == []
              else |authTypeCh.chan| < AUTH_CHANNEL_CAPACITY
    {
      while |authTypeCh.chan| >= AUTH_CHANNEL_CAPACITY && schedule != []
        invariant Valid() && spawned && old(trace) <= trace && resp == old(resp)
        decreases |schedule|
      {
        Interfere(Responder);
      }
      stuck := |authTypeCh.chan| >= AUTH_CHANNEL_CAPACITY;
    }

    /** The switch on a message of the backend; `stuck` when the channel is full and stays so. */
    method Observe(m: BackMsg) returns (stuck: bool)
      requires Valid() && spawned && resp.pc == Classify(m)
      modifies this
      ensures Valid() && spawned && old(trace) <= trace && resp.fromBackend == old(resp).fromBackend
      ensures stuck ==> m.AuthRequest? && |authTypeCh.chan| >= AUTH_CHANNEL_CAPACITY && schedule == []
      ensures resp.pc == if stuck then SendingAuth(m.at) else Relaying(m)
    {
      stuck := false;
      Interfere(Responder);
      match m {
        case AuthRequest(at) =>
          if !at.AuthOk? {
            stuck := AwaitRoom();
            if !stuck {
              SendAuthType();
            }
          }
        case KeyData(_) =>
          StoreInRegistry();
          Interfere(Responder);
          StoreRegisteredKey();
        case Ready(_) => StoreTxStatus();
        case OtherBack(_) =>
      }
    }

    /** Relay a message to the client; the relay ends if that fails. */
    method RelayBack(ok: bool)
      requires Valid() && spawned && resp.pc.Relaying?
      modifies this
      ensures Valid() && spawned && old(trace) <= trace && resp.fromBackend == old(resp).fromBackend
      ensures if ok then resp.pc.Listening? else resp.pc.ResponseDone? && errsig.closed
    {
      Interfere(Responder);
      WriteRelayed(ok);
      if resp.pc.ResponseFailing? {
        Interfere(Responder);
        ReportResponse();
      }
    }

    /** One turn of the loop that gets a message. */
    method HearOne(t: BackTurn) returns (stuck: bool)
      requires Valid() && spawned && resp.pc.Listening? && t.Comes?
      modifies this
      ensures Valid() && spawned && old(trace) <= trace && Hears(old(resp).fromBackend, resp.fromBackend, t)
      ensures if stuck then resp.pc.SendingAuth? && |authTypeCh.chan| >= AUTH_CHANNEL_CAPACITY && schedule == []
              else if t.relayOk then resp.pc.Listening? else resp.pc.ResponseDone?
    {
      Interfere(Responder);
      Hear(t.m);
      stuck := Observe(t.m);
      if !stuck {
        RelayBack(t.relayOk);
      }
    }

    /** The last turn: a read that fails. */
    method StopHearing(kind: ErrKind)
      requires Valid() && spawned && resp.pc.Listening?
      modifies this
      ensures Valid() && spawned && old(trace) <= trace && resp.fromBackend == old(resp).fromBackend
      ensures resp.pc.ResponseDone? && errsig.closed
    {
      Interfere(Responder);
      FailToHear(kind);
      Interfere(Responder);
      ReportResponse();
    }

    /** `handleResponseConnection`. Whatever the others do in between, the backend's messages are
        heard in order, each observed before it is relayed, up to the first that cannot be read or
        relayed, or for which nobody makes room in the channel. */
    method HandleResponseConnection(script: seq<BackTurn>) returns (n: nat, stuck: bool)
      requires Valid() && spawned && resp.pc.Listening?
      modifies this
      ensures Valid() && old(trace) <= trace
      ensures n <= |script| && Heard(old(resp).fromBackend, resp.fromBackend, script, n)
      ensures HasEnded(resp.pc, stuck, script, n)
      ensures stuck ==> |authTypeCh.chan| >= AUTH_CHANNEL_CAPACITY && schedule == []
      ensures SessionStreams.StreamInv(Now())
    {
      n, stuck := 0, false;
      ghost var before := resp.fromBackend;
      while n < |script| && script[n].Comes? && resp.pc.Listening?
        invariant Valid() && spawned && old(trace) <= trace
        invariant n <= |script| && Heard(before, resp.fromBackend, script, n)
        invariant HasCome(resp.pc, stuck, script, n)
        invariant stuck ==> |authTypeCh.chan| >= AUTH_CHANNEL_CAPACITY && schedule == []
        decreases |script| - n
      {
        ghost var mid := resp.fromBackend;
        stuck := HearOne(script[n]);
        HeardOneMore(before, mid, resp.fromBackend, script, n);
        n := n + 1;
      }
      if n < |script| && resp.pc.Listening? {
        StopHearing(script[n].kind);
      }
      StreamsHold(cfg, trace, Now());
    }
  }
}
