/** ReadyForQuery and its transaction status. For a lock-step client the proxy's own
    ReadyForQuery keeps the count exact and the status truthful (sections 55.2.2 and 55.2.3 of the
    PostgreSQL 16 documentation). */
module SessionStatus {
  import opened Basics
  import opened Session

  // ---------------------------------------------------------------- counting

  /** A message that the backend answers with one ReadyForQuery. */
  predicate IsSyncPoint(m: FrontMsg) {
    m.Query? || m.Sync? || m.FunctionCall?
  }

  function SyncPoints(ms: seq<FrontMsg>): nat {
    if ms == [] then 0 else SyncPoints(ms[..|ms|-1]) + One(IsSyncPoint(ms[|ms|-1]))
  }

  function BackReadies(ms: seq<BackMsg>): nat {
    if ms == [] then 0 else BackReadies(ms[..|ms|-1]) + One(ms[|ms|-1].Ready?)
  }

  predicate IsRelayedReady(x: ClientOut) {
    x.Relayed? && x.m.Ready?
  }

  function RelayedReadies(out: seq<ClientOut>): nat {
    if out == [] then 0 else RelayedReadies(out[..|out|-1]) + One(IsRelayedReady(out[|out|-1]))
  }

  function SynthReadies(out: seq<ClientOut>): nat {
    if out == [] then 0 else SynthReadies(out[..|out|-1]) + One(out[|out|-1].SynthReady?)
  }

  /** Every ReadyForQuery the client was sent, the backend's and the proxy's. */
  function Readies(out: seq<ClientOut>): nat {
    RelayedReadies(out) + SynthReadies(out)
  }

  predicate IsRefusedQuery(d: Decision) {
    d.msg.Query? && d.result.Refused?
  }

  function RefusedQueries(ds: seq<Decision>): nat {
    if ds == [] then 0 else RefusedQueries(ds[..|ds|-1]) + One(IsRefusedQuery(ds[|ds|-1]))
  }

  /** The status of the last real ReadyForQuery in the stream; 'I' if there is none. */
  function LastReal(out: seq<ClientOut>): char {
    if out == [] then 'I'
    else if IsRelayedReady(out[|out|-1]) then out[|out|-1].m.tx
    else LastReal(out[..|out|-1])
  }

  /** Each of the proxy's own carries the status of the last real one before it. */
  ghost predicate Truthful(out: seq<ClientOut>) {
    out != [] ==>
      && Truthful(out[..|out|-1])
      && (out[|out|-1].SynthReady? ==> out[|out|-1].tx == LastReal(out[..|out|-1]))
  }

  lemma {:induction false} TruthfulEverywhere(out: seq<ClientOut>, i: nat)
    requires Truthful(out) && i < |out| && out[i].SynthReady?
    ensures out[i].tx == LastReal(out[..i])
  {
    if i < |out| - 1 {
      TruthfulEverywhere(out[..|out|-1], i);
      assert out[..|out|-1][..i] == out[..i];
    }
  }

  // ---------------------------------------------------------------- lock-step

  /** The client sends no new sync point before the ReadyForQuery for the one before it (and the
      one at start-up); the backend sends one ReadyForQuery at start-up and one per sync point. */
  ghost predicate LockStep(s: Session, l: Label) {
    && (l.Request? && l.q.Receive? && IsSyncPoint(l.q.m) ==>
          Readies(s.shared.client.out) >= 1 + SyncPoints(s.req.received))
    && (l.Response? && l.p.Hear? && l.p.m.Ready? ==>
          BackReadies(s.resp.fromBackend) < 1 + SyncPoints(s.req.toBackend))
  }

  ghost predicate LockStepRun(cfg: Config, ls: seq<Label>) {
    ls != [] ==>
      && LockStepRun(cfg, ls[..|ls|-1])
      && (Run(cfg, ls[..|ls|-1]).Some? ==> LockStep(Run(cfg, ls[..|ls|-1]).value, ls[|ls|-1]))
  }

  // ---------------------------------------------------------------- what is under way

  predicate HoldsReady(pc: ResponsePc) {
    pc.StoringStatus? || (pc.Relaying? && pc.m.Ready?)
  }

  predicate OwesReady(pc: RequestPc) {
    || (pc.Counting? && pc.m.Query?) || (pc.Refusing? && pc.m.Query?)
    || pc.LoadingStatus? || pc.SendingReady?
  }

  predicate HoldsSyncPoint(pc: RequestPc) {
    (pc.Handling? || pc.Forwarding?) && IsSyncPoint(pc.m)
  }

  ghost predicate RelayCount(p: ResponseSide, client: Stream) {
    && RelayedReadies(client.out) + One(HoldsReady(p.pc)) <= BackReadies(p.fromBackend)
    && (!client.broken ==> RelayedReadies(client.out) + One(HoldsReady(p.pc)) == BackReadies(p.fromBackend))
  }

  ghost predicate SynthCount(q: RequestSide, client: Stream) {
    && SynthReadies(client.out) + One(OwesReady(q.pc)) <= RefusedQueries(q.decided)
    && (!client.broken ==> SynthReadies(client.out) + One(OwesReady(q.pc)) == RefusedQueries(q.decided))
  }

  /** Every sync point received was forwarded, refused or is held; some are lost behind a write
      that failed. */
  ghost predicate Balance(received: nat, forwarded: nat, refused: nat, held: bool, broken: bool) {
    if broken then received >= forwarded + refused + One(held) else received == forwarded + refused + One(held)
  }

  ghost predicate RequestCount(q: RequestSide) {
    && Balance(SyncPoints(q.received), SyncPoints(q.toBackend), RefusedQueries(q.decided),
               HoldsSyncPoint(q.pc), q.broken)
    && (q.broken ==> q.pc.RequestFailing? || q.pc.RequestDone?)
  }

  /** While a sync point is being handled, the backend has answered all it was sent, and the
      answer has been relayed. */
  ghost predicate Settled(q: RequestSide, p: ResponseSide) {
    && BackReadies(p.fromBackend) <= 1 + SyncPoints(q.toBackend)
    && (HoldsSyncPoint(q.pc) || OwesReady(q.pc) ==>
          BackReadies(p.fromBackend) == 1 + SyncPoints(q.toBackend) && !HoldsReady(p.pc))
  }

  ghost predicate StatusInv(q: RequestSide, p: ResponseSide, sh: Shared) {
    && (q.pc.SendingReady? ==> q.pc.tx == sh.lastTx)
    && (p.pc.Relaying? && p.pc.m.Ready? ==> sh.lastTx == p.pc.m.tx)
    && (!sh.client.broken && !(p.pc.Relaying? && p.pc.m.Ready?) ==> sh.lastTx == LastReal(sh.client.out))
    && Truthful(sh.client.out)
  }

  ghost predicate LockInv(s: Session) {
    && RelayCount(s.resp, s.shared.client)
    && SynthCount(s.req, s.shared.client)
    && RequestCount(s.req)
    && Settled(s.req, s.resp)
    && StatusInv(s.req, s.resp, s.shared)
  }

  // ---------------------------------------------------------------- one step

  lemma OutSnoc(out: seq<ClientOut>, x: ClientOut)
    ensures RelayedReadies(out + [x]) == RelayedReadies(out) + One(IsRelayedReady(x))
    ensures SynthReadies(out + [x]) == SynthReadies(out) + One(x.SynthReady?)
    ensures LastReal(out + [x]) == if IsRelayedReady(x) then x.m.tx else LastReal(out)
    ensures Truthful(out + [x]) <==> Truthful(out) && (x.SynthReady? ==> x.tx == LastReal(out))
  {
    assert (out + [x])[..|out|] == out;
  }

  lemma FrontSnoc(ms: seq<FrontMsg>, m: FrontMsg)
    ensures SyncPoints(ms + [m]) == SyncPoints(ms) + One(IsSyncPoint(m))
  {
    assert (ms + [m])[..|ms|] == ms;
  }

  lemma BackSnoc(ms: seq<BackMsg>, m: BackMsg)
    ensures BackReadies(ms + [m]) == BackReadies(ms) + One(m.Ready?)
  {
    assert (ms + [m])[..|ms|] == ms;
  }

  lemma DecisionSnoc(ds: seq<Decision>, d: Decision)
    ensures RefusedQueries(ds + [d]) == RefusedQueries(ds) + One(IsRefusedQuery(d))
  {
    assert (ds + [d])[..|ds|] == ds;
  }

  function AfterHandling(m: FrontMsg, r: HandlerResult): RequestPc {
    match ApplyHandler(m, r)
    case Some(out) => Forwarding(out)
    case None => Counting(m, r.reason)
  }

  lemma HandleStep(q: RequestSide, sh: Shared, r: HandlerResult)
    requires q.pc.Handling? && sh.spawned
    ensures RequestStep(q, sh, Handle(r)) ==
            Some(After(q.(pc := AfterHandling(q.pc.m, r), decided := q.decided + [Decision(q.pc.m, r)]), sh))
  {
  }

  /** A decision moves a sync point from being held to being forwarded or refused. */
  lemma HandleCounts(m: FrontMsg, r: HandlerResult, ds: seq<Decision>)
    ensures var pc, after := AfterHandling(m, r), ds + [Decision(m, r)];
            && One(HoldsSyncPoint(pc)) + RefusedQueries(after) == One(IsSyncPoint(m)) + RefusedQueries(ds)
            && One(OwesReady(pc)) + RefusedQueries(ds) == RefusedQueries(after)
  {
    DecisionSnoc(ds, Decision(m, r));
    HandlerKeepsSyncPoint(m, r);
  }

  lemma HandlerKeepsSyncPoint(m: FrontMsg, r: HandlerResult)
    ensures match ApplyHandler(m, r)
            case Some(out) => IsSyncPoint(out) == IsSyncPoint(m) && !IsRefusedQuery(Decision(m, r))
            case None => IsSyncPoint(m) == m.Query? == IsRefusedQuery(Decision(m, r))
  {
  }

  lemma OtherStepsDecideNothing(q: RequestSide, sh: Shared, l: RequestLabel)
    requires RequestStep(q, sh, l).Some? && !l.Handle? && !l.Receive? && !l.Forward?
    ensures var a := RequestStep(q, sh, l).value.side;
            && a.decided == q.decided && a.received == q.received && a.toBackend == q.toBackend && a.broken == q.broken
            && HoldsSyncPoint(a.pc) == HoldsSyncPoint(q.pc)
            && (q.pc.RequestFailing? || q.pc.RequestDone? ==> a.pc.RequestDone?)
  {
  }

  lemma ReceiveStep(q: RequestSide, sh: Shared, m: FrontMsg)
    requires q.pc.Receiving? && sh.spawned
    ensures var d := Decode(m, sh.auth.held);
            RequestStep(q, sh, Receive(m)) == Some(After(q.(pc := Handling(d), received := q.received + [d]), sh))
  {
  }

  lemma ReceiptCounts(q: RequestSide, d: FrontMsg)
    requires RequestCount(q) && q.pc.Receiving?
    ensures RequestCount(q.(pc := Handling(d), received := q.received + [d]))
  {
    FrontSnoc(q.received, d);
  }

  lemma ForwardCounts(q: RequestSide, ok: bool, t: RequestSide)
    requires RequestCount(q) && q.pc.Forwarding?
    requires t.toBackend == if ok then q.toBackend + [q.pc.m] else q.toBackend
    requires t.received == q.received && t.decided == q.decided && t.broken == (q.broken || !ok)
    requires !HoldsSyncPoint(t.pc) && (!ok ==> t.pc.RequestFailing?)
    ensures RequestCount(t)
  {
    FrontSnoc(q.toBackend, q.pc.m);
  }

  lemma RequestKeepsRequestCount(q: RequestSide, sh: Shared, l: RequestLabel)
    requires RequestCount(q) && RequestStep(q, sh, l).Some?
    ensures RequestCount(RequestStep(q, sh, l).value.side)
  {
    if l.Receive? {
      ReceiveStep(q, sh, l.m);
      ReceiptCounts(q, Decode(l.m, sh.auth.held));
    } else if l.Handle? {
      HandleStep(q, sh, l.r);
      HandleCounts(q.pc.m, l.r, q.decided);
    } else if l.Forward? {
      ForwardStep(q, sh, l.ok);
      ForwardCounts(q, l.ok, RequestStep(q, sh, l).value.side);
    } else {
      OtherStepsDecideNothing(q, sh, l);
    }
  }

  lemma QuietStepsOweTheSame(q: RequestSide, sh: Shared, l: RequestLabel)
    requires RequestStep(q, sh, l).Some? && !l.Handle? && !l.SendRefusal? && !l.SendReady?
    ensures var a := RequestStep(q, sh, l).value;
            a.shared.client == sh.client && a.side.decided == q.decided && OwesReady(a.side.pc) == OwesReady(q.pc)
  {
  }

  lemma RefusalKeepsSynthCount(q: RequestSide, sh: Shared, ok: bool)
    requires SynthCount(q, sh.client) && RequestStep(q, sh, SendRefusal(ok)).Some?
    ensures var a := RequestStep(q, sh, SendRefusal(ok)).value; SynthCount(a.side, a.shared.client)
  {
    var a, x := RequestStep(q, sh, SendRefusal(ok)).value, Refusal(RefusalText(q.pc.reason));
    OutSnoc(sh.client.out, x);
    assert a.shared.client == Write(sh.client, x, ok) && a.side.decided == q.decided;
    assert OwesReady(a.side.pc) == OwesReady(q.pc);
  }

  lemma ReadyKeepsSynthCount(q: RequestSide, sh: Shared, ok: bool)
    requires SynthCount(q, sh.client) && RequestStep(q, sh, SendReady(ok)).Some?
    ensures var a := RequestStep(q, sh, SendReady(ok)).value; SynthCount(a.side, a.shared.client)
  {
    var a, x := RequestStep(q, sh, SendReady(ok)).value, SynthReady(q.pc.tx);
    OutSnoc(sh.client.out, x);
    assert a.shared.client == Write(sh.client, x, ok) && a.side.decided == q.decided;
    assert OwesReady(q.pc) && !OwesReady(a.side.pc);
  }

  lemma HandleKeepsSynthCount(q: RequestSide, sh: Shared, r: HandlerResult)
    requires SynthCount(q, sh.client) && RequestStep(q, sh, Handle(r)).Some?
    ensures var a := RequestStep(q, sh, Handle(r)).value; SynthCount(a.side, a.shared.client)
  {
    HandleStep(q, sh, r);
    HandleCounts(q.pc.m, r, q.decided);
  }

  lemma RequestKeepsSynthCount(q: RequestSide, sh: Shared, l: RequestLabel)
    requires SynthCount(q, sh.client) && RequestStep(q, sh, l).Some?
    ensures var a := RequestStep(q, sh, l).value; SynthCount(a.side, a.shared.client)
  {
    if l.Handle? {
      HandleKeepsSynthCount(q, sh, l.r);
    } else if l.SendRefusal? {
      RefusalKeepsSynthCount(q, sh, l.ok);
    } else if l.SendReady? {
      ReadyKeepsSynthCount(q, sh, l.ok);
    } else {
      QuietStepsOweTheSame(q, sh, l);
    }
  }

  lemma RequestKeepsRelayCount(q: RequestSide, sh: Shared, l: RequestLabel, p: ResponseSide)
    requires RelayCount(p, sh.client) && RequestStep(q, sh, l).Some?
    ensures RelayCount(p, RequestStep(q, sh, l).value.shared.client)
  {
    match l
    case SendRefusal(_) => OutSnoc(sh.client.out, Refusal(RefusalText(q.pc.reason)));
    case SendReady(_) => OutSnoc(sh.client.out, SynthReady(q.pc.tx));
    case _ =>
  }

  /** A lock-step client sends its next sync point only when all before it is settled. */
  lemma SettledOnReceive(s: Session, m: FrontMsg)
    requires LockInv(s) && s.req.pc.Receiving? && IsSyncPoint(m)
    requires Readies(s.shared.client.out) >= 1 + SyncPoints(s.req.received)
    ensures BackReadies(s.resp.fromBackend) == 1 + SyncPoints(s.req.toBackend) && !HoldsReady(s.resp.pc)
  {
  }

  /** What the steps do to a sync point under way; only a Receive can bring one. */
  lemma SyncPointUnderWay(q: RequestSide, sh: Shared, l: RequestLabel)
    requires RequestStep(q, sh, l).Some? && !l.Forward?
    ensures var t := RequestStep(q, sh, l).value.side;
            && t.toBackend == q.toBackend
            && (HoldsSyncPoint(t.pc) || OwesReady(t.pc) ==>
                  HoldsSyncPoint(q.pc) || OwesReady(q.pc) || (l.Receive? && IsSyncPoint(l.m)))
  {
    if l.Handle? {
      HandlerKeepsSyncPoint(q.pc.m, l.r);
    }
  }

  lemma ForwardStep(q: RequestSide, sh: Shared, ok: bool)
    requires RequestStep(q, sh, Forward(ok)).Some?
    ensures var t := RequestStep(q, sh, Forward(ok)).value.side;
            && t.toBackend == (if ok then q.toBackend + [q.pc.m] else q.toBackend)
            && t.received == q.received && t.decided == q.decided && t.broken == (q.broken || !ok)
            && !HoldsSyncPoint(t.pc) && !OwesReady(t.pc) && (!ok ==> t.pc.RequestFailing?)
            && q.pc.Forwarding? && HoldsSyncPoint(q.pc) == IsSyncPoint(q.pc.m)
  {
  }

  lemma ForwardSettles(q: RequestSide, ok: bool, p: ResponseSide, t: RequestSide)
    requires Settled(q, p) && q.pc.Forwarding?
    requires t.toBackend == if ok then q.toBackend + [q.pc.m] else q.toBackend
    requires !HoldsSyncPoint(t.pc) && !OwesReady(t.pc)
    ensures Settled(t, p)
  {
    FrontSnoc(q.toBackend, q.pc.m);
  }

  lemma RequestKeepsSettled(q: RequestSide, sh: Shared, l: RequestLabel, p: ResponseSide)
    requires Settled(q, p) && RequestStep(q, sh, l).Some?
    requires l.Receive? && IsSyncPoint(l.m) ==>
               BackReadies(p.fromBackend) == 1 + SyncPoints(q.toBackend) && !HoldsReady(p.pc)
    ensures Settled(RequestStep(q, sh, l).value.side, p)
  {
    if l.Forward? {
      ForwardStep(q, sh, l.ok);
      ForwardSettles(q, l.ok, p, RequestStep(q, sh, l).value.side);
    } else {
      SyncPointUnderWay(q, sh, l);
    }
  }

  lemma RequestKeepsStatus(q: RequestSide, p: ResponseSide, sh: Shared, l: RequestLabel)
    requires StatusInv(q, p, sh) && Settled(q, p) && RequestStep(q, sh, l).Some?
    ensures var a := RequestStep(q, sh, l).value; StatusInv(a.side, p, a.shared)
  {
    match l
    case SendRefusal(_) => OutSnoc(sh.client.out, Refusal(RefusalText(q.pc.reason)));
    case SendReady(_) => OutSnoc(sh.client.out, SynthReady(q.pc.tx));
    case _ =>
  }

  lemma HearKeepsRelayCount(p: ResponseSide, sh: Shared, m: BackMsg)
    requires RelayCount(p, sh.client) && ResponseStep(p, sh, Hear(m)).Some?
    ensures var a := ResponseStep(p, sh, Hear(m)).value; RelayCount(a.side, a.shared.client)
  {
    var a := ResponseStep(p, sh, Hear(m)).value;
    BackSnoc(p.fromBackend, m);
    assert a.shared == sh && a.side.fromBackend == p.fromBackend + [m];
    assert !HoldsReady(p.pc) && HoldsReady(a.side.pc) == m.Ready?;
  }

  lemma RelayKeepsRelayCount(p: ResponseSide, sh: Shared, ok: bool)
    requires RelayCount(p, sh.client) && ResponseStep(p, sh, Relay(ok)).Some?
    ensures var a := ResponseStep(p, sh, Relay(ok)).value; RelayCount(a.side, a.shared.client)
  {
    var a, x := ResponseStep(p, sh, Relay(ok)).value, Relayed(p.pc.m);
    OutSnoc(sh.client.out, x);
    assert a.shared.client == Write(sh.client, x, ok) && a.side.fromBackend == p.fromBackend;
    assert HoldsReady(p.pc) == IsRelayedReady(x) && !HoldsReady(a.side.pc);
  }

  lemma ResponseKeepsRelayCount(p: ResponseSide, sh: Shared, l: ResponseLabel)
    requires RelayCount(p, sh.client) && ResponseStep(p, sh, l).Some?
    ensures var a := ResponseStep(p, sh, l).value; RelayCount(a.side, a.shared.client)
  {
    match l
    case Hear(m) => HearKeepsRelayCount(p, sh, m);
    case Relay(ok) => RelayKeepsRelayCount(p, sh, ok);
    case _ =>
  }

  lemma ResponseKeepsSynthCount(p: ResponseSide, sh: Shared, l: ResponseLabel, q: RequestSide)
    requires SynthCount(q, sh.client) && ResponseStep(p, sh, l).Some?
    ensures SynthCount(q, ResponseStep(p, sh, l).value.shared.client)
  {
    if l.Relay? {
      OutSnoc(sh.client.out, Relayed(p.pc.m));
    }
  }

  lemma ResponseKeepsSettled(q: RequestSide, p: ResponseSide, sh: Shared, l: ResponseLabel)
    requires Settled(q, p) && ResponseStep(p, sh, l).Some?
    requires l.Hear? && l.m.Ready? ==> BackReadies(p.fromBackend) < 1 + SyncPoints(q.toBackend)
    ensures Settled(q, ResponseStep(p, sh, l).value.side)
  {
    if l.Hear? {
      BackSnoc(p.fromBackend, l.m);
    }
  }

  lemma ResponseKeepsStatus(q: RequestSide, p: ResponseSide, sh: Shared, l: ResponseLabel)
    requires StatusInv(q, p, sh) && Settled(q, p) && ResponseStep(p, sh, l).Some?
    ensures var a := ResponseStep(p, sh, l).value; StatusInv(q, a.side, a.shared)
  {
    if l.Relay? {
      OutSnoc(sh.client.out, Relayed(p.pc.m));
    }
  }

  /** Something written to the client that is no ReadyForQuery. */
  lemma PlainWriteKeepsLock(s: Session, x: ClientOut, ok: bool)
    requires LockInv(s) && !IsRelayedReady(x) && !x.SynthReady?
    ensures LockInv(s.(shared := s.shared.(client := Write(s.shared.client, x, ok))))
  {
    OutSnoc(s.shared.client.out, x);
  }

  /** The service goroutine writes nothing else, and leaves the status alone. */
  lemma ServiceWrites(cfg: Config, v: ServiceSide, sh: Shared, l: ServiceLabel)
    requires ServiceStep(cfg, v, sh, l).Some?
    ensures var after := ServiceStep(cfg, v, sh, l).value.shared;
            && after.lastTx == sh.lastTx
            && after.client == match l
                               case Negotiate(c, ok) => Write(sh.client, Negotiation(c), ok)
                               case SendFatal(ok) => Write(sh.client, Fatal(v.pc.code), ok)
                               case _ => sh.client
  {
  }

  lemma LockIgnoresRest(s: Session, t: Session)
    requires LockInv(s) && t.req == s.req && t.resp == s.resp
    requires t.shared.client == s.shared.client && t.shared.lastTx == s.shared.lastTx
    ensures LockInv(t)
  {
  }

  lemma ServiceKeepsLock(cfg: Config, s: Session, l: ServiceLabel)
    requires LockInv(s) && Step(cfg, s, Service(l)).Some?
    ensures LockInv(Step(cfg, s, Service(l)).value)
  {
    ServiceWrites(cfg, s.svc, s.shared, l);
    var t := Step(cfg, s, Service(l)).value;
    match l
    case Negotiate(c, ok) =>
      PlainWriteKeepsLock(s, Negotiation(c), ok);
      LockIgnoresRest(s.(shared := s.shared.(client := Write(s.shared.client, Negotiation(c), ok))), t);
    case SendFatal(ok) =>
      PlainWriteKeepsLock(s, Fatal(s.svc.pc.code), ok);
      LockIgnoresRest(s.(shared := s.shared.(client := Write(s.shared.client, Fatal(s.svc.pc.code), ok))), t);
    case _ => LockIgnoresRest(s, t);
  }

  lemma StepKeepsLock(cfg: Config, s: Session, l: Label)
    requires LockInv(s) && LockStep(s, l) && Step(cfg, s, l).Some?
    ensures LockInv(Step(cfg, s, l).value)
  {
    match l
    case Service(x) => ServiceKeepsLock(cfg, s, x);
    case Request(x) =>
      RequestKeepsRequestCount(s.req, s.shared, x);
      RequestKeepsSynthCount(s.req, s.shared, x);
      RequestKeepsRelayCount(s.req, s.shared, x, s.resp);
      if x.Receive? && IsSyncPoint(x.m) {
        SettledOnReceive(s, x.m);
      }
      RequestKeepsSettled(s.req, s.shared, x, s.resp);
      RequestKeepsStatus(s.req, s.resp, s.shared, x);
    case Response(x) =>
      ResponseKeepsRelayCount(s.resp, s.shared, x);
      ResponseKeepsSynthCount(s.resp, s.shared, x, s.req);
      ResponseKeepsSettled(s.req, s.resp, s.shared, x);
      ResponseKeepsStatus(s.req, s.resp, s.shared, x);
  }

  lemma NothingYet(out: seq<ClientOut>, ms: seq<FrontMsg>, bs: seq<BackMsg>, ds: seq<Decision>)
    requires out == [] && ms == [] && bs == [] && ds == []
    ensures RelayedReadies(out) == SynthReadies(out) == SyncPoints(ms) == BackReadies(bs) == RefusedQueries(ds) == 0
    ensures LastReal(out) == 'I' && Truthful(out)
  {
  }

  lemma FreshIsLocked(s: Session)
    requires s == FRESH
    ensures LockInv(s)
  {
    NothingYet(s.shared.client.out, s.req.received, s.resp.fromBackend, s.req.decided);
    NothingYet(s.shared.client.out, s.req.toBackend, s.resp.fromBackend, s.req.decided);
  }

  lemma LastLockStep(cfg: Config, ls: seq<Label>)
    requires ls != [] && LockStepRun(cfg, ls) && Run(cfg, ls).Some?
    ensures var s := Run(cfg, ls[..|ls|-1]);
            s.Some? && LockStep(s.value, ls[|ls|-1]) && Run(cfg, ls) == Step(cfg, s.value, ls[|ls|-1])
  {
  }

  lemma {:induction false} LockStepRunsKeepLock(cfg: Config, ls: seq<Label>, s: Session)
    requires LockStepRun(cfg, ls) && Run(cfg, ls) == Some(s)
    ensures LockInv(s)
  {
    if ls == [] {
      FreshIsLocked(s);
    } else {
      LastLockStep(cfg, ls);
      var r := Run(cfg, ls[..|ls|-1]).value;
      LockStepRunsKeepLock(cfg, ls[..|ls|-1], r);
      StepKeepsLock(cfg, r, ls[|ls|-1]);
    }
  }

  // ---------------------------------------------------------------- what follows

  /** Nothing is under way, and the backend has answered every sync point it was sent. */
  predicate Quiescent(s: Session) {
    && (s.req.pc.Draining? || s.req.pc.Receiving?) && s.resp.pc.Listening? && !s.shared.client.broken
    && BackReadies(s.resp.fromBackend) == 1 + SyncPoints(s.req.toBackend)
  }

  /** What the client can rely on. */
  ghost predicate StatusPromise(s: Session) {
    && Readies(s.shared.client.out) <= 1 + SyncPoints(s.req.received)
    && (Quiescent(s) ==> Readies(s.shared.client.out) == 1 + SyncPoints(s.req.received))
    && Truthful(s.shared.client.out)
  }

  lemma LockInvPromises(s: Session)
    requires LockInv(s)
    ensures StatusPromise(s)
  {
  }

  /** In every lock-step run, whatever the handler refuses, the client gets at most one
      ReadyForQuery per sync point and one at start-up, exactly one each once things are quiet,
      and each of the proxy's own tells the status of the last real one in the stream. */
  lemma LockStepStatusIsTrue(cfg: Config, ls: seq<Label>, s: Session)
    requires LockStepRun(cfg, ls) && Run(cfg, ls) == Some(s)
    ensures StatusPromise(s)
  {
    LockStepRunsKeepLock(cfg, ls, s);
    LockInvPromises(s);
  }
}
