/** What a session's two sides see, in every interleaving of its goroutines: the client's stream
    is a merge of the backend's messages and the proxy's own, and the backend's stream is the
    client's messages less the refused ones. */
module SessionStreams {
  import opened Basics
  import opened Session

  // ---------------------------------------------------------------- projections

  /** The backend's share of the client stream. */
  function RelayedPart(out: seq<ClientOut>): seq<BackMsg> {
    if out == [] then []
    else
      var x := out[|out|-1];
      RelayedPart(out[..|out|-1]) + if x.Relayed? then [x.m] else []
  }

  /** The proxy's share once messages flow, with the status of its ReadyForQuery left out. */
  function OwnPart(out: seq<ClientOut>): seq<ClientOut> {
    if out == [] then []
    else
      var x := out[|out|-1];
      OwnPart(out[..|out|-1]) +
      if x.Refusal? then [x] else if x.SynthReady? then [SynthReady('I')] else []
  }

  /** What a message is answered with when the handler refuses it: an error and, for a Query, a
      ReadyForQuery; nothing otherwise. */
  function ReplyTo(d: Decision): seq<ClientOut> {
    if d.result.Refused? && (d.msg.Query? || d.msg.Parse?) then
      [Refusal("handler error: " + d.result.reason)] + if d.msg.Query? then [SynthReady('I')] else []
    else []
  }

  function Replies(ds: seq<Decision>): seq<ClientOut> {
    if ds == [] then [] else Replies(ds[..|ds|-1]) + ReplyTo(ds[|ds|-1])
  }

  /** The messages that the handler lets through, as it leaves them. */
  function Forwarded(ds: seq<Decision>): seq<FrontMsg> {
    if ds == [] then []
    else
      var out := ApplyHandler(ds[|ds|-1].msg, ds[|ds|-1].result);
      Forwarded(ds[..|ds|-1]) + if out.Some? then [out.value] else []
  }

  function RefusedCount(ds: seq<Decision>): nat {
    if ds == [] then 0
    else RefusedCount(ds[..|ds|-1]) + if ApplyHandler(ds[|ds|-1].msg, ds[|ds|-1].result).None? then 1 else 0
  }

  function Messages(ds: seq<Decision>): seq<FrontMsg> {
    seq(|ds|, i requires 0 <= i < |ds| => ds[i].msg)
  }

  // ---------------------------------------------------------------- what is under way

  /** The backend message that the response relay holds. */
  function InFlight(pc: ResponsePc): Option<BackMsg> {
    match pc
    case SendingAuth(at) => Some(AuthRequest(at))
    case StoringRegistry(key) => Some(KeyData(key))
    case StoringKey(key) => Some(KeyData(key))
    case StoringStatus(tx) => Some(Ready(tx))
    case Relaying(m) => Some(m)
    case _ => None
  }

  /** What the request relay still owes the client for a refused message. */
  datatype Debt = NoDebt | ReadyDebt | FullDebt(text: string, query: bool)

  function Owed(pc: RequestPc): Debt {
    match pc
    case Counting(m, reason) => FullDebt(RefusalText(reason), m.Query?)
    case Refusing(m, reason) => FullDebt(RefusalText(reason), m.Query?)
    case LoadingStatus => ReadyDebt
    case SendingReady(_) => ReadyDebt
    case _ => NoDebt
  }

  function Due(d: Debt): seq<ClientOut> {
    match d
    case NoDebt => []
    case ReadyDebt => [SynthReady('I')]
    case FullDebt(text, query) => [Refusal(text)] + if query then [SynthReady('I')] else []
  }

  function Outgoing(pc: RequestPc): Option<FrontMsg> {
    if pc.Forwarding? then Some(pc.m) else None
  }

  function Undecided(pc: RequestPc): Option<FrontMsg> {
    if pc.Handling? then Some(pc.m) else None
  }

  function AsSeq<T>(o: Option<T>): seq<T> {
    if o.Some? then [o.value] else []
  }

  // ---------------------------------------------------------------- the client's stream

  /** The backend's share is what the backend sent, less what the relay holds. */
  ghost predicate RelayedInv(client: Stream, held: Option<BackMsg>, fromBackend: seq<BackMsg>) {
    if client.broken then RelayedPart(client.out) <= fromBackend
    else RelayedPart(client.out) + AsSeq(held) == fromBackend
  }

  /** The proxy's share is the replies to the refused messages, less what is still owed. */
  ghost predicate OwnInv(client: Stream, debt: Debt, decided: seq<Decision>) {
    if client.broken then OwnPart(client.out) <= Replies(decided)
    else OwnPart(client.out) + Due(debt) == Replies(decided)
  }

  lemma Appended(out: seq<ClientOut>, x: ClientOut)
    ensures RelayedPart(out + [x]) == RelayedPart(out) + if x.Relayed? then [x.m] else []
    ensures OwnPart(out + [x]) ==
            OwnPart(out) + if x.Refusal? then [x] else if x.SynthReady? then [SynthReady('I')] else []
  {
    assert (out + [x])[..|out|] == out;
  }

  lemma DecisionAdded(ds: seq<Decision>, d: Decision)
    ensures Replies(ds + [d]) == Replies(ds) + ReplyTo(d)
    ensures Forwarded(ds + [d]) ==
            Forwarded(ds) + if ApplyHandler(d.msg, d.result).Some? then [ApplyHandler(d.msg, d.result).value] else []
    ensures RefusedCount(ds + [d]) == RefusedCount(ds) + if ApplyHandler(d.msg, d.result).None? then 1 else 0
    ensures Messages(ds + [d]) == Messages(ds) + [d.msg]
  {
    assert (ds + [d])[..|ds|] == ds;
  }

  /** A write that is not a relayed message leaves the backend's share alone. */
  lemma OwnWriteKeepsRelayed(client: Stream, x: ClientOut, ok: bool, held: Option<BackMsg>, fromBackend: seq<BackMsg>)
    requires RelayedInv(client, held, fromBackend) && !x.Relayed?
    ensures RelayedInv(Write(client, x, ok), held, fromBackend)
  {
    Appended(client.out, x);
  }

  lemma RelayKeepsRelayed(client: Stream, m: BackMsg, ok: bool, fromBackend: seq<BackMsg>)
    requires RelayedInv(client, Some(m), fromBackend)
    ensures RelayedInv(Write(client, Relayed(m), ok), None, fromBackend)
  {
    Appended(client.out, Relayed(m));
  }

  /** A relayed message, like anything sent before messages flow, leaves the proxy's share alone. */
  lemma OtherWriteKeepsOwn(client: Stream, x: ClientOut, ok: bool, debt: Debt, decided: seq<Decision>)
    requires OwnInv(client, debt, decided) && !x.Refusal? && !x.SynthReady?
    ensures OwnInv(Write(client, x, ok), debt, decided)
  {
    Appended(client.out, x);
  }

  lemma RefusalPaysError(client: Stream, text: string, query: bool, ok: bool, decided: seq<Decision>)
    requires OwnInv(client, FullDebt(text, query), decided)
    ensures OwnInv(Write(client, Refusal(text), ok), if query then ReadyDebt else NoDebt, decided)
  {
    Appended(client.out, Refusal(text));
    assert OwnPart(client.out) + ([Refusal(text)] + if query then [SynthReady('I')] else [])
        == (OwnPart(client.out) + [Refusal(text)]) + if query then [SynthReady('I')] else [];
  }

  lemma ReadyPaysRest(client: Stream, tx: char, ok: bool, decided: seq<Decision>)
    requires OwnInv(client, ReadyDebt, decided)
    ensures OwnInv(Write(client, SynthReady(tx), ok), NoDebt, decided)
  {
    Appended(client.out, SynthReady(tx));
  }

  lemma DecisionOwes(client: Stream, m: FrontMsg, r: HandlerResult, decided: seq<Decision>)
    requires OwnInv(client, NoDebt, decided)
    ensures OwnInv(client,
                   if ApplyHandler(m, r).Some? then NoDebt else FullDebt(RefusalText(r.reason), m.Query?),
                   decided + [Decision(m, r)])
  {
    DecisionAdded(decided, Decision(m, r));
  }

  // ---------------------------------------------------------------- the backend's stream

  /** The backend has received what was let through, less what is being written. */
  ghost predicate ForwardInv(toBackend: seq<FrontMsg>, broken: bool, outgoing: Option<FrontMsg>,
                             decided: seq<Decision>)
  {
    if broken then toBackend <= Forwarded(decided) && outgoing.None?
    else toBackend + AsSeq(outgoing) == Forwarded(decided)
  }

  /** Only the last message can be a Terminate, and then the request relay has ended. */
  ghost predicate TerminateInv(toBackend: seq<FrontMsg>, done: bool) {
    forall i | 0 <= i < |toBackend| && toBackend[i].Terminate? :: i == |toBackend| - 1 && done
  }

  ghost predicate BackendStreamInv(q: RequestSide) {
    && ForwardInv(q.toBackend, q.broken, Outgoing(q.pc), q.decided)
    && (q.broken ==> q.pc.RequestFailing? || q.pc.RequestDone?)
    && TerminateInv(q.toBackend, q.pc.RequestDone?)
    && q.received == Messages(q.decided) + AsSeq(Undecided(q.pc))
    && q.blocked + (if q.pc.Counting? then 1 else 0) == RefusedCount(q.decided)
  }

  /** Receiving moves a message from the client to the relay. */
  lemma ReceiveKeepsBackendStream(q: RequestSide, sh: Shared, m: FrontMsg)
    requires BackendStreamInv(q) && RequestStep(q, sh, Receive(m)).Some?
    ensures BackendStreamInv(RequestStep(q, sh, Receive(m)).value.side)
  {
  }

  /** A decision moves it from there to the backend, or to the refused. */
  lemma DecisionMoves(toBackend: seq<FrontMsg>, received: seq<FrontMsg>, blocked: nat, ds: seq<Decision>, d: Decision)
    requires toBackend == Forwarded(ds) && received == Messages(ds) + [d.msg] && blocked == RefusedCount(ds)
    ensures var out := ApplyHandler(d.msg, d.result);
            && toBackend + AsSeq(out) == Forwarded(ds + [d])
            && received == Messages(ds + [d])
            && blocked + (if out.None? then 1 else 0) == RefusedCount(ds + [d])
  {
    DecisionAdded(ds, d);
  }

  lemma HandleKeepsBackendStream(q: RequestSide, sh: Shared, r: HandlerResult)
    requires BackendStreamInv(q) && RequestStep(q, sh, Handle(r)).Some?
    ensures BackendStreamInv(RequestStep(q, sh, Handle(r)).value.side)
  {
    var t, d := RequestStep(q, sh, Handle(r)).value.side, Decision(q.pc.m, r);
    DecisionMoves(q.toBackend, q.received, q.blocked, q.decided, d);
    assert t.toBackend == q.toBackend && t.received == q.received && t.decided == q.decided + [d];
    assert Outgoing(t.pc) == ApplyHandler(d.msg, d.result) && Undecided(t.pc) == None;
    assert t.pc.Counting? <==> ApplyHandler(d.msg, d.result).None?;
  }

  lemma ForwardKeepsBackendStream(q: RequestSide, sh: Shared, ok: bool)
    requires BackendStreamInv(q) && RequestStep(q, sh, Forward(ok)).Some?
    ensures BackendStreamInv(RequestStep(q, sh, Forward(ok)).value.side)
  {
    if ok {
      assert q.toBackend + AsSeq(Outgoing(q.pc)) == q.toBackend + [q.pc.m];
    }
  }

  predicate MovesMessage(l: RequestLabel) {
    l.Receive? || l.Handle? || l.Forward?
  }

  lemma OtherStepsMoveNothing(q: RequestSide, sh: Shared, l: RequestLabel)
    requires RequestStep(q, sh, l).Some? && !MovesMessage(l)
    ensures var t := RequestStep(q, sh, l).value.side;
            && t.toBackend == q.toBackend && t.decided == q.decided && t.received == q.received && t.broken == q.broken
            && Outgoing(t.pc) == Outgoing(q.pc) == None && Undecided(t.pc) == Undecided(q.pc) == None
            && t.blocked + (if t.pc.Counting? then 1 else 0) == q.blocked + (if q.pc.Counting? then 1 else 0)
            && !q.pc.RequestDone? && (q.pc.RequestFailing? ==> t.pc.RequestDone?)
  {
  }

  lemma RequestKeepsBackendStream(q: RequestSide, sh: Shared, l: RequestLabel)
    requires BackendStreamInv(q) && RequestStep(q, sh, l).Some?
    ensures BackendStreamInv(RequestStep(q, sh, l).value.side)
  {
    if l.Receive? {
      ReceiveKeepsBackendStream(q, sh, l.m);
    } else if l.Handle? {
      HandleKeepsBackendStream(q, sh, l.r);
    } else if l.Forward? {
      ForwardKeepsBackendStream(q, sh, l.ok);
    } else {
      OtherStepsMoveNothing(q, sh, l);
    }
  }

  // ---------------------------------------------------------------- one goroutine at a time

  lemma HandlingOwes(q: RequestSide, sh: Shared, r: HandlerResult)
    requires OwnInv(sh.client, NoDebt, q.decided) && q.pc.Handling? && sh.spawned
    ensures var a := RequestStep(q, sh, Handle(r)).value; OwnInv(a.shared.client, Owed(a.side.pc), a.side.decided)
  {
    DecisionOwes(sh.client, q.pc.m, r, q.decided);
    var a := RequestStep(q, sh, Handle(r)).value;
    assert a.shared == sh && a.side.decided == q.decided + [Decision(q.pc.m, r)];
    assert Owed(a.side.pc) == if ApplyHandler(q.pc.m, r).Some? then NoDebt
                              else FullDebt(RefusalText(r.reason), q.pc.m.Query?);
  }

  lemma SendingErrorPays(q: RequestSide, sh: Shared, ok: bool)
    requires OwnInv(sh.client, Owed(q.pc), q.decided) && RequestStep(q, sh, SendRefusal(ok)).Some?
    ensures var a := RequestStep(q, sh, SendRefusal(ok)).value; OwnInv(a.shared.client, Owed(a.side.pc), a.side.decided)
  {
    var a := RequestStep(q, sh, SendRefusal(ok)).value;
    var text, query := RefusalText(q.pc.reason), q.pc.m.Query?;
    assert Owed(q.pc) == FullDebt(text, query);
    RefusalPaysError(sh.client, text, query, ok, q.decided);
    assert a.shared.client == Write(sh.client, Refusal(text), ok) && a.side.decided == q.decided;
    assert Owed(a.side.pc) == if query then ReadyDebt else NoDebt;
  }

  lemma SendingReadyPays(q: RequestSide, sh: Shared, ok: bool)
    requires OwnInv(sh.client, Owed(q.pc), q.decided) && RequestStep(q, sh, SendReady(ok)).Some?
    ensures var a := RequestStep(q, sh, SendReady(ok)).value; OwnInv(a.shared.client, Owed(a.side.pc), a.side.decided)
  {
    var a := RequestStep(q, sh, SendReady(ok)).value;
    assert Owed(q.pc) == ReadyDebt;
    ReadyPaysRest(sh.client, q.pc.tx, ok, q.decided);
    assert a.shared.client == Write(sh.client, SynthReady(q.pc.tx), ok) && a.side.decided == q.decided;
    assert Owed(a.side.pc) == NoDebt;
  }

  lemma OtherStepsOweTheSame(q: RequestSide, sh: Shared, l: RequestLabel)
    requires RequestStep(q, sh, l).Some? && !l.Handle? && !l.SendRefusal? && !l.SendReady?
    ensures var a := RequestStep(q, sh, l).value;
            a.shared.client == sh.client && a.side.decided == q.decided && Owed(a.side.pc) == Owed(q.pc)
  {
  }

  lemma RequestKeepsOwn(q: RequestSide, sh: Shared, l: RequestLabel)
    requires OwnInv(sh.client, Owed(q.pc), q.decided) && RequestStep(q, sh, l).Some?
    ensures var a := RequestStep(q, sh, l).value; OwnInv(a.shared.client, Owed(a.side.pc), a.side.decided)
  {
    if l.Handle? {
      HandlingOwes(q, sh, l.r);
    } else if l.SendRefusal? {
      SendingErrorPays(q, sh, l.ok);
    } else if l.SendReady? {
      SendingReadyPays(q, sh, l.ok);
    } else {
      OtherStepsOweTheSame(q, sh, l);
    }
  }

  lemma RequestKeepsRelayed(q: RequestSide, sh: Shared, l: RequestLabel, held: Option<BackMsg>,
                            fromBackend: seq<BackMsg>)
    requires RelayedInv(sh.client, held, fromBackend) && RequestStep(q, sh, l).Some?
    ensures RelayedInv(RequestStep(q, sh, l).value.shared.client, held, fromBackend)
  {
    match l
    case SendRefusal(ok) => OwnWriteKeepsRelayed(sh.client, Refusal(RefusalText(q.pc.reason)), ok, held, fromBackend);
    case SendReady(ok) => OwnWriteKeepsRelayed(sh.client, SynthReady(q.pc.tx), ok, held, fromBackend);
    case _ =>
  }

  lemma ResponseKeepsRelayed(p: ResponseSide, sh: Shared, l: ResponseLabel)
    requires RelayedInv(sh.client, InFlight(p.pc), p.fromBackend) && ResponseStep(p, sh, l).Some?
    ensures var r := ResponseStep(p, sh, l).value; RelayedInv(r.shared.client, InFlight(r.side.pc), r.side.fromBackend)
  {
    match l
    case Relay(ok) => RelayKeepsRelayed(sh.client, p.pc.m, ok, p.fromBackend);
    case _ =>
  }

  lemma ResponseKeepsOwn(p: ResponseSide, sh: Shared, l: ResponseLabel, debt: Debt, decided: seq<Decision>)
    requires OwnInv(sh.client, debt, decided) && ResponseStep(p, sh, l).Some?
    ensures OwnInv(ResponseStep(p, sh, l).value.shared.client, debt, decided)
  {
    match l
    case Relay(ok) => OtherWriteKeepsOwn(sh.client, Relayed(p.pc.m), ok, debt, decided);
    case _ =>
  }

  lemma ServiceKeepsBoth(cfg: Config, v: ServiceSide, sh: Shared, l: ServiceLabel,
                         held: Option<BackMsg>, fromBackend: seq<BackMsg>, debt: Debt, decided: seq<Decision>)
    requires RelayedInv(sh.client, held, fromBackend) && OwnInv(sh.client, debt, decided)
    requires ServiceStep(cfg, v, sh, l).Some?
    ensures RelayedInv(ServiceStep(cfg, v, sh, l).value.shared.client, held, fromBackend)
    ensures OwnInv(ServiceStep(cfg, v, sh, l).value.shared.client, debt, decided)
  {
    match l
    case Negotiate(c, ok) =>
      OwnWriteKeepsRelayed(sh.client, Negotiation(c), ok, held, fromBackend);
      OtherWriteKeepsOwn(sh.client, Negotiation(c), ok, debt, decided);
    case SendFatal(ok) =>
      OwnWriteKeepsRelayed(sh.client, Fatal(v.pc.code), ok, held, fromBackend);
      OtherWriteKeepsOwn(sh.client, Fatal(v.pc.code), ok, debt, decided);
    case _ =>
  }

  // ---------------------------------------------------------------- every schedule

  ghost predicate StreamInv(s: Session) {
    && RelayedInv(s.shared.client, InFlight(s.resp.pc), s.resp.fromBackend)
    && OwnInv(s.shared.client, Owed(s.req.pc), s.req.decided)
    && BackendStreamInv(s.req)
  }

  lemma StepKeepsStreams(cfg: Config, s: Session, l: Label)
    requires StreamInv(s) && Step(cfg, s, l).Some?
    ensures StreamInv(Step(cfg, s, l).value)
  {
    match l
    case Service(x) =>
      ServiceKeepsBoth(cfg, s.svc, s.shared, x, InFlight(s.resp.pc), s.resp.fromBackend, Owed(s.req.pc), s.req.decided);
    case Request(x) =>
      RequestKeepsOwn(s.req, s.shared, x);
      RequestKeepsRelayed(s.req, s.shared, x, InFlight(s.resp.pc), s.resp.fromBackend);
      RequestKeepsBackendStream(s.req, s.shared, x);
    case Response(x) =>
      ResponseKeepsRelayed(s.resp, s.shared, x);
      ResponseKeepsOwn(s.resp, s.shared, x, Owed(s.req.pc), s.req.decided);
  }

  lemma {:induction false} RunsKeepStreams(cfg: Config, ls: seq<Label>)
    requires Run(cfg, ls).Some?
    ensures StreamInv(Run(cfg, ls).value)
  {
    if ls != [] {
      RunsKeepStreams(cfg, ls[..|ls|-1]);
      StepKeepsStreams(cfg, Run(cfg, ls[..|ls|-1]).value, ls[|ls|-1]);
    }
  }

  // ---------------------------------------------------------------- what the two peers see

  /** Up to the first failed write, the client's stream is a merge of whole messages: without the
      proxy's own it is an in-order prefix of what the backend sent, and without the backend's it
      is a prefix of the replies to the refused messages, in order, an error each and a
      ReadyForQuery just for a Query. */
  lemma ClientStreamIsMerge(cfg: Config, ls: seq<Label>, s: Session)
    requires Run(cfg, ls) == Some(s)
    ensures RelayedPart(s.shared.client.out) <= s.resp.fromBackend
    ensures OwnPart(s.shared.client.out) <= Replies(s.req.decided)
    ensures !s.shared.client.broken && InFlight(s.resp.pc).None? ==>
              RelayedPart(s.shared.client.out) == s.resp.fromBackend
    ensures !s.shared.client.broken && Owed(s.req.pc).NoDebt? ==> OwnPart(s.shared.client.out) == Replies(s.req.decided)
  {
    RunsKeepStreams(cfg, ls);
  }

  /** The backend's stream is the client's messages in order as the handler leaves them, without
      the refused ones and with nothing behind a Terminate; the refusals are counted. */
  lemma BackendStreamIsTransformed(cfg: Config, ls: seq<Label>)
    requires Run(cfg, ls).Some?
    ensures var q := Run(cfg, ls).value.req;
            && q.toBackend <= Forwarded(q.decided)
            && Messages(q.decided) <= q.received
            && (!q.broken && Outgoing(q.pc).None? ==> q.toBackend == Forwarded(q.decided))
            && (Undecided(q.pc).None? ==> Messages(q.decided) == q.received)
            && TerminateInv(q.toBackend, q.pc.RequestDone?)
            && (!q.pc.Counting? ==> q.blocked == RefusedCount(q.decided))
  {
    RunsKeepStreams(cfg, ls);
  }

  // ---------------------------------------------------------------- a handler that is a function

  function SqlText(m: FrontMsg): Option<string> {
    match m
    case Query(t) => Some(t)
    case Parse(_, t, _) => Some(t)
    case _ => None
  }

  ghost predicate AnsweredBy(h: string -> HandlerResult, ds: seq<Decision>) {
    forall d <- ds :: SqlText(d.msg).Some? ==> d.result == h(SqlText(d.msg).value)
  }

  /** The client's messages through a handler, by what the client sent alone. */
  function Transform(h: string -> HandlerResult, ms: seq<FrontMsg>): seq<FrontMsg> {
    if ms == [] then []
    else
      var m := ms[|ms|-1];
      Transform(h, ms[..|ms|-1]) +
      match m
      case Query(t) => (match h(t) case Refused(_) => [] case Unchanged => [m] case NewText(u) => [Query(u)])
      case Parse(n, t, o) =>
        (match h(t) case Refused(_) => [] case Unchanged => [m] case NewText(u) => [Parse(n, u, o)])
      case _ => [m]
  }

  lemma {:induction false} ForwardedIsTransform(h: string -> HandlerResult, ds: seq<Decision>)
    requires AnsweredBy(h, ds)
    ensures Forwarded(ds) == Transform(h, Messages(ds))
  {
    if ds != [] {
      var n := |ds| - 1;
      ForwardedIsTransform(h, ds[..n]);
      assert Messages(ds)[..n] == Messages(ds[..n]);
      assert ds[n] in ds;
    }
  }

  lemma {:induction false} TransformKeepsPrefix(h: string -> HandlerResult, ms: seq<FrontMsg>, ns: seq<FrontMsg>)
    requires ms <= ns
    ensures Transform(h, ms) <= Transform(h, ns)
  {
    if |ms| < |ns| {
      TransformKeepsPrefix(h, ms, ns[..|ns|-1]);
    } else {
      assert ms == ns;
    }
  }

  /** With a handler that answers by the text alone, what reaches the backend is a prefix of what
      the handler makes of the messages received: refused Query and Parse removed, the text of
      the others replaced, everything else, with names and OIDs, as it came. */
  lemma BackendSeesTransform(cfg: Config, ls: seq<Label>, h: string -> HandlerResult)
    requires Run(cfg, ls).Some? && AnsweredBy(h, Run(cfg, ls).value.req.decided)
    ensures var q := Run(cfg, ls).value.req;
            && q.toBackend <= Transform(h, q.received)
            && (!q.broken && Outgoing(q.pc).None? && Undecided(q.pc).None? ==> q.toBackend == Transform(h, q.received))
  {
    var q := Run(cfg, ls).value.req;
    BackendStreamIsTransformed(cfg, ls);
    ForwardedIsTransform(h, q.decided);
    TransformKeepsPrefix(h, Messages(q.decided), q.received);
  }

  /** Without a handler the proxy is a plain relay. */
  lemma {:induction false} NilHandlerIsIdentity(ms: seq<FrontMsg>)
    ensures Transform(_ => Unchanged, ms) == ms
  {
    if ms != [] {
      NilHandlerIsIdentity(ms[..|ms|-1]);
    }
  }
}
