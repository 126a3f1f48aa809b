/** ReadyForQuery without lock-step. A client that sends its next Query before the answer to the
    last one can be told an old status or one that it has not been shown yet, and can find a
    message of the backend between an error and its ReadyForQuery. When, exactly. */
module Pipelining {
  import opened Basics
  import opened Startup
  import opened Session
  import opened SessionSafety
  import opened SessionStatus

  // ---------------------------------------------------------------- what the backend last told

  /** The status in the last ReadyForQuery of a backend stream; 'I' if there is none. */
  function LastTold(ms: seq<BackMsg>): char {
    if ms == [] then 'I' else if ms[|ms|-1].Ready? then ms[|ms|-1].tx else LastTold(ms[..|ms|-1])
  }

  predicate RelayingReady(pc: ResponsePc) {
    pc.Relaying? && pc.m.Ready?
  }

  /** The backend's messages without a ReadyForQuery whose status is yet to be stored. */
  function Stored(p: ResponseSide): seq<BackMsg> {
    if p.pc.StoringStatus? && p.fromBackend != [] then p.fromBackend[..|p.fromBackend|-1] else p.fromBackend
  }

  /** The backend's messages without a ReadyForQuery that is yet to be relayed. */
  function Shown(p: ResponseSide): seq<BackMsg> {
    if HoldsReady(p.pc) && p.fromBackend != [] then p.fromBackend[..|p.fromBackend|-1] else p.fromBackend
  }

  /** The stored status is that of the last ReadyForQuery stored; the client has seen that of the
      last one relayed. */
  ghost predicate ToldInv(p: ResponseSide, sh: Shared) {
    && (p.pc.StoringStatus? ==> p.fromBackend != [] && p.fromBackend[|p.fromBackend|-1] == Ready(p.pc.tx))
    && (RelayingReady(p.pc) ==> p.fromBackend != [] && p.fromBackend[|p.fromBackend|-1] == p.pc.m)
    && sh.lastTx == LastTold(Stored(p))
    && (!sh.client.broken ==> LastReal(sh.client.out) == LastTold(Shown(p)))
  }

  lemma HearKeepsTold(p: ResponseSide, sh: Shared, m: BackMsg)
    requires ToldInv(p, sh) && ResponseStep(p, sh, Hear(m)).Some?
    ensures var a := ResponseStep(p, sh, Hear(m)).value; ToldInv(a.side, a.shared)
  {
    assert (p.fromBackend + [m])[..|p.fromBackend|] == p.fromBackend;
  }

  lemma RelayKeepsTold(p: ResponseSide, sh: Shared, ok: bool)
    requires ToldInv(p, sh) && ResponseStep(p, sh, Relay(ok)).Some?
    ensures var a := ResponseStep(p, sh, Relay(ok)).value; ToldInv(a.side, a.shared)
  {
    OutSnoc(sh.client.out, Relayed(p.pc.m));
  }

  lemma ResponseKeepsTold(p: ResponseSide, sh: Shared, l: ResponseLabel)
    requires ToldInv(p, sh) && ResponseStep(p, sh, l).Some?
    ensures var a := ResponseStep(p, sh, l).value; ToldInv(a.side, a.shared)
  {
    match l
    case Hear(m) => HearKeepsTold(p, sh, m);
    case Relay(ok) => RelayKeepsTold(p, sh, ok);
    case _ =>
  }

  lemma RequestKeepsTold(q: RequestSide, sh: Shared, l: RequestLabel, p: ResponseSide)
    requires ToldInv(p, sh) && RequestStep(q, sh, l).Some?
    ensures ToldInv(p, RequestStep(q, sh, l).value.shared)
  {
    match l
    case SendRefusal(_) => OutSnoc(sh.client.out, Refusal(RefusalText(q.pc.reason)));
    case SendReady(_) => OutSnoc(sh.client.out, SynthReady(q.pc.tx));
    case _ =>
  }

  lemma ServiceKeepsTold(cfg: Config, v: ServiceSide, sh: Shared, l: ServiceLabel, p: ResponseSide)
    requires ToldInv(p, sh) && ServiceStep(cfg, v, sh, l).Some?
    ensures ToldInv(p, ServiceStep(cfg, v, sh, l).value.shared)
  {
    match l
    case Negotiate(c, _) => OutSnoc(sh.client.out, Negotiation(c));
    case SendFatal(_) => OutSnoc(sh.client.out, Fatal(v.pc.code));
    case _ =>
  }

  lemma NothingTold(s: Session)
    requires s == FRESH
    ensures ToldInv(s.resp, s.shared)
  {
  }

  lemma StepKeepsTold(cfg: Config, s: Session, l: Label)
    requires ToldInv(s.resp, s.shared) && Step(cfg, s, l).Some?
    ensures ToldInv(Step(cfg, s, l).value.resp, Step(cfg, s, l).value.shared)
  {
    match l
    case Service(x) => ServiceKeepsTold(cfg, s.svc, s.shared, x, s.resp);
    case Request(x) => RequestKeepsTold(s.req, s.shared, x, s.resp);
    case Response(x) => ResponseKeepsTold(s.resp, s.shared, x);
  }

  lemma {:induction false} RunsKeepTold(cfg: Config, ls: seq<Label>, s: Session)
    requires Run(cfg, ls) == Some(s)
    ensures ToldInv(s.resp, s.shared)
  {
    if ls == [] {
      NothingTold(s);
    } else {
      var r := Run(cfg, ls[..|ls|-1]).value;
      RunsKeepTold(cfg, ls[..|ls|-1], r);
      StepKeepsTold(cfg, r, ls[|ls|-1]);
    }
  }

  /** In any run, the status loaded for the proxy's own ReadyForQuery is the backend's last one
      at that moment. */
  lemma LoadedStatusIsBackends(cfg: Config, ls: seq<Label>, s: Session)
    requires Run(cfg, ls) == Some(s) && Step(cfg, s, Request(LoadStatus)).Some?
    ensures Step(cfg, s, Request(LoadStatus)).value.req.pc == SendingReady(LastTold(Stored(s.resp)))
  {
    RunsKeepTold(cfg, ls, s);
  }

  // ---------------------------------------------------------------- the status

  /** In any run, the status about to be sent is that of the last real ReadyForQuery in the
      client's stream just when it is the last the backend told apart from a ReadyForQuery that is
      still to be relayed. With none of which the status is already stored, that is just when the
      stored status, which could be looked at again under the lock, is still the loaded one. */
  lemma StatusIsTrueIff(cfg: Config, ls: seq<Label>, s: Session)
    requires Run(cfg, ls) == Some(s) && s.req.pc.SendingReady? && !s.shared.client.broken
    ensures s.req.pc.tx == LastReal(s.shared.client.out) <==> s.req.pc.tx == LastTold(Shown(s.resp))
    ensures !RelayingReady(s.resp.pc) ==>
              (s.req.pc.tx == LastReal(s.shared.client.out) <==> s.req.pc.tx == s.shared.lastTx)
  {
    RunsKeepTold(cfg, ls, s);
  }

  /** A ReadyForQuery that the proxy sends now is true. */
  ghost predicate SendIsTrue(s: Session, l: Label) {
    l == Request(SendReady(true)) && s.req.pc.SendingReady? && !s.shared.client.broken ==>
      s.req.pc.tx == LastTold(Shown(s.resp))
  }

  ghost predicate SendsTruly(cfg: Config, ls: seq<Label>) {
    ls != [] ==>
      && SendsTruly(cfg, ls[..|ls|-1])
      && (Run(cfg, ls[..|ls|-1]).Some? ==> SendIsTrue(Run(cfg, ls[..|ls|-1]).value, ls[|ls|-1]))
  }

  lemma WriteKeepsTruth(c: Stream, x: ClientOut, ok: bool)
    ensures Truthful(Write(c, x, ok).out) <==>
            Truthful(c.out) && (x.SynthReady? && ok && !c.broken ==> x.tx == LastReal(c.out))
  {
    OutSnoc(c.out, x);
  }

  lemma StepKeepsTruth(cfg: Config, s: Session, l: Label)
    requires ToldInv(s.resp, s.shared) && Step(cfg, s, l).Some?
    ensures Truthful(Step(cfg, s, l).value.shared.client.out) <==> Truthful(s.shared.client.out) && SendIsTrue(s, l)
  {
    match l
    case Service(Negotiate(c, ok)) => WriteKeepsTruth(s.shared.client, Negotiation(c), ok);
    case Service(SendFatal(ok)) => WriteKeepsTruth(s.shared.client, Fatal(s.svc.pc.code), ok);
    case Request(SendRefusal(ok)) => WriteKeepsTruth(s.shared.client, Refusal(RefusalText(s.req.pc.reason)), ok);
    case Request(SendReady(ok)) => WriteKeepsTruth(s.shared.client, SynthReady(s.req.pc.tx), ok);
    case Response(Relay(ok)) => WriteKeepsTruth(s.shared.client, Relayed(s.resp.pc.m), ok);
    case _ =>
  }

  /** In any run, the client has been told nothing but the truth just when every ReadyForQuery of
      the proxy's own was sent with the status last shown. */
  lemma {:induction false} TruthfulIff(cfg: Config, ls: seq<Label>, s: Session)
    requires Run(cfg, ls) == Some(s)
    ensures Truthful(s.shared.client.out) <==> SendsTruly(cfg, ls)
  {
    if ls != [] {
      var r := Run(cfg, ls[..|ls|-1]).value;
      TruthfulIff(cfg, ls[..|ls|-1], r);
      RunsKeepTold(cfg, ls[..|ls|-1], r);
      StepKeepsTruth(cfg, r, ls[|ls|-1]);
    }
  }

  // ---------------------------------------------------------------- the place

  /** Every ReadyForQuery of the proxy's own stands right behind its error. */
  ghost predicate Together(out: seq<ClientOut>) {
    out != [] ==>
      && Together(out[..|out|-1])
      && (out[|out|-1].SynthReady? ==> |out| >= 2 && out[|out|-2].Refusal?)
  }

  /** The backend's relay has written to the client since the last error of the proxy's own. */
  predicate Interrupted(ls: seq<Label>) {
    ls != [] &&
    match ls[|ls|-1]
    case Request(SendRefusal(_)) => false
    case Response(Relay(ok)) => ok || Interrupted(ls[..|ls|-1])
    case _ => Interrupted(ls[..|ls|-1])
  }

  ghost predicate SendIsPrompt(s: Session, before: seq<Label>, l: Label) {
    l == Request(SendReady(true)) && !s.shared.client.broken ==> !Interrupted(before)
  }

  ghost predicate SendsPromptly(cfg: Config, ls: seq<Label>) {
    ls != [] ==>
      && SendsPromptly(cfg, ls[..|ls|-1])
      && (Run(cfg, ls[..|ls|-1]).Some? ==>
            SendIsPrompt(Run(cfg, ls[..|ls|-1]).value, ls[..|ls|-1], ls[|ls|-1]))
  }

  ghost predicate OwesOnlyReady(s: Session) {
    s.req.pc.LoadingStatus? || s.req.pc.SendingReady?
  }

  /** While a ReadyForQuery is owed, the stream ends in the error just when nothing came after. */
  ghost predicate ErrorIsLast(s: Session, interrupted: bool) {
    OwesOnlyReady(s) && !s.shared.client.broken ==>
      var out := s.shared.client.out;
      out != [] && (out[|out|-1].Refusal? <==> !interrupted)
  }

  lemma WriteKeepsTogether(c: Stream, x: ClientOut, ok: bool)
    ensures Together(Write(c, x, ok).out) <==>
            Together(c.out) && (x.SynthReady? && ok && !c.broken ==> c.out != [] && c.out[|c.out|-1].Refusal?)
  {
    assert (c.out + [x])[..|c.out|] == c.out;
  }

  lemma StepKeepsTogether(cfg: Config, s: Session, l: Label, before: seq<Label>)
    requires ErrorIsLast(s, Interrupted(before)) && Step(cfg, s, l).Some?
    ensures Together(Step(cfg, s, l).value.shared.client.out) <==>
            Together(s.shared.client.out) && SendIsPrompt(s, before, l)
  {
    match l
    case Service(Negotiate(c, ok)) => WriteKeepsTogether(s.shared.client, Negotiation(c), ok);
    case Service(SendFatal(ok)) => WriteKeepsTogether(s.shared.client, Fatal(s.svc.pc.code), ok);
    case Request(SendRefusal(ok)) => WriteKeepsTogether(s.shared.client, Refusal(RefusalText(s.req.pc.reason)), ok);
    case Request(SendReady(ok)) => WriteKeepsTogether(s.shared.client, SynthReady(s.req.pc.tx), ok);
    case Response(Relay(ok)) => WriteKeepsTogether(s.shared.client, Relayed(s.resp.pc.m), ok);
    case _ =>
  }

  lemma InterruptedSnoc(before: seq<Label>, l: Label)
    ensures Interrupted(before + [l]) ==
            match l
            case Request(SendRefusal(_)) => false
            case Response(Relay(ok)) => ok || Interrupted(before)
            case _ => Interrupted(before)
  {
    assert (before + [l])[..|before|] == before;
  }

  /** The request relay's writes: the error puts itself last, and what follows pays the debt. */
  lemma RequestKeepsLast(cfg: Config, s: Session, x: RequestLabel, before: seq<Label>)
    requires ErrorIsLast(s, Interrupted(before)) && Step(cfg, s, Request(x)).Some?
    ensures ErrorIsLast(Step(cfg, s, Request(x)).value, Interrupted(before + [Request(x)]))
  {
    InterruptedSnoc(before, Request(x));
  }

  lemma ResponseKeepsLast(cfg: Config, s: Session, x: ResponseLabel, before: seq<Label>)
    requires ErrorIsLast(s, Interrupted(before)) && Step(cfg, s, Response(x)).Some?
    ensures ErrorIsLast(Step(cfg, s, Response(x)).value, Interrupted(before + [Response(x)]))
  {
    InterruptedSnoc(before, Response(x));
  }

  /** The service goroutine writes only before the relays run. */
  lemma ServiceKeepsLast(cfg: Config, s: Session, x: ServiceLabel, before: seq<Label>)
    requires ErrorIsLast(s, Interrupted(before)) && PhaseInv(s) && Step(cfg, s, Service(x)).Some?
    ensures ErrorIsLast(Step(cfg, s, Service(x)).value, Interrupted(before + [Service(x)]))
  {
    InterruptedSnoc(before, Service(x));
    WritesBeforeRelays(cfg, s.svc, s.shared, x);
  }

  lemma WritesBeforeRelays(cfg: Config, v: ServiceSide, sh: Shared, x: ServiceLabel)
    requires ServiceStep(cfg, v, sh, x).Some?
    ensures ServiceStep(cfg, v, sh, x).value.shared.client == sh.client || BeforeConnected(v.pc)
  {
  }

  lemma StepKeepsLast(cfg: Config, s: Session, l: Label, before: seq<Label>)
    requires ErrorIsLast(s, Interrupted(before)) && PhaseInv(s) && Step(cfg, s, l).Some?
    ensures ErrorIsLast(Step(cfg, s, l).value, Interrupted(before + [l]))
  {
    match l
    case Service(x) => ServiceKeepsLast(cfg, s, x, before);
    case Request(x) => RequestKeepsLast(cfg, s, x, before);
    case Response(x) => ResponseKeepsLast(cfg, s, x, before);
  }

  /** In any run, a message of the backend stands between an error and its ReadyForQuery just when
      one was relayed between their two lock regions. */
  lemma {:induction false} TogetherIff(cfg: Config, ls: seq<Label>, s: Session)
    requires Run(cfg, ls) == Some(s)
    ensures Together(s.shared.client.out) <==> SendsPromptly(cfg, ls)
    ensures ErrorIsLast(s, Interrupted(ls))
  {
    if ls != [] {
      var before, l := ls[..|ls|-1], ls[|ls|-1];
      var r := Run(cfg, before).value;
      TogetherIff(cfg, before, r);
      RunsAreSafe(cfg, before);
      StepKeepsTogether(cfg, r, l, before);
      StepKeepsLast(cfg, r, l, before);
      assert ls == before + [l];
    }
  }

  // ---------------------------------------------------------------- before the first status

  ghost predicate NothingReady(ms: seq<BackMsg>) {
    forall m <- ms :: !m.Ready?
  }

  ghost predicate SynthIdle(out: seq<ClientOut>) {
    forall x <- out :: x.SynthReady? ==> x.tx == 'I'
  }

  /** What is idle until the backend's first ReadyForQuery. */
  ghost predicate StartsIdle(q: RequestPc, p: ResponsePc, lastTx: char, out: seq<ClientOut>) {
    lastTx == 'I' && !p.StoringStatus? && (q.SendingReady? ==> q.tx == 'I') && SynthIdle(out)
  }

  lemma StepStaysIdle(cfg: Config, s: Session, l: Label, t: Session)
    requires Step(cfg, s, l) == Some(t) && NothingReady(t.resp.fromBackend)
    requires StartsIdle(s.req.pc, s.resp.pc, s.shared.lastTx, s.shared.client.out)
    ensures StartsIdle(t.req.pc, t.resp.pc, t.shared.lastTx, t.shared.client.out)
  {
    match l
    case Service(_) =>
    case Request(_) =>
    case Response(x) =>
      if x.Hear? {
        assert x.m == t.resp.fromBackend[|s.resp.fromBackend|];
      }
  }

  lemma NothingReadyBefore(cfg: Config, s: Session, l: Label, t: Session)
    requires Step(cfg, s, l) == Some(t) && NothingReady(t.resp.fromBackend)
    ensures NothingReady(s.resp.fromBackend)
  {
    match l
    case Service(_) =>
    case Request(_) =>
    case Response(x) => assert s.resp.fromBackend <= t.resp.fromBackend;
  }

  /** Until the backend has reported a status, every ReadyForQuery of the proxy's own says idle. */
  lemma {:induction false} IdleUntilFirstReady(cfg: Config, ls: seq<Label>, s: Session)
    requires Run(cfg, ls) == Some(s) && NothingReady(s.resp.fromBackend)
    ensures StartsIdle(s.req.pc, s.resp.pc, s.shared.lastTx, s.shared.client.out)
  {
    if ls != [] {
      var b := Run(cfg, ls[..|ls|-1]).value;
      NothingReadyBefore(cfg, b, ls[|ls|-1], s);
      IdleUntilFirstReady(cfg, ls[..|ls|-1], b);
      StepStaysIdle(cfg, b, ls[|ls|-1], s);
    }
  }

  // ---------------------------------------------------------------- it happens

  /** An old status, and a message of the backend before it: the client is told 'I' inside a
      transaction. */
  lemma PipeliningCanBeToldStale(sm: StartupMessage, db: DBConfig) returns (cfg: Config, ls: seq<Label>)
    ensures Run(cfg, ls).Some?
    ensures var out := Run(cfg, ls).value.shared.client.out;
            && out == [Relayed(Ready('I')), Refusal(RefusalText("no")), Relayed(Ready('T')), SynthReady('I')]
            && !Truthful(out) && !Together(out)
  {
    cfg, ls := AfterRefusal(sm, db);
    ls := Go(cfg, ls, Request(LoadStatus));
    ls := Go(cfg, ls, Response(Hear(Ready('T'))));
    ls := Go(cfg, ls, Response(StoreStatus));
    ls := Go(cfg, ls, Response(Relay(true)));
    ls := Go(cfg, ls, Request(SendReady(true)));
    StaleIsUntrue(Run(cfg, ls).value.shared.client.out);
  }

  lemma StaleIsUntrue(out: seq<ClientOut>)
    requires out == [Relayed(Ready('I')), Refusal(RefusalText("no")), Relayed(Ready('T')), SynthReady('I')]
    ensures !Truthful(out) && !Together(out)
  {
    assert out[..3][2] == Relayed(Ready('T')) && out[3] == SynthReady('I');
  }

  /** A status ahead of its time: it is stored before its own ReadyForQuery is relayed, so the
      client can be told 'T' while the last real one it has seen said 'I'. */
  lemma PipeliningCanBeToldEarly(sm: StartupMessage, db: DBConfig) returns (cfg: Config, ls: seq<Label>)
    ensures Run(cfg, ls).Some?
    ensures var out := Run(cfg, ls).value.shared.client.out;
            out == [Relayed(Ready('I')), Refusal(RefusalText("no")), SynthReady('T')] && !Truthful(out)
  {
    cfg, ls := AfterRefusal(sm, db);
    ls := Go(cfg, ls, Response(Hear(Ready('T'))));
    ls := Go(cfg, ls, Response(StoreStatus));
    ls := Go(cfg, ls, Request(LoadStatus));
    ls := Go(cfg, ls, Request(SendReady(true)));
    EarlyIsUntrue(Run(cfg, ls).value.shared.client.out);
  }

  lemma EarlyIsUntrue(out: seq<ClientOut>)
    requires out == [Relayed(Ready('I')), Refusal(RefusalText("no")), SynthReady('T')]
    ensures !Truthful(out)
  {
    assert out[..2][1] == Refusal(RefusalText("no")) && out[..2][..1][0] == Relayed(Ready('I'));
    assert LastReal(out[..2]) == LastReal(out[..2][..1]) == 'I';
  }

  /** The backend is ready. */
  lemma AfterStart(sm: StartupMessage, db: DBConfig) returns (cfg: Config, ls: seq<Label>)
    ensures Run(cfg, ls).Some?
    ensures var s := Run(cfg, ls).value;
            && s.shared.spawned && s.shared.client == Stream([Relayed(Ready('I'))], false) && s.shared.lastTx == 'I'
            && s.req.pc.Receiving? && s.resp.pc.Listening? && s.shared.auth.chan == []
  {
    cfg, ls := Connected(sm, db);
    ls := Go(cfg, ls, Response(Hear(Ready('I'))));
    ls := Go(cfg, ls, Response(StoreStatus));
    ls := Go(cfg, ls, Response(Relay(true)));
    ls := Go(cfg, ls, Request(FindEmpty));
  }

  /** A Query has been forwarded to it. */
  lemma AfterBegin(sm: StartupMessage, db: DBConfig) returns (cfg: Config, ls: seq<Label>)
    ensures Run(cfg, ls).Some?
    ensures var s := Run(cfg, ls).value;
            && s.shared.spawned && s.shared.client == Stream([Relayed(Ready('I'))], false) && s.shared.lastTx == 'I'
            && s.req.pc.Receiving? && s.resp.pc.Listening?
  {
    cfg, ls := AfterStart(sm, db);
    ls := Go(cfg, ls, Request(Receive(Query("BEGIN"))));
    ls := Go(cfg, ls, Request(Handle(Unchanged)));
    ls := Go(cfg, ls, Request(Forward(true)));
    ls := Go(cfg, ls, Request(FindEmpty));
  }

  /** The next Query is refused before the answer to that one. */
  lemma AfterRefusal(sm: StartupMessage, db: DBConfig) returns (cfg: Config, ls: seq<Label>)
    ensures Run(cfg, ls).Some?
    ensures var s := Run(cfg, ls).value;
            && s.shared.spawned && s.shared.lastTx == 'I' && s.req.pc.LoadingStatus? && s.resp.pc.Listening?
            && s.shared.client == Stream([Relayed(Ready('I')), Refusal(RefusalText("no"))], false)
  {
    cfg, ls := AfterBegin(sm, db);
    ls := Go(cfg, ls, Request(Receive(Query("DROP"))));
    ls := Go(cfg, ls, Request(Handle(Refused("no"))));
    ls := Go(cfg, ls, Request(CountBlocked));
    ls := Go(cfg, ls, Request(SendRefusal(true)));
  }
}
