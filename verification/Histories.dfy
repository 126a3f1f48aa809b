/** The histories that a session's state carries say what its schedule did: which messages each relay
    read, what the handler answered, what the negotiation was answered with. So what is proved of
    the histories holds of the steps themselves. */
module Histories {
  import opened Basics
  import opened Startup
  import opened Session

  /** What the response relay read. */
  function Heard(ls: seq<Label>): seq<BackMsg> {
    if ls == [] then []
    else
      var l := ls[|ls|-1];
      Heard(ls[..|ls|-1]) + if l.Response? && l.p.Hear? then [l.p.m] else []
  }

  /** A message without the type that the decoder gives an authentication reply. */
  function Plain(m: FrontMsg): FrontMsg {
    if m.AuthReply? then m.(decodedAs := AuthOk) else m
  }

  function AllPlain(ms: seq<FrontMsg>): seq<FrontMsg> {
    seq(|ms|, i requires 0 <= i < |ms| => Plain(ms[i]))
  }

  /** What the request relay read. */
  function Read(ls: seq<Label>): seq<FrontMsg> {
    if ls == [] then []
    else
      var l := ls[|ls|-1];
      Read(ls[..|ls|-1]) + if l.Request? && l.q.Receive? then [Plain(l.q.m)] else []
  }

  function Results(ds: seq<Decision>): seq<HandlerResult> {
    seq(|ds|, i requires 0 <= i < |ds| => ds[i].result)
  }

  /** What the handler answered. */
  function Answered(ls: seq<Label>): seq<HandlerResult> {
    if ls == [] then []
    else
      var l := ls[|ls|-1];
      Answered(ls[..|ls|-1]) + if l.Request? && l.q.Handle? then [l.q.r] else []
  }

  /** The negotiation answers that got through. */
  function Negotiated(ls: seq<Label>): seq<char> {
    if ls == [] then []
    else
      var l := ls[|ls|-1];
      Negotiated(ls[..|ls|-1]) + if l.Service? && l.s.Negotiate? && l.s.ok then [l.s.answer] else []
  }

  function NegotiationPart(out: seq<ClientOut>): seq<char> {
    if out == [] then []
    else
      var x := out[|out|-1];
      NegotiationPart(out[..|out|-1]) + if x.Negotiation? then [x.answer] else []
  }

  lemma NegotiationSnoc(out: seq<ClientOut>, x: ClientOut)
    ensures NegotiationPart(out + [x]) == NegotiationPart(out) + if x.Negotiation? then [x.answer] else []
  {
    assert (out + [x])[..|out|] == out;
  }

  // ---------------------------------------------------------------- one step

  lemma StepHears(cfg: Config, s: Session, l: Label, t: Session)
    requires Step(cfg, s, l) == Some(t)
    ensures t.resp.fromBackend == s.resp.fromBackend + if l.Response? && l.p.Hear? then [l.p.m] else []
  {
    match l
    case Service(_) =>
    case Request(_) =>
    case Response(_) =>
  }

  lemma StepReads(cfg: Config, s: Session, l: Label, t: Session)
    requires Step(cfg, s, l) == Some(t)
    ensures AllPlain(t.req.received) ==
            AllPlain(s.req.received) + if l.Request? && l.q.Receive? then [Plain(l.q.m)] else []
  {
    match l
    case Service(_) =>
    case Request(_) =>
    case Response(_) =>
  }

  lemma StepAnswers(cfg: Config, s: Session, l: Label, t: Session)
    requires Step(cfg, s, l) == Some(t)
    ensures Results(t.req.decided) == Results(s.req.decided) + if l.Request? && l.q.Handle? then [l.q.r] else []
  {
    match l
    case Service(_) =>
    case Request(_) =>
    case Response(_) =>
  }

  /** While packets are read, no write has failed and no relay runs. */
  ghost predicate ReadsWhole(s: Session) {
    s.svc.pc.Reading? ==> !s.shared.client.broken && !s.shared.spawned
  }

  lemma ServiceNegotiates(cfg: Config, s: Session, l: ServiceLabel, t: Session)
    requires Step(cfg, s, Service(l)) == Some(t) && ReadsWhole(s)
    ensures ReadsWhole(t)
    ensures NegotiationPart(t.shared.client.out) ==
            NegotiationPart(s.shared.client.out) + if l.Negotiate? && l.ok then [l.answer] else []
  {
    match l
    case Negotiate(c, _) => NegotiationSnoc(s.shared.client.out, Negotiation(c));
    case SendFatal(_) => NegotiationSnoc(s.shared.client.out, Fatal(s.svc.pc.code));
    case _ =>
  }

  lemma RelaysNegotiateNothing(cfg: Config, s: Session, l: Label, t: Session)
    requires Step(cfg, s, l) == Some(t) && !l.Service? && ReadsWhole(s)
    ensures ReadsWhole(t) && NegotiationPart(t.shared.client.out) == NegotiationPart(s.shared.client.out)
  {
    match l
    case Request(SendRefusal(_)) => NegotiationSnoc(s.shared.client.out, Refusal(RefusalText(s.req.pc.reason)));
    case Request(SendReady(_)) => NegotiationSnoc(s.shared.client.out, SynthReady(s.req.pc.tx));
    case Response(Relay(_)) => NegotiationSnoc(s.shared.client.out, Relayed(s.resp.pc.m));
    case Request(_) =>
    case Response(_) =>
  }

  // ---------------------------------------------------------------- every run

  /** In every run the histories are those of the schedule: the messages that each relay read, in
      order, and the handler's answers to them. */
  lemma {:induction false} HistoriesAreSteps(cfg: Config, ls: seq<Label>, s: Session)
    requires Run(cfg, ls) == Some(s)
    ensures s.resp.fromBackend == Heard(ls)
    ensures AllPlain(s.req.received) == Read(ls)
    ensures Results(s.req.decided) == Answered(ls)
  {
    if ls != [] {
      var before, l := ls[..|ls|-1], ls[|ls|-1];
      var b := Run(cfg, before).value;
      HistoriesAreSteps(cfg, before, b);
      StepHears(cfg, b, l, s);
      StepReads(cfg, b, l, s);
      StepAnswers(cfg, b, l, s);
    }
  }

  /** And the client's stream holds the negotiation answers that were written. */
  lemma {:induction false} NegotiationsAreSent(cfg: Config, ls: seq<Label>, s: Session)
    requires Run(cfg, ls) == Some(s)
    ensures NegotiationPart(s.shared.client.out) == Negotiated(ls) && ReadsWhole(s)
  {
    if ls != [] {
      var before, l := ls[..|ls|-1], ls[|ls|-1];
      var b := Run(cfg, before).value;
      NegotiationsAreSent(cfg, before, b);
      match l
      case Service(x) => ServiceNegotiates(cfg, b, x, s);
      case _ => RelaysNegotiateNothing(cfg, b, l, s);
    }
  }

  // ---------------------------------------------------------------- the opening

  function Announced(answers: seq<char>): seq<ClientOut> {
    seq(|answers|, i requires 0 <= i < |answers| => Negotiation(answers[i]))
  }

  lemma {:induction false} AnswersRun(cfg: Config, answers: seq<char>) returns (ls: seq<Label>, s: Session)
    ensures Run(cfg, ls) == Some(s) && s == FRESH.(shared := FRESH_SHARED.(client := Stream(Announced(answers), false)))
  {
    if answers == [] {
      ls, s := [], FRESH;
    } else {
      var n := |answers| - 1;
      var before, b := AnswersRun(cfg, answers[..n]);
      ls := before + [Service(Negotiate(answers[n], true))];
      RunSnoc(cfg, before, ls[|before|], b);
      s := Run(cfg, ls).value;
      assert Announced(answers) == Announced(answers[..n]) + [Negotiation(answers[n])];
    }
  }

  /** Whatever was answered before, the packet that ends the negotiation is dealt with: a start-up is
      decided on, a cancel request looked up, and anything else reported. */
  lemma OpeningRuns(cfg: Config, opening: Opening, answers: seq<char>)
    returns (ls: seq<Label>, s: Session)
    requires opening.Opened? ==> opening.packet.StartUp? || opening.packet.Cancel?
    ensures Run(cfg, ls) == Some(s) && s.shared == FRESH_SHARED.(client := Stream(Announced(answers), false))
    ensures s.svc.pc == if opening.Failed? then ServiceFailing(StartupError)
                        else if opening.packet.StartUp? then Deciding(opening.packet.sm)
                        else LookingUp(opening.packet.key)
  {
    var before, b := AnswersRun(cfg, answers);
    var l := Service(if opening.Failed? then StartupFails
                     else if opening.packet.StartUp? then StartupArrives(opening.packet.sm)
                     else CancelArrives(opening.packet.key));
    ls := before + [l];
    RunSnoc(cfg, before, l, b);
    s := Run(cfg, ls).value;
  }
}
