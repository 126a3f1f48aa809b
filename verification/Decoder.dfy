/** Under which authentication type the request relay decodes the client's replies. The relay learns
    the types over a channel that it empties before it blocks, so it can be behind the request that
    the client answers, or ahead of it. When, exactly. */
module Decoder {
  import opened Basics
  import opened Startup
  import opened Session
  import opened SessionSafety
  import SessionStreams

  // ---------------------------------------------------------------- behind the backend

  /** The decoder's type is the last of a prefix of what the backend asked for, and the channel
      holds what follows: it lags by at most four, plus the one being sent. */
  ghost predicate LagsInOrder(a: AuthPipe, asked: seq<AuthType>) {
    && a.taken <= |asked| <= a.taken + 5
    && a.held == (if a.taken == 0 then AuthOk else asked[a.taken - 1])
    && a.chan <= asked[a.taken..]
  }

  lemma PipeLags(a: AuthPipe, pending: Option<AuthType>, fromBackend: seq<BackMsg>)
    requires PipeInv(a) && SentInv(a.sent, pending, fromBackend)
    ensures LagsInOrder(a, AuthTypes(fromBackend))
  {
    assert AuthTypes(fromBackend)[a.taken..] == a.chan + AuthTypes(fromBackend)[|a.sent|..];
  }

  lemma DecoderLagsInOrder(cfg: Config, ls: seq<Label>)
    requires Run(cfg, ls).Some?
    ensures LagsInOrder(Run(cfg, ls).value.shared.auth, AuthTypes(Run(cfg, ls).value.resp.fromBackend))
  {
    RunsAreSafe(cfg, ls);
    var s := Run(cfg, ls).value;
    PipeLags(s.shared.auth, PendingAuth(s.resp.pc), s.resp.fromBackend);
  }

  /** The type of the last authentication request that was sent down the channel. */
  function LatestAuth(a: AuthPipe): AuthType {
    if a.sent == [] then AuthOk else a.sent[|a.sent|-1]
  }

  /** A reply is decoded under the latest request's type just when the channel is empty at that
      moment, or ends in the type already held. */
  lemma DecodedAsLatestIff(cfg: Config, ls: seq<Label>, payload: string, claimed: AuthType)
    requires Run(cfg, ls).Some? && Run(cfg, ls).value.req.pc.Receiving? && Run(cfg, ls).value.shared.spawned
    ensures var s := Run(cfg, ls).value;
            var a := RequestStep(s.req, s.shared, Receive(AuthReply(payload, claimed))).value;
            a.side.pc.m.decodedAs == LatestAuth(s.shared.auth)
            <==> s.shared.auth.chan == [] || s.shared.auth.chan[|s.shared.auth.chan|-1] == s.shared.auth.held
  {
    assert PipeInv(Run(cfg, ls).value.shared.auth) by { RunsAreSafe(cfg, ls); }
    LatestInChannel(Run(cfg, ls).value.shared.auth);
  }

  lemma LatestInChannel(a: AuthPipe)
    requires PipeInv(a)
    ensures LatestAuth(a) == if a.chan == [] then a.held else a.chan[|a.chan|-1]
  {
  }

  // ---------------------------------------------------------------- against what the client was sent

  /** The types of the requests that the client has been sent. */
  function Asked(out: seq<ClientOut>): seq<AuthType> {
    AuthTypes(SessionStreams.RelayedPart(out))
  }

  /** The n-th type; before the first, what the decoder starts with. */
  function TypeAt(types: seq<AuthType>, n: nat): AuthType
    requires n <= |types|
  {
    if n == 0 then AuthOk else types[n - 1]
  }

  function LastOf(types: seq<AuthType>): AuthType {
    TypeAt(types, |types|)
  }

  predicate RelayingAuth(pc: ResponsePc) {
    pc.Relaying? && pc.m.AuthRequest? && !pc.m.at.AuthOk?
  }

  /** In step: as far as the last request that was relayed, the channel holds nothing of another type
      than the one held; and if the request that is still to be relayed has been taken already, then
      it is of the type of the one sent before it, which only the history of the channel tells. */
  predicate InStep(a: AuthPipe, relaying: bool) {
    if !relaying then a.chan == [] || a.chan[|a.chan|-1] == a.held
    else if |a.chan| >= 2 then a.chan[|a.chan|-2] == a.held
    else |a.chan| == 1 || a.sent == [] || a.held == TypeAt(a.sent, |a.sent| - 1)
  }

  lemma {:induction false} AuthTypesKeepPrefix(ms: seq<BackMsg>, ns: seq<BackMsg>)
    requires ms <= ns
    ensures AuthTypes(ms) <= AuthTypes(ns)
  {
    if |ms| < |ns| {
      AuthTypesKeepPrefix(ms, ns[..|ns|-1]);
    } else {
      assert ms == ns;
    }
  }

  lemma AuthTypesSnoc(ms: seq<BackMsg>, m: BackMsg)
    ensures AuthTypes(ms + [m]) == AuthTypes(ms) + if m.AuthRequest? && !m.at.AuthOk? then [m.at] else []
  {
    assert (ms + [m])[..|ms|] == ms;
  }

  lemma {:induction false} NeverAuthOk(ms: seq<BackMsg>)
    ensures AuthOk !in AuthTypes(ms)
  {
    if ms != [] {
      NeverAuthOk(ms[..|ms|-1]);
    }
  }

  lemma HeldIsLast(shown: seq<BackMsg>, m: BackMsg, sent: seq<AuthType>, pending: Option<AuthType>)
    requires SentInv(sent, pending, shown + [m]) && (pending.Some? ==> m == AuthRequest(pending.value))
    ensures var types := AuthTypes(shown);
            if pending.None? && m.AuthRequest? && !m.at.AuthOk? then sent == types + [m.at] else sent == types
  {
    var types, more := AuthTypes(shown), AuthTypes(shown + [m]);
    AuthTypesSnoc(shown, m);
    NeverAuthOk(shown + [m]);
    if pending.Some? {
      assert more == sent + [pending.value];
      assert more[|sent|] in more;
      assert more == types + [pending.value];
      assert sent == more[..|more|-1] == types;
    }
  }

  /** What the client was sent is what went down the channel, without a request yet to be relayed. */
  lemma AskedAndSent(out: seq<ClientOut>, p: ResponseSide, sent: seq<AuthType>)
    requires SessionStreams.RelayedInv(Stream(out, false), SessionStreams.InFlight(p.pc), p.fromBackend)
    requires SentInv(sent, PendingAuth(p.pc), p.fromBackend)
    ensures if RelayingAuth(p.pc) then sent == Asked(out) + [p.pc.m.at] else sent == Asked(out)
  {
    var shown, held := SessionStreams.RelayedPart(out), SessionStreams.InFlight(p.pc);
    if held.Some? {
      assert p.fromBackend == shown + [held.value];
      HeldIsLast(shown, held.value, sent, PendingAuth(p.pc));
    } else {
      assert p.fromBackend == shown;
    }
  }

  lemma InStepIff(a: AuthPipe, relaying: bool, asked: seq<AuthType>)
    requires PipeInv(a)
    requires if relaying then a.sent != [] && asked == a.sent[..|a.sent|-1] else asked == a.sent
    ensures InStep(a, relaying) <==> a.held == LastOf(asked)
  {
  }

  lemma HeldIsTypeAt(a: AuthPipe, pending: Option<AuthType>, fromBackend: seq<BackMsg>)
    requires PipeInv(a) && SentInv(a.sent, pending, fromBackend)
    ensures a.taken <= |AuthTypes(fromBackend)| && a.held == TypeAt(AuthTypes(fromBackend), a.taken)
  {
  }

  /** In any run, a reply is decoded under the last request that the client was sent just when the
      backend's requests that the relay has taken and those that the client was sent end alike; and,
      while the client can be written to, just when the relay is in step. */
  lemma DecodedAsAskedIff(cfg: Config, ls: seq<Label>, s: Session, m: FrontMsg)
    requires Run(cfg, ls) == Some(s) && s.shared.spawned && s.req.pc.Receiving? && m.AuthReply?
    ensures Asked(s.shared.client.out) <= AuthTypes(s.resp.fromBackend)
    ensures s.shared.auth.taken <= |AuthTypes(s.resp.fromBackend)|
    ensures var decoded := RequestStep(s.req, s.shared, Receive(m)).value.side.pc.m.decodedAs;
            var asked, types := Asked(s.shared.client.out), AuthTypes(s.resp.fromBackend);
            && (decoded == LastOf(asked) <==> TypeAt(types, s.shared.auth.taken) == TypeAt(types, |asked|))
            && (!s.shared.client.broken ==>
                  (decoded == LastOf(asked) <==> InStep(s.shared.auth, RelayingAuth(s.resp.pc))))
  {
    RunsAreSafe(cfg, ls);
    AskedIsPrefix(cfg, ls, s);
    HeldIsTypeAt(s.shared.auth, PendingAuth(s.resp.pc), s.resp.fromBackend);
    assert RequestStep(s.req, s.shared, Receive(m)).value.side.pc.m.decodedAs == s.shared.auth.held;
    if !s.shared.client.broken {
      InStepInRuns(cfg, ls, s);
    }
  }

  lemma AskedIsPrefix(cfg: Config, ls: seq<Label>, s: Session)
    requires Run(cfg, ls) == Some(s)
    ensures Asked(s.shared.client.out) <= AuthTypes(s.resp.fromBackend)
  {
    SessionStreams.ClientStreamIsMerge(cfg, ls, s);
    AuthTypesKeepPrefix(SessionStreams.RelayedPart(s.shared.client.out), s.resp.fromBackend);
  }

  lemma InStepInRuns(cfg: Config, ls: seq<Label>, s: Session)
    requires Run(cfg, ls) == Some(s) && !s.shared.client.broken
    ensures InStep(s.shared.auth, RelayingAuth(s.resp.pc)) <==> s.shared.auth.held == LastOf(Asked(s.shared.client.out))
  {
    RunsAreSafe(cfg, ls);
    SessionStreams.RunsKeepStreams(cfg, ls);
    assert s.shared.client == Stream(s.shared.client.out, false);
    AskedAndSent(s.shared.client.out, s.resp, s.shared.auth.sent);
    InStepIff(s.shared.auth, RelayingAuth(s.resp.pc), Asked(s.shared.client.out));
  }

  // ---------------------------------------------------------------- it happens

  /** The channel does not keep the decoder up to date: the relay drains it before it blocks, so
      a client that answers the request it was sent may be decoded under the previous type. */
  lemma DecoderCanBeStale(sm: StartupMessage, db: DBConfig) returns (cfg: Config, ls: seq<Label>)
    ensures Run(cfg, ls).Some?
    ensures var s := Run(cfg, ls).value;
            && s.shared.client.out == [Relayed(AuthRequest(SASL))]
            && s.req.received == [AuthReply("reply", AuthOk)]
  {
    cfg, ls := Connected(sm, db);
    ls := Go(cfg, ls, Request(FindEmpty));
    ls := Go(cfg, ls, Response(Hear(AuthRequest(SASL))));
    ls := Go(cfg, ls, Response(SendAuth));
    ls := Go(cfg, ls, Response(Relay(true)));
    ls := Go(cfg, ls, Request(Receive(AuthReply("reply", SASL))));
  }

  /** It can also be ahead: a request that has gone down the channel but not to the client is already
      taken when the client answers the one before. */
  lemma DecoderCanBeEarly(sm: StartupMessage, db: DBConfig) returns (cfg: Config, ls: seq<Label>)
    ensures Run(cfg, ls).Some?
    ensures var s := Run(cfg, ls).value;
            && s.shared.client.out == [Relayed(AuthRequest(Cleartext))]
            && s.req.received == [AuthReply("reply", MD5)]
  {
    cfg, ls := AskedOnce(sm, db);
    ls := Go(cfg, ls, Response(Hear(AuthRequest(MD5))));
    ls := Go(cfg, ls, Response(SendAuth));
    ls := Go(cfg, ls, Request(TakeAuth));
    ls := Go(cfg, ls, Request(FindEmpty));
    ls := Go(cfg, ls, Request(Receive(AuthReply("reply", Cleartext))));
  }

  lemma AskedOnce(sm: StartupMessage, db: DBConfig) returns (cfg: Config, ls: seq<Label>)
    ensures Run(cfg, ls).Some?
    ensures var s := Run(cfg, ls).value;
            && s.shared.spawned && s.req == FRESH_REQUEST && s.resp.pc.Listening?
            && s.shared.auth.chan == [] && s.shared.client == Stream([Relayed(AuthRequest(Cleartext))], false)
  {
    cfg, ls := Connected(sm, db);
    ls := Go(cfg, ls, Response(Hear(AuthRequest(Cleartext))));
    ls := Go(cfg, ls, Response(SendAuth));
    ls := Go(cfg, ls, Response(Relay(true)));
    ls := Go(cfg, ls, Request(TakeAuth));
  }
}
