/** `UpdateConfig` and `Filter` calls interleaved, one atomic step at a time: a reload stores a
    configuration, a call loads one and then judges its statements one by one. */
module ReloadRuns {
  import opened Basics
  import opened NodeGraph
  import opened FilterRules

  datatype Call =
    | Running(cfg: FilterConfig, query: string, next: nat)
    | Finished(query: string, verdict: bool)

  datatype State = State(config: FilterConfig, calls: map<nat, Call>)

  /** `Reload(None)` is a SIGHUP whose file could not be read. */
  datatype Label =
    | Reload(file: Option<FilterConfig>)
    | Begin(id: nat, query: string)
    | Advance(id: nat)

  ghost function AdvanceCall(lib: Library, c: Call): Call
    requires c.Running?
  {
    match lib.parse(c.query)
    case ParseError => Finished(c.query, PassesUnparsed(c.cfg))
    case Parsed(h, stmts) =>
      if c.next >= |stmts| then Finished(c.query, true)
      else if StatementPasses(c.cfg, lib, c.query, h, stmts[c.next]) then c.(next := c.next + 1)
      else Finished(c.query, false)
  }

  /** What one step does; a step that is not enabled leaves the state as it is. */
  ghost function Step(lib: Library, s: State, l: Label): State {
    match l
    case Reload(None) => s
    case Reload(Some(cfg)) => s.(config := cfg)
    case Begin(id, query) => if id in s.calls then s else s.(calls := s.calls[id := Running(s.config, query, 0)])
    case Advance(id) =>
      if id in s.calls && s.calls[id].Running? then s.(calls := s.calls[id := AdvanceCall(lib, s.calls[id])]) else s
  }

  ghost function Run(lib: Library, s: State, ls: seq<Label>): State {
    if ls == [] then s else Step(lib, Run(lib, s, ls[..|ls|-1]), ls[|ls|-1])
  }

  /** `c` is what the last successful reload in `ls` stored, or the first configuration. */
  ghost predicate IsCurrent(first: FilterConfig, ls: seq<Label>, c: FilterConfig) {
    || (c == first && forall i | 0 <= i < |ls| :: !IsStore(ls[i]))
    || (exists k | 0 <= k < |ls| :: ls[k] == Reload(Some(c)) && forall i | k < i < |ls| :: !IsStore(ls[i]))
  }

  predicate IsStore(l: Label) {
    l.Reload? && l.file.Some?
  }

  /** After any sequence of reloads, successful or not, and whatever calls run beside them, the
      configuration is that of the last successful reload. */
  lemma {:induction false} LastReloadWins(lib: Library, first: FilterConfig, ls: seq<Label>)
    ensures IsCurrent(first, ls, Run(lib, State(first, map[]), ls).config)
  {
    if ls != [] {
      var n := |ls| - 1;
      LastReloadWins(lib, first, ls[..n]);
      var c := Run(lib, State(first, map[]), ls[..n]).config;
      if IsStore(ls[n]) {
        assert ls[n] == Reload(Some(ls[n].file.value));
      } else if !(c == first && forall i | 0 <= i < n :: !IsStore(ls[..n][i])) {
        var k :| 0 <= k < n && ls[..n][k] == Reload(Some(c)) && forall i | k < i < n :: !IsStore(ls[..n][i]);
        assert ls[k] == Reload(Some(c)) && forall i | k < i < |ls| :: !IsStore(ls[i]) by {
          assert forall i | k < i < n :: ls[i] == ls[..n][i];
        }
      } else {
        assert forall i | 0 <= i < n :: ls[i] == ls[..n][i];
      }
    }
  }

  /** The call loaded a configuration that was current when it began. */
  ghost predicate LoadedAtStart(first: FilterConfig, ls: seq<Label>, id: nat, query: string, cfg: FilterConfig) {
    exists k | 0 <= k < |ls| :: ls[k] == Begin(id, query) && IsCurrent(first, ls[..k], cfg)
  }

  /** The first `k` statements pass. */
  ghost predicate FirstPass(cfg: FilterConfig, lib: Library, query: string, h: Heap, stmts: seq<RawStmt>, k: nat) {
    || k == 0
    || (k <= |stmts| && FirstPass(cfg, lib, query, h, stmts, k - 1)
        && StatementPasses(cfg, lib, query, h, stmts[k - 1]))
  }

  lemma {:induction false} FirstPassCovers(cfg: FilterConfig, lib: Library, query: string, h: Heap,
                                           stmts: seq<RawStmt>, k: nat, j: nat)
    requires j < k <= |stmts| && FirstPass(cfg, lib, query, h, stmts, k)
    ensures StatementPasses(cfg, lib, query, h, stmts[j])
  {
    if j < k - 1 {
      FirstPassCovers(cfg, lib, query, h, stmts, k - 1, j);
    }
  }

  ghost predicate PrefixPasses(lib: Library, c: Call)
    requires c.Running?
  {
    lib.parse(c.query).Parsed? ==>
      var p := lib.parse(c.query);
      c.next <= |p.stmts| && FirstPass(c.cfg, lib, c.query, p.heap, p.stmts, c.next)
  }

  ghost predicate CallCorrect(lib: Library, first: FilterConfig, ls: seq<Label>, id: nat, c: Call) {
    match c
    case Running(cfg, query, _) => LoadedAtStart(first, ls, id, query, cfg) && PrefixPasses(lib, c)
    case Finished(query, verdict) =>
      exists cfg :: LoadedAtStart(first, ls, id, query, cfg) && (verdict <==> Allowed(cfg, lib, query))
  }

  lemma LoadedStaysLoaded(first: FilterConfig, ls: seq<Label>, l: Label, id: nat, query: string, cfg: FilterConfig)
    requires LoadedAtStart(first, ls, id, query, cfg)
    ensures LoadedAtStart(first, ls + [l], id, query, cfg)
  {
    var k :| 0 <= k < |ls| && ls[k] == Begin(id, query) && IsCurrent(first, ls[..k], cfg);
    assert (ls + [l])[k] == Begin(id, query) && (ls + [l])[..k] == ls[..k];
  }

  lemma CorrectStaysCorrect(lib: Library, first: FilterConfig, ls: seq<Label>, l: Label, id: nat, c: Call)
    requires CallCorrect(lib, first, ls, id, c)
    ensures CallCorrect(lib, first, ls + [l], id, c)
  {
    match c
    case Running(cfg, query, _) => LoadedStaysLoaded(first, ls, l, id, query, cfg);
    case Finished(query, verdict) =>
      var cfg :| LoadedAtStart(first, ls, id, query, cfg) && (verdict <==> Allowed(cfg, lib, query));
      LoadedStaysLoaded(first, ls, l, id, query, cfg);
  }

  lemma AllJudged(lib: Library, c: Call)
    requires c.Running? && PrefixPasses(lib, c)
    requires lib.parse(c.query).Parsed? && c.next == |lib.parse(c.query).stmts|
    ensures Allowed(c.cfg, lib, c.query)
  {
    var p := lib.parse(c.query);
    forall s | s in p.stmts ensures StatementPasses(c.cfg, lib, c.query, p.heap, s) {
      var j :| 0 <= j < |p.stmts| && p.stmts[j] == s;
      FirstPassCovers(c.cfg, lib, c.query, p.heap, p.stmts, c.next, j);
    }
  }

  lemma OneRefused(lib: Library, cfg: FilterConfig, query: string, i: nat)
    requires lib.parse(query).Parsed? && i < |lib.parse(query).stmts|
    requires !StatementPasses(cfg, lib, query, lib.parse(query).heap, lib.parse(query).stmts[i])
    ensures !Allowed(cfg, lib, query)
  {
    assert lib.parse(query).stmts[i] in lib.parse(query).stmts;
  }

  lemma AdvanceFinishes(lib: Library, c: Call)
    requires c.Running? && PrefixPasses(lib, c) && AdvanceCall(lib, c).Finished?
    ensures AdvanceCall(lib, c).query == c.query && (AdvanceCall(lib, c).verdict <==> Allowed(c.cfg, lib, c.query))
  {
    if lib.parse(c.query).Parsed? {
      if AdvanceCall(lib, c).verdict {
        AllJudged(lib, c);
      } else {
        OneRefused(lib, c.cfg, c.query, c.next);
      }
    }
  }

  lemma AdvanceContinues(lib: Library, c: Call)
    requires c.Running? && PrefixPasses(lib, c) && AdvanceCall(lib, c).Running?
    ensures AdvanceCall(lib, c) == c.(next := c.next + 1) && PrefixPasses(lib, AdvanceCall(lib, c))
  {
  }

  lemma AdvanceCorrect(lib: Library, first: FilterConfig, ls: seq<Label>, id: nat, c: Call)
    requires c.Running? && CallCorrect(lib, first, ls, id, c)
    ensures CallCorrect(lib, first, ls, id, AdvanceCall(lib, c))
  {
    assert LoadedAtStart(first, ls, id, c.query, c.cfg);
    if AdvanceCall(lib, c).Finished? {
      AdvanceFinishes(lib, c);
    } else {
      AdvanceContinues(lib, c);
    }
  }

  /** In every interleaving, every call's verdict is the verdict under one single
      configuration, the one that was current when the call loaded it. */
  lemma {:induction false} EveryVerdictUnderOneConfig(lib: Library, first: FilterConfig, ls: seq<Label>, id: nat)
    requires id in Run(lib, State(first, map[]), ls).calls
    ensures CallCorrect(lib, first, ls, id, Run(lib, State(first, map[]), ls).calls[id])
  {
    if ls != [] {
      var n := |ls| - 1;
      var before, l := ls[..n], ls[n];
      var s := Run(lib, State(first, map[]), before);
      assert ls == before + [l];
      if id in s.calls {
        EveryVerdictUnderOneConfig(lib, first, before, id);
        if l == Advance(id) && s.calls[id].Running? {
          AdvanceCorrect(lib, first, before, id, s.calls[id]);
        }
        CorrectStaysCorrect(lib, first, before, l, id, Step(lib, s, l).calls[id]);
      } else {
        assert l == Begin(id, l.query);
        LastReloadWins(lib, first, before);
        assert ls[n] == Begin(id, l.query) && IsCurrent(first, ls[..n], s.config);
      }
    }
  }
}
