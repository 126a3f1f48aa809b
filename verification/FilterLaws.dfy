/** What the filter's meaning implies: a query's verdict is that of its statements taken one by one,
    and it is monotone in the configuration and in what is embedded. */
module FilterLaws {
  import opened NodeGraph
  import opened FilterRules

  // ---------------------------------------------------------------- trees apart from addresses

  /** Which node of one parse stands for which of another. */
  type Renaming = map<NodeId, NodeId>

  ghost function Image(f: Renaming, s: set<NodeId>): set<NodeId>
    requires s <= f.Keys
  {
    set n | n in s :: f[n]
  }

  /** The rules see the same in both nodes. */
  ghost predicate SameToRules(m: Node, n: Node) {
    m.ty == n.ty && LacksWhere(m) == LacksWhere(n) && VariableName(m) == VariableName(n)
  }

  /** A node of `h` has a counterpart in `g` that looks the same to the rules and points to at least
      as much. */
  ghost predicate NodeEmbeds(h: Heap, g: Heap, f: Renaming, n: NodeId)
    requires n in f
  {
    && n in h && f[n] in g && SameToRules(h[n], g[f[n]])
    && Refs(h[n].elem) <= f.Keys && Image(f, Refs(h[n].elem)) <= Refs(g[f[n]].elem)
  }

  /** All that `v` points to in `h` is there in `g` under `w`, at other addresses, perhaps with more
      embedded into it. */
  ghost predicate Embeds(h: Heap, v: Value, g: Heap, w: Value, f: Renaming) {
    && Refs(v) <= f.Keys && Image(f, Refs(v)) <= Refs(w)
    && forall n <- f.Keys :: NodeEmbeds(h, g, f, n)
  }

  ghost predicate NothingMore(h: Heap, g: Heap, f: Renaming, n: NodeId)
    requires n in f && NodeEmbeds(h, g, f, n)
  {
    Refs(g[f[n]].elem) <= Image(f, Refs(h[n].elem))
  }

  /** The same at other addresses, with nothing embedded. */
  ghost predicate SameTree(h: Heap, v: Value, g: Heap, w: Value, f: Renaming) {
    && Embeds(h, v, g, w, f) && Refs(w) <= Image(f, Refs(v))
    && forall n <- f.Keys :: NothingMore(h, g, f, n)
  }

  lemma ReachStepIsThere(h: Heap, v: Value, g: Heap, w: Value, f: Renaming, m: NodeId, n: NodeId)
    requires Embeds(h, v, g, w, f) && m in f && m in h && n in Refs(h[m].elem)
    requires f[m] in g && Reachable(g, w, f[m])
    ensures n in f && f[n] in g && Reachable(g, w, f[n])
  {
    assert NodeEmbeds(h, g, f, m);
    assert f[n] in Image(f, Refs(h[m].elem));
    assert NodeEmbeds(h, g, f, n);
    ReachOneMore(g, w, f[m], f[n]);
  }

  lemma FirstIsThere(h: Heap, v: Value, g: Heap, w: Value, f: Renaming, n: NodeId)
    requires Embeds(h, v, g, w, f) && n in Refs(v)
    ensures n in f && f[n] in g && Reachable(g, w, f[n])
  {
    assert f[n] in Image(f, Refs(v));
    assert NodeEmbeds(h, g, f, n);
    ReachFirst(g, w, f[n]);
  }

  /** A path of the first tree leads to the same places in the second. */
  lemma {:induction false} PathIsThere(h: Heap, v: Value, g: Heap, w: Value, f: Renaming, p: seq<NodeId>, i: nat)
    requires Embeds(h, v, g, w, f) && IsPath(h, v, p) && i < |p|
    ensures p[i] in f && f[p[i]] in g && Reachable(g, w, f[p[i]])
    decreases i
  {
    if i == 0 {
      FirstIsThere(h, v, g, w, f, p[0]);
    } else {
      PathIsThere(h, v, g, w, f, p, i - 1);
      ReachStepIsThere(h, v, g, w, f, p[i-1], p[i]);
    }
  }

  lemma EmbeddedReach(h: Heap, v: Value, g: Heap, w: Value, f: Renaming, n: NodeId)
    requires Embeds(h, v, g, w, f) && Reachable(h, v, n)
    ensures n in f && f[n] in g && Reachable(g, w, f[n])
  {
    var p :| IsPath(h, v, p) && p[|p|-1] == n;
    PathIsThere(h, v, g, w, f, p, |p| - 1);
  }

  /** A path in the renamed tree was one in the first. */
  lemma {:induction false} PathWasThere(h: Heap, v: Value, g: Heap, w: Value, f: Renaming, q: seq<NodeId>, i: nat)
    returns (n: NodeId)
    requires SameTree(h, v, g, w, f) && IsPath(g, w, q) && i < |q|
    ensures n in f && f[n] == q[i] && Reachable(h, v, n)
  {
    if i == 0 {
      assert q[0] in Image(f, Refs(v));
      n :| n in Refs(v) && f[n] == q[0];
      assert NodeEmbeds(h, g, f, n);
      ReachFirst(h, v, n);
    } else {
      var m := PathWasThere(h, v, g, w, f, q, i - 1);
      assert NodeEmbeds(h, g, f, m) && NothingMore(h, g, f, m);
      assert q[i] in Image(f, Refs(h[m].elem));
      n :| n in Refs(h[m].elem) && f[n] == q[i];
      assert NodeEmbeds(h, g, f, n);
      ReachOneMore(h, v, m, n);
    }
  }

  lemma SameToRulesSamePass(cfg: FilterConfig, fold: char -> char, m: Node, n: Node)
    requires SameToRules(m, n)
    ensures NodePasses(cfg, fold, m) <==> NodePasses(cfg, fold, n)
  {
  }

  /** What passes with something embedded passes without it. */
  lemma EmbeddedNodesPass(cfg: FilterConfig, fold: char -> char, h: Heap, v: Value, g: Heap, w: Value, f: Renaming)
    requires Embeds(h, v, g, w, f) && NodesPass(cfg, fold, g, w)
    ensures NodesPass(cfg, fold, h, v)
  {
    forall n | n in h && Reachable(h, v, n) ensures NodePasses(cfg, fold, h[n]) {
      EmbeddedReach(h, v, g, w, f, n);
      assert NodeEmbeds(h, g, f, n);
      SameToRulesSamePass(cfg, fold, h[n], g[f[n]]);
    }
  }

  lemma RenamedNodePasses(cfg: FilterConfig, fold: char -> char, h: Heap, v: Value, g: Heap, w: Value, f: Renaming,
                          m: NodeId)
    requires SameTree(h, v, g, w, f) && NodesPass(cfg, fold, h, v) && m in g && Reachable(g, w, m)
    ensures NodePasses(cfg, fold, g[m])
  {
    var q :| IsPath(g, w, q) && q[|q|-1] == m;
    var n := PathWasThere(h, v, g, w, f, q, |q| - 1);
    assert NodeEmbeds(h, g, f, n);
    assert NodePasses(cfg, fold, h[n]);
    SameToRulesSamePass(cfg, fold, h[n], g[m]);
  }

  /** What passes in the first tree passes in the renamed one. */
  lemma RenamedNodesPass(cfg: FilterConfig, fold: char -> char, h: Heap, v: Value, g: Heap, w: Value, f: Renaming)
    requires SameTree(h, v, g, w, f) && NodesPass(cfg, fold, h, v)
    ensures NodesPass(cfg, fold, g, w)
  {
    forall m | m in g && Reachable(g, w, m) ensures NodePasses(cfg, fold, g[m]) {
      RenamedNodePasses(cfg, fold, h, v, g, w, f, m);
    }
  }

  // ---------------------------------------------------------------- one statement at a time

  /** `single` parses to one statement: the i-th of `query`, with the same text, in a tree of its own. */
  ghost predicate IsSingle(lib: Library, query: string, i: nat, single: string, f: Renaming) {
    && lib.parse(query).Parsed? && i < |lib.parse(query).stmts|
    && lib.parse(single).Parsed? && |lib.parse(single).stmts| == 1
    && var p, q := lib.parse(query), lib.parse(single);
    && SameTree(p.heap, p.stmts[i].root, q.heap, q.stmts[0].root, f)
    && StmtText(single, q.stmts[0]) == StmtText(query, p.stmts[i])
  }

  lemma OnlyStatement(cfg: FilterConfig, lib: Library, query: string)
    requires lib.parse(query).Parsed? && |lib.parse(query).stmts| == 1
    ensures Allowed(cfg, lib, query) <==>
            StatementPasses(cfg, lib, query, lib.parse(query).heap, lib.parse(query).stmts[0])
  {
  }

  lemma SingleVerdict(cfg: FilterConfig, lib: Library, query: string, i: nat, single: string, f: Renaming)
    requires IsSingle(lib, query, i, single, f)
    ensures Allowed(cfg, lib, single) <==>
            StatementPasses(cfg, lib, query, lib.parse(query).heap, lib.parse(query).stmts[i])
  {
    var p, q := lib.parse(query), lib.parse(single);
    var raw, alone := p.stmts[i], q.stmts[0];
    if NodesPass(cfg, lib.fold, p.heap, raw.root) {
      RenamedNodesPass(cfg, lib.fold, p.heap, raw.root, q.heap, alone.root, f);
    } else if NodesPass(cfg, lib.fold, q.heap, alone.root) {
      EmbeddedNodesPass(cfg, lib.fold, p.heap, raw.root, q.heap, alone.root, f);
    }
    assert SignaturePasses(cfg, lib, single, alone) <==> SignaturePasses(cfg, lib, query, raw);
    OnlyStatement(cfg, lib, single);
  }

  /** The verdict of a query is the conjunction of the verdicts of its statements, each sent as a
      query of its own and parsed anew. */
  lemma VerdictIsConjunctionOfSingles(cfg: FilterConfig, lib: Library, query: string,
                                      singles: seq<string>, fs: seq<Renaming>)
    requires lib.parse(query).Parsed? && |singles| == |fs| == |lib.parse(query).stmts|
    requires forall i | 0 <= i < |singles| :: IsSingle(lib, query, i, singles[i], fs[i])
    ensures Allowed(cfg, lib, query) <==> forall i | 0 <= i < |singles| :: Allowed(cfg, lib, singles[i])
  {
    var p := lib.parse(query);
    forall i | 0 <= i < |singles|
      ensures Allowed(cfg, lib, singles[i]) <==> StatementPasses(cfg, lib, query, p.heap, p.stmts[i])
    {
      SingleVerdict(cfg, lib, query, i, singles[i], fs[i]);
    }
    if forall i | 0 <= i < |singles| :: Allowed(cfg, lib, singles[i]) {
      StatementsPassed(cfg, lib, query);
    }
  }

  lemma StatementsPassed(cfg: FilterConfig, lib: Library, query: string)
    requires lib.parse(query).Parsed?
    requires var p := lib.parse(query);
             forall i | 0 <= i < |p.stmts| :: StatementPasses(cfg, lib, query, p.heap, p.stmts[i])
    ensures Allowed(cfg, lib, query)
  {
  }

  // ---------------------------------------------------------------- monotonicity

  /** `d` is nowhere stricter than `c`. */
  ghost predicate Looser(c: FilterConfig, d: FilterConfig) {
    && (c.allowSelect ==> d.allowSelect)
    && (c.allowInsert ==> d.allowInsert)
    && (c.allowUpdate ==> d.allowUpdate)
    && (c.allowDelete ==> d.allowDelete)
    && (c.allowTruncate ==> d.allowTruncate)
    && (c.allowAlterRole ==> d.allowAlterRole)
    && (c.allowSetVar ==> d.allowSetVar)
    && (c.allowExecute ==> d.allowExecute)
    && (d.requireWhereForUpdate ==> c.requireWhereForUpdate)
    && (d.requireWhereForDelete ==> c.requireWhereForDelete)
    && (forall b <- d.blockSetVars :: b in c.blockSetVars)
    && (d.signatureFilterEnabled ==> c.signatureFilterEnabled)
    && (c.signatureAllowByDefault ==> d.signatureAllowByDefault)
    && (c.signatureAuditMode ==> d.signatureAuditMode)
    && (forall b <- d.blockSignatures :: b in c.blockSignatures)
    && (forall a <- c.allowSignatures :: a in d.allowSignatures)
    && (PassesUnparsed(c) ==> PassesUnparsed(d))
  }

  /** Loosening the configuration in any field never turns allowed into blocked. */
  lemma LooserAllowsMore(c: FilterConfig, d: FilterConfig, lib: Library, query: string)
    requires Looser(c, d) && Allowed(c, lib, query)
    ensures Allowed(d, lib, query)
  {
    match lib.parse(query)
    case ParseError =>
    case Parsed(h, stmts) =>
      forall s | s in stmts ensures StatementPasses(d, lib, query, h, s) {
        assert StatementPasses(c, lib, query, h, s);
        forall n | n in h && Reachable(h, s.root, n) ensures NodePasses(d, lib.fold, h[n]) {
          assert NodePasses(c, lib.fold, h[n]);
        }
      }
  }

  /** A node that breaks its rule blocks the query at any depth of any statement. */
  lemma ViolationAnywhereBlocks(cfg: FilterConfig, lib: Library, query: string, i: nat, n: NodeId)
    requires lib.parse(query).Parsed? && i < |lib.parse(query).stmts|
    requires var p := lib.parse(query);
             n in p.heap && Reachable(p.heap, p.stmts[i].root, n) && !NodePasses(cfg, lib.fold, p.heap[n])
    ensures !Allowed(cfg, lib, query)
  {
    var p := lib.parse(query);
    assert !StatementPasses(cfg, lib, query, p.heap, p.stmts[i]);
  }

  /** The statements of `query` are those of `grown` before something was embedded in them, and the
      signature rule is no easier on them for that. */
  ghost predicate GrewInto(cfg: FilterConfig, lib: Library, query: string, grown: string, fs: seq<Renaming>) {
    && lib.parse(query).Parsed? && lib.parse(grown).Parsed?
    && var p, q := lib.parse(query), lib.parse(grown);
    && |p.stmts| == |q.stmts| == |fs|
    && forall i | 0 <= i < |fs| ::
         && Embeds(p.heap, p.stmts[i].root, q.heap, q.stmts[i].root, fs[i])
         && (SignaturePasses(cfg, lib, grown, q.stmts[i]) ==> SignaturePasses(cfg, lib, query, p.stmts[i]))
  }

  /** Embedding anything, anywhere in a query's statements, never turns blocked into allowed. */
  lemma EmbeddingNeverUnblocks(cfg: FilterConfig, lib: Library, query: string, grown: string, fs: seq<Renaming>)
    requires GrewInto(cfg, lib, query, grown, fs) && Allowed(cfg, lib, grown)
    ensures Allowed(cfg, lib, query)
  {
    var p, q := lib.parse(query), lib.parse(grown);
    forall i | 0 <= i < |p.stmts| ensures StatementPasses(cfg, lib, query, p.heap, p.stmts[i]) {
      assert StatementPasses(cfg, lib, grown, q.heap, q.stmts[i]);
      EmbeddedNodesPass(cfg, lib.fold, p.heap, p.stmts[i].root, q.heap, q.stmts[i].root, fs[i]);
    }
    StatementsPassed(cfg, lib, query);
  }
}
