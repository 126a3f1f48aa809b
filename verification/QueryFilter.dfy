/** `QueryFilter` in its own form: an object whose configuration is swapped in place, and a
    `Filter` of nested early-exit loops, proved against `FilterRules.Allowed`. */
module QueryFilter {
  import opened Basics
  import opened NodeGraph
  import opened FilterRules
  import Walker
  import Redact

  /** The lines that the filter writes for an operator to audit. */
  datatype AuditLine = UnparsedQuery(redacted: string) | BlockedSignature(sig: string)

  /** What one statement adds to the audit log: its signature, when only audit mode lets it by. */
  function SignatureLine(cfg: FilterConfig, lib: Library, query: string, raw: RawStmt): seq<AuditLine> {
    if !cfg.signatureFilterEnabled || !cfg.signatureAuditMode then []
    else
      match lib.normalize(StmtText(query, raw))
      case None => []
      case Some(sig) =>
        if SignatureBlocked(cfg, TrimSpace(sig)) then [BlockedSignature(TrimSpace(sig))] else []
  }

  /** The first statement, from the i-th on, that is refused; `|stmts|` if there is none. */
  ghost function FirstRefused(cfg: FilterConfig, lib: Library, query: string, h: Heap, stmts: seq<RawStmt>, i: nat): nat
    decreases |stmts| - i
  {
    if i >= |stmts| then |stmts|
    else if !StatementPasses(cfg, lib, query, h, stmts[i]) then i
    else FirstRefused(cfg, lib, query, h, stmts, i + 1)
  }

  lemma {:induction false} FirstRefusedDecides(cfg: FilterConfig, lib: Library, query: string, h: Heap,
                                               stmts: seq<RawStmt>, i: nat)
    requires i <= |stmts|
    ensures FirstRefused(cfg, lib, query, h, stmts, i) == |stmts|
       <==> forall s <- stmts[i..] :: StatementPasses(cfg, lib, query, h, s)
    decreases |stmts| - i
  {
    if i < |stmts| {
      FirstRefusedDecides(cfg, lib, query, h, stmts, i + 1);
      assert stmts[i..] == [stmts[i]] + stmts[i + 1..];
    }
  }

  /** The statements' trees are in the heap. */
  ghost predicate RootsIn(h: Heap, stmts: seq<RawStmt>) {
    Closed(h) && forall s <- stmts :: Refs(s.root) <= h.Keys
  }

  lemma RootIn(h: Heap, stmts: seq<RawStmt>, n: nat)
    requires RootsIn(h, stmts) && n < |stmts|
    ensures Closed(h) && Refs(stmts[n].root) <= h.Keys
  {
    assert stmts[n] in stmts;
  }

  /** All statements pass. */
  ghost predicate AllPass(cfg: FilterConfig, lib: Library, query: string, h: Heap, stmts: seq<RawStmt>) {
    forall s <- stmts :: StatementPasses(cfg, lib, query, h, s)
  }

  lemma NoneRefusedIff(cfg: FilterConfig, lib: Library, query: string, h: Heap, stmts: seq<RawStmt>, n: nat)
    requires n == FirstRefused(cfg, lib, query, h, stmts, 0)
    ensures n == |stmts| <==> AllPass(cfg, lib, query, h, stmts)
  {
    FirstRefusedDecides(cfg, lib, query, h, stmts, 0);
    assert stmts[0..] == stmts;
  }

  /** The audit lines of the first `n` statements. */
  ghost function AuditTrail(cfg: FilterConfig, lib: Library, query: string, stmts: seq<RawStmt>, n: nat)
    : seq<AuditLine>
  {
    if n == 0 then []
    else
      AuditTrail(cfg, lib, query, stmts, n - 1) +
      if n <= |stmts| then SignatureLine(cfg, lib, query, stmts[n - 1]) else []
  }

  lemma AuditOneMore(cfg: FilterConfig, lib: Library, query: string, stmts: seq<RawStmt>, i: nat)
    requires i < |stmts|
    ensures AuditTrail(cfg, lib, query, stmts, i + 1) ==
            AuditTrail(cfg, lib, query, stmts, i) + SignatureLine(cfg, lib, query, stmts[i])
  {
  }

  /** The rule-bearing nodes that the walk collects decide for all reachable nodes. */
  lemma CollectedNodesDecide(cfg: FilterConfig, fold: char -> char, h: Heap, root: Value, nodes: seq<NodeId>)
    requires Closed(h) && Refs(root) <= h.Keys && nodes == ExtractStatements(h, root)
    ensures forall n <- nodes :: n in h
    ensures NodesPass(cfg, fold, h, root) <==> forall n <- nodes :: NodePasses(cfg, fold, h[n])
  {
    ExtractIsReachable(h, root);
    if forall n <- nodes :: NodePasses(cfg, fold, h[n]) {
      forall n | n in h && Reachable(h, root, n) ensures NodePasses(cfg, fold, h[n]) {
        assert h[n].ty.OtherType? || n in nodes;
      }
    }
  }

  /** A query that does not parse is only ever logged with its secrets redacted. */
  ghost function AuditOf(cfg: FilterConfig, lib: Library, query: string): seq<AuditLine> {
    match lib.parse(query)
    case ParseError => if cfg.onParseError == "audit" then [UnparsedQuery(Redact.RedactSecrets(query))] else []
    case Parsed(h, stmts) => AuditTrail(cfg, lib, query, stmts, FirstRefused(cfg, lib, query, h, stmts, 0) + 1)
  }

  class Filterer {
    const lib: Library
    var config: FilterConfig

    constructor (config: FilterConfig, lib: Library)
      ensures this.config == config && this.lib == lib
    {
      this.config, this.lib := config, lib;
    }

    method UpdateConfig(config: FilterConfig)
      modifies this
      ensures this.config == config
    {
      this.config := config;
    }

    /** `Filter`: the configuration is loaded once. `audit` is what it logs. */
    method Filter(query: string) returns (ok: bool, audit: seq<AuditLine>)
      ensures ok <==> Allowed(config, lib, query)
      ensures audit == AuditOf(config, lib, query)
    {
      var cfg := config;
      audit := [];
      var result := lib.parse(query);
      if result.ParseError? {
        if cfg.onParseError == "allow" || cfg.onParseError == "audit" {
          if cfg.onParseError == "audit" {
            audit := [UnparsedQuery(Redact.RedactSecrets(query))];
          }
          return true, audit;
        }
        return false, audit;
      }
      var n;
      n, audit := CheckStatements(cfg, query, result.heap, result.stmts);
      ok := n == |result.stmts|;
      NoneRefusedIff(cfg, lib, query, result.heap, result.stmts, n);
    }

    /** The outer loop: `n` is the first statement that is refused, and the audit ends with it. */
    method CheckStatements(cfg: FilterConfig, query: string, h: Heap, stmts: seq<RawStmt>)
      returns (n: nat, audit: seq<AuditLine>)
      requires RootsIn(h, stmts)
      ensures n == FirstRefused(cfg, lib, query, h, stmts, 0)
      ensures audit == AuditTrail(cfg, lib, query, stmts, n + 1)
    {
      n, audit := 0, [];
      while n < |stmts|
        invariant 0 <= n <= |stmts|
        invariant FirstRefused(cfg, lib, query, h, stmts, n) == FirstRefused(cfg, lib, query, h, stmts, 0)
        invariant audit == AuditTrail(cfg, lib, query, stmts, n)
      {
        RootIn(h, stmts, n);
        var pass, line := CheckStatement(cfg, query, h, stmts[n]);
        AuditOneMore(cfg, lib, query, stmts, n);
        audit := audit + line;
        if !pass {
          return n, audit;
        }
        n := n + 1;
      }
    }

    /** One turn of the outer loop. */
    method CheckStatement(cfg: FilterConfig, query: string, h: Heap, raw: RawStmt)
      returns (pass: bool, line: seq<AuditLine>)
      requires Closed(h) && Refs(raw.root) <= h.Keys
      ensures pass <==> StatementPasses(cfg, lib, query, h, raw)
      ensures line == SignatureLine(cfg, lib, query, raw)
    {
      line := [];
      if cfg.signatureFilterEnabled {
        pass, line := CheckSignature(cfg, query, raw);
        if !pass {
          return false, line;
        }
      }
      pass := CheckNodes(cfg, h, raw.root);
    }

    /** The signature rule of one statement: two early-exit searches. */
    method CheckSignature(cfg: FilterConfig, query: string, raw: RawStmt) returns (pass: bool, line: seq<AuditLine>)
      requires cfg.signatureFilterEnabled
      ensures pass <==> SignaturePasses(cfg, lib, query, raw)
      ensures line == SignatureLine(cfg, lib, query, raw)
    {
      line := [];
      var normalized := lib.normalize(StmtText(query, raw));
      if normalized.None? {
        return false, line;
      }
      var sig := TrimSpace(normalized.value);
      var blocked := Contains(cfg.blockSignatures, sig);
      if !blocked {
        var allowed := Contains(cfg.allowSignatures, sig);
        if !allowed && !cfg.signatureAllowByDefault {
          blocked := true;
        }
      }
      if blocked {
        if cfg.signatureAuditMode {
          line := [BlockedSignature(sig)];
        } else {
          return false, line;
        }
      }
      return true, line;
    }

    /** The type rules of one statement, over the nodes that the walk collects. */
    method CheckNodes(cfg: FilterConfig, h: Heap, root: Value) returns (pass: bool)
      requires Closed(h) && Refs(root) <= h.Keys
      ensures pass <==> NodesPass(cfg, lib.fold, h, root)
    {
      var nodes := Walker.CollectStatements(h, root);
      CollectedNodesDecide(cfg, lib.fold, h, root, nodes);
      pass := CheckEach(cfg, h, nodes);
    }

    method CheckEach(cfg: FilterConfig, h: Heap, nodes: seq<NodeId>) returns (pass: bool)
      requires forall n <- nodes :: n in h
      ensures pass <==> forall n <- nodes :: NodePasses(cfg, lib.fold, h[n])
    {
      var i := 0;
      while i < |nodes|
        invariant 0 <= i <= |nodes|
        invariant forall j | 0 <= j < i :: NodePasses(cfg, lib.fold, h[nodes[j]])
      {
        assert nodes[i] in nodes;
        pass := CheckNode(cfg, h[nodes[i]]);
        if !pass {
          return false;
        }
        i := i + 1;
      }
      return true;
    }

    /** The type switch. */
    method CheckNode(cfg: FilterConfig, n: Node) returns (pass: bool)
      ensures pass <==> NodePasses(cfg, lib.fold, n)
    {
      match n.ty {
        case SelectStmt =>
          if !cfg.allowSelect { return false; }
        case DeleteStmt =>
          if !cfg.allowDelete { return false; }
          if cfg.requireWhereForDelete && LacksWhere(n) { return false; }
        case UpdateStmt =>
          if !cfg.allowUpdate { return false; }
          if cfg.requireWhereForUpdate && LacksWhere(n) { return false; }
        case InsertStmt =>
          if !cfg.allowInsert { return false; }
        case TruncateStmt =>
          if !cfg.allowTruncate { return false; }
        case AlterRoleStmt =>
          if !cfg.allowAlterRole { return false; }
        case VariableSetStmt =>
          if !cfg.allowSetVar { return false; }
          var listed := ContainsFolded(cfg.blockSetVars, VariableName(n));
          if listed { return false; }
        case ExecuteStmt =>
          if !cfg.allowExecute { return false; }
        case OtherType =>
      }
      return true;
    }

    method ContainsFolded(names: seq<string>, name: string) returns (found: bool)
      ensures found <==> exists b <- names :: EqualFold(lib.fold, name, b)
    {
      for i := 0 to |names|
        invariant forall j | 0 <= j < i :: !EqualFold(lib.fold, name, names[j])
      {
        if EqualFold(lib.fold, name, names[i]) {
          return true;
        }
      }
      return false;
    }

    /** `Handler`: a refused query is an error, any other is passed on unchanged. */
    method Handler(query: string) returns (r: Option<string>)
      ensures r == if Allowed(config, lib, query) then Some(query) else None
    {
      var ok, _ := Filter(query);
      r := if ok then Some(query) else None;
    }
  }

  method Contains(xs: seq<string>, x: string) returns (found: bool)
    ensures found <==> x in xs
  {
    for i := 0 to |xs|
      invariant x !in xs[..i]
    {
      if x == xs[i] {
        return true;
      }
    }
    return false;
  }
}
