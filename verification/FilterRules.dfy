/** The SQL filter's rules and the verdict they add up to, stated without loops. */
module FilterRules {
  import opened Basics
  import opened NodeGraph

  datatype FilterConfig = FilterConfig(
    allowSelect: bool,
    allowInsert: bool,
    allowUpdate: bool,
    allowDelete: bool,
    allowTruncate: bool,
    allowAlterRole: bool,
    allowSetVar: bool,
    allowExecute: bool,
    requireWhereForUpdate: bool,
    requireWhereForDelete: bool,
    blockSetVars: seq<string>,
    signatureFilterEnabled: bool,
    signatureAllowByDefault: bool,
    signatureAuditMode: bool,
    onParseError: string,
    blockSignatures: seq<string>,
    allowSignatures: seq<string>)

  /** One top-level statement: its node and where its text sits in the query. */
  datatype RawStmt = RawStmt(root: Value, location: int, length: int)

  datatype ParseAnswer = ParseError | Parsed(heap: Heap, stmts: seq<RawStmt>)

  ghost predicate WellFormed(p: ParseAnswer) {
    p.Parsed? ==> Closed(p.heap) && forall s <- p.stmts :: Refs(s.root) <= p.heap.Keys
  }

  type ParseOutcome = p: ParseAnswer | WellFormed(p) witness ParseError

  /** What the filter takes from its libraries: the SQL parser, its normaliser, which may fail,
      and the representative that Unicode simple folding gives a character. */
  datatype Library = Library(
    parse: string -> ParseOutcome,
    normalize: string -> Option<string>,
    fold: char -> char)

  // ---------------------------------------------------------------- text helpers

  /** The white space that `strings.TrimSpace` removes. */
  predicate IsUnicodeSpace(c: char) {
    || '\t' <= c <= '\r' || c == ' ' || c == '\U{0085}' || c == '\U{00A0}' || c == '\U{1680}'
    || '\U{2000}' <= c <= '\U{200A}' || c == '\U{2028}' || c == '\U{2029}' || c == '\U{202F}'
    || c == '\U{205F}' || c == '\U{3000}'
  }

  function TrimLeft(s: string): string {
    if s != "" && IsUnicodeSpace(s[0]) then TrimLeft(s[1..]) else s
  }

  function TrimRight(s: string): string {
    if s != "" && IsUnicodeSpace(s[|s|-1]) then TrimRight(s[..|s|-1]) else s
  }

  function TrimSpace(s: string): string {
    TrimRight(TrimLeft(s))
  }

  /** Unicode's White_Space characters, one by one. */
  predicate IsWhite(c: char) {
    c in {'\t', '\n', '\U{000B}', '\U{000C}', '\r', ' ', '\U{0085}', '\U{00A0}', '\U{1680}',
          '\U{2000}', '\U{2001}', '\U{2002}', '\U{2003}', '\U{2004}', '\U{2005}', '\U{2006}', '\U{2007}',
          '\U{2008}', '\U{2009}', '\U{200A}', '\U{2028}', '\U{2029}', '\U{202F}', '\U{205F}', '\U{3000}'}
  }

  lemma UnicodeSpaceIsWhite(c: char)
    ensures IsUnicodeSpace(c) <==> IsWhite(c)
  {
    if '\t' <= c <= '\r' {
      assert 9 <= c as int <= 13;
    } else if '\U{2000}' <= c <= '\U{200A}' {
      assert 0x2000 <= c as int <= 0x200A;
    }
  }

  ghost predicate AllWhite(s: string) {
    forall i | 0 <= i < |s| :: IsWhite(s[i])
  }

  /** `t` is `s` without the white space around it. */
  ghost predicate IsTrimmed(s: string, t: string) {
    && (t != "" ==> !IsWhite(t[0]) && !IsWhite(t[|t|-1]))
    && exists pre, post :: s == pre + t + post && AllWhite(pre) && AllWhite(post)
  }

  lemma {:induction false} TrimLeftDrops(s: string) returns (pre: string)
    ensures s == pre + TrimLeft(s) && AllWhite(pre)
    ensures TrimLeft(s) != "" ==> !IsUnicodeSpace(TrimLeft(s)[0])
  {
    pre := "";
    if s != "" && IsUnicodeSpace(s[0]) {
      UnicodeSpaceIsWhite(s[0]);
      pre := TrimLeftDrops(s[1..]);
      pre := [s[0]] + pre;
    }
  }

  lemma {:induction false} TrimRightDrops(s: string) returns (post: string)
    ensures s == TrimRight(s) + post && AllWhite(post)
    ensures TrimRight(s) != "" ==> !IsUnicodeSpace(TrimRight(s)[|TrimRight(s)|-1]) && TrimRight(s)[0] == s[0]
  {
    post := "";
    if s != "" && IsUnicodeSpace(s[|s|-1]) {
      UnicodeSpaceIsWhite(s[|s|-1]);
      post := TrimRightDrops(s[..|s|-1]);
      post := post + [s[|s|-1]];
    }
  }

  lemma TrimSpaceTrims(s: string)
    ensures IsTrimmed(s, TrimSpace(s))
  {
    var pre := TrimLeftDrops(s);
    var post := TrimRightDrops(TrimLeft(s));
    var t := TrimSpace(s);
    if t != "" {
      UnicodeSpaceIsWhite(t[0]);
      UnicodeSpaceIsWhite(t[|t|-1]);
    }
    assert s == pre + t + post;
  }

  /** `stmtText`: the statement's slice of the query, or as much of it as the reported position
      makes sense for. */
  function StmtText(query: string, raw: RawStmt): string {
    var loc := raw.location;
    if loc < 0 || loc > |query| then query
    else if raw.length <= 0 || loc + raw.length > |query| then TrimSpace(query[loc..])
    else TrimSpace(query[loc..loc + raw.length])
  }

  /** A position that makes sense yields that slice of the query, trimmed; another one the query. */
  lemma StmtTextIsSlice(query: string, raw: RawStmt)
    ensures var end := if 0 < raw.length <= |query| - raw.location then raw.location + raw.length else |query|;
            if 0 <= raw.location <= |query| then IsTrimmed(query[raw.location..end], StmtText(query, raw))
            else StmtText(query, raw) == query
  {
    if 0 <= raw.location <= |query| {
      var end := if 0 < raw.length <= |query| - raw.location then raw.location + raw.length else |query|;
      assert query[raw.location..] == query[raw.location..|query|];
      TrimSpaceTrims(query[raw.location..end]);
    }
  }

  /** `strings.EqualFold` over the given folding. */
  predicate EqualFold(fold: char -> char, s: string, t: string) {
    |s| == |t| && forall i | 0 <= i < |s| :: fold(s[i]) == fold(t[i])
  }

  // ---------------------------------------------------------------- one node

  function FieldNamed(v: Value, name: string): Value {
    if v.Struct? then FieldIn(v.fields, name) else Invalid
  }

  function FieldIn(fs: seq<Field>, name: string): Value {
    if fs == [] then Invalid
    else if fs[0].name == name then fs[0].value
    else FieldIn(fs[1..], name)
  }

  predicate LacksWhere(n: Node) {
    FieldNamed(n.elem, "WhereClause").NilPtr?
  }

  function VariableName(n: Node): string {
    var v := FieldNamed(n.elem, "Name");
    if v.Scalar? then v.text else ""
  }

  /** The per-statement-type rule. */
  predicate NodePasses(cfg: FilterConfig, fold: char -> char, n: Node) {
    match n.ty
    case SelectStmt => cfg.allowSelect
    case InsertStmt => cfg.allowInsert
    case UpdateStmt => cfg.allowUpdate && (cfg.requireWhereForUpdate ==> !LacksWhere(n))
    case DeleteStmt => cfg.allowDelete && (cfg.requireWhereForDelete ==> !LacksWhere(n))
    case TruncateStmt => cfg.allowTruncate
    case AlterRoleStmt => cfg.allowAlterRole
    case VariableSetStmt => cfg.allowSetVar && forall b <- cfg.blockSetVars :: !EqualFold(fold, VariableName(n), b)
    case ExecuteStmt => cfg.allowExecute
    case OtherType => true
  }

  // ---------------------------------------------------------------- one statement, one query

  /** The signature lists' answer, before audit mode has its say. */
  predicate SignatureBlocked(cfg: FilterConfig, sig: string) {
    sig in cfg.blockSignatures || (sig !in cfg.allowSignatures && !cfg.signatureAllowByDefault)
  }

  /** A statement whose signature cannot be computed fails, audit mode or not. */
  predicate SignaturePasses(cfg: FilterConfig, lib: Library, query: string, raw: RawStmt) {
    cfg.signatureFilterEnabled ==>
      var sig := lib.normalize(StmtText(query, raw));
      sig.Some? && (SignatureBlocked(cfg, TrimSpace(sig.value)) ==> cfg.signatureAuditMode)
  }

  /** Every node reachable from the root passes its type's rule. */
  ghost predicate NodesPass(cfg: FilterConfig, fold: char -> char, h: Heap, root: Value) {
    forall n | n in h && Reachable(h, root, n) :: NodePasses(cfg, fold, h[n])
  }

  ghost predicate StatementPasses(cfg: FilterConfig, lib: Library, query: string, h: Heap, raw: RawStmt) {
    SignaturePasses(cfg, lib, query, raw) && NodesPass(cfg, lib.fold, h, raw.root)
  }

  predicate PassesUnparsed(cfg: FilterConfig) {
    cfg.onParseError == "allow" || cfg.onParseError == "audit"
  }

  /** The filter's meaning. */
  ghost predicate Allowed(cfg: FilterConfig, lib: Library, query: string) {
    match lib.parse(query)
    case ParseError => PassesUnparsed(cfg)
    case Parsed(h, stmts) => forall s <- stmts :: StatementPasses(cfg, lib, query, h, s)
  }
}
