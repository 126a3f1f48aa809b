/** What each field of the filter's configuration decides, by comparing the verdicts under two
    configurations that differ in that field alone. */
module FilterFields {
  import opened Basics
  import opened NodeGraph
  import opened FilterRules
  import FilterLaws

  // ---------------------------------------------------------------- nodes that a query touches

  /** A node of this kind is linked from some statement of the query. */
  ghost predicate Touches(lib: Library, query: string, kind: Node -> bool)
    requires lib.parse(query).Parsed?
  {
    var p := lib.parse(query);
    exists i, n | 0 <= i < |p.stmts| && n in p.heap :: Linked(p.heap, p.stmts[i].root, n) && kind(p.heap[n])
  }

  function OfType(ty: NodeType): Node -> bool {
    (n: Node) => n.ty == ty
  }

  ghost predicate TouchesType(lib: Library, query: string, ty: NodeType)
    requires lib.parse(query).Parsed?
  {
    Touches(lib, query, OfType(ty))
  }

  /** The first field of that name holds this value. */
  ghost predicate HasField(n: Node, name: string, v: Value) {
    n.elem.Struct? &&
    exists i | 0 <= i < |n.elem.fields| ::
      && n.elem.fields[i].name == name && n.elem.fields[i].value == v
      && forall j | 0 <= j < i :: n.elem.fields[j].name != name
  }

  lemma {:induction false} FirstField(fs: seq<Field>, name: string, i: nat)
    requires i < |fs| && fs[i].name == name && forall j | 0 <= j < i :: fs[j].name != name
    ensures FieldIn(fs, name) == fs[i].value
  {
    if i > 0 {
      assert fs[0].name != name;
      forall j | 0 <= j < i - 1 ensures fs[1..][j].name != name {
        assert fs[1..][j] == fs[j + 1];
      }
      FirstField(fs[1..], name, i - 1);
    }
  }

  lemma {:induction false} FieldIsSome(fs: seq<Field>, name: string) returns (i: nat)
    requires FieldIn(fs, name) != Invalid
    ensures i < |fs| && fs[i].name == name && FieldIn(fs, name) == fs[i].value
    ensures forall j | 0 <= j < i :: fs[j].name != name
  {
    if fs[0].name == name {
      i := 0;
    } else {
      i := FieldIsSome(fs[1..], name);
      i := i + 1;
      forall j | 0 <= j < i ensures fs[j].name != name {
        if j > 0 {
          assert fs[1..][j - 1] == fs[j];
        }
      }
    }
  }

  lemma FieldNamedIsFirst(n: Node, name: string, v: Value)
    requires v != Invalid
    ensures FieldNamed(n.elem, name) == v <==> HasField(n, name, v)
  {
    if FieldNamed(n.elem, name) == v {
      var i := FieldIsSome(n.elem.fields, name);
    } else if HasField(n, name, v) {
      var fs := n.elem.fields;
      var i :| 0 <= i < |fs| && fs[i].name == name && fs[i].value == v && forall j | 0 <= j < i :: fs[j].name != name;
      FirstField(fs, name, i);
    }
  }

  /** An UPDATE or DELETE without a WHERE clause. */
  ghost predicate WithoutWhere(n: Node) {
    HasField(n, "WhereClause", NilPtr)
  }

  lemma LacksWhereIff(n: Node)
    ensures LacksWhere(n) <==> WithoutWhere(n)
  {
    FieldNamedIsFirst(n, "WhereClause", NilPtr);
  }

  /** The variable's name, letter for letter up to folding; a node without a name has the empty one. */
  ghost predicate NamesVariable(fold: char -> char, n: Node, name: string) {
    exists text ::
      && (HasField(n, "Name", Scalar(text)) || (text == "" && forall t :: !HasField(n, "Name", Scalar(t))))
      && |text| == |name| && forall i | 0 <= i < |name| :: fold(text[i]) == fold(name[i])
  }

  lemma VariableNameIs(n: Node, text: string)
    ensures HasField(n, "Name", Scalar(text)) ==> VariableName(n) == text
    ensures VariableName(n) == text ==>
              HasField(n, "Name", Scalar(text)) || (text == "" && forall t :: !HasField(n, "Name", Scalar(t)))
  {
    FieldNamedIsFirst(n, "Name", Scalar(text));
    if VariableName(n) == text && !HasField(n, "Name", Scalar(text)) {
      forall t ensures !HasField(n, "Name", Scalar(t)) {
        FieldNamedIsFirst(n, "Name", Scalar(t));
      }
    }
  }

  lemma NamesVariableIff(fold: char -> char, n: Node, name: string)
    ensures NamesVariable(fold, n, name) <==> EqualFold(fold, VariableName(n), name)
  {
    VariableNameIs(n, VariableName(n));
    if NamesVariable(fold, n, name) {
      var text :|
        && (HasField(n, "Name", Scalar(text)) || (text == "" && forall t :: !HasField(n, "Name", Scalar(t))))
        && |text| == |name| && forall i | 0 <= i < |name| :: fold(text[i]) == fold(name[i]);
      VariableNameIs(n, text);
    }
  }

  // ---------------------------------------------------------------- two configurations

  /** The nodes that `c` refuses and `d` does not are those of one kind. */
  ghost predicate DifferBy(c: FilterConfig, d: FilterConfig, fold: char -> char, kind: Node -> bool) {
    forall n :: NodePasses(c, fold, n) <==> NodePasses(d, fold, n) && !kind(n)
  }

  predicate SameSignatureFields(c: FilterConfig, d: FilterConfig) {
    && c.signatureFilterEnabled == d.signatureFilterEnabled && c.signatureAuditMode == d.signatureAuditMode
    && c.signatureAllowByDefault == d.signatureAllowByDefault
    && c.blockSignatures == d.blockSignatures && c.allowSignatures == d.allowSignatures
  }

  lemma SameSignatureRule(c: FilterConfig, d: FilterConfig, lib: Library, query: string, raw: RawStmt)
    requires SameSignatureFields(c, d)
    ensures SignaturePasses(c, lib, query, raw) <==> SignaturePasses(d, lib, query, raw)
  {
  }

  lemma StatementsDiffer(c: FilterConfig, d: FilterConfig, lib: Library, query: string, kind: Node -> bool)
    requires lib.parse(query).Parsed? && Allowed(d, lib, query) && !Touches(lib, query, kind)
    requires DifferBy(c, d, lib.fold, kind) && SameSignatureFields(c, d)
    ensures Allowed(c, lib, query)
  {
    var p := lib.parse(query);
    forall s | s in p.stmts ensures StatementPasses(c, lib, query, p.heap, s) {
      assert StatementPasses(d, lib, query, p.heap, s);
      SameSignatureRule(c, d, lib, query, s);
      var i :| 0 <= i < |p.stmts| && p.stmts[i] == s;
      forall n | n in p.heap && Reachable(p.heap, s.root, n) ensures NodePasses(c, lib.fold, p.heap[n]) {
        ReachableIffLinked(p.heap, s.root, n);
        assert NodePasses(d, lib.fold, p.heap[n]) && !kind(p.heap[n]);
      }
    }
  }

  lemma TouchedIsRefused(c: FilterConfig, d: FilterConfig, lib: Library, query: string, kind: Node -> bool)
    requires lib.parse(query).Parsed? && Touches(lib, query, kind) && DifferBy(c, d, lib.fold, kind)
    ensures !Allowed(c, lib, query)
  {
    var p := lib.parse(query);
    var i, n :| 0 <= i < |p.stmts| && n in p.heap && Linked(p.heap, p.stmts[i].root, n) && kind(p.heap[n]);
    ReachableIffLinked(p.heap, p.stmts[i].root, n);
    assert !NodePasses(c, lib.fold, p.heap[n]);
    FilterLaws.ViolationAnywhereBlocks(c, lib, query, i, n);
  }

  lemma StricterAllowsLess(c: FilterConfig, d: FilterConfig, lib: Library, query: string, kind: Node -> bool)
    requires lib.parse(query).Parsed? && Allowed(c, lib, query)
    requires DifferBy(c, d, lib.fold, kind) && SameSignatureFields(c, d)
    ensures Allowed(d, lib, query)
  {
    var p := lib.parse(query);
    forall s | s in p.stmts ensures StatementPasses(d, lib, query, p.heap, s) {
      assert StatementPasses(c, lib, query, p.heap, s);
      SameSignatureRule(c, d, lib, query, s);
      forall n | n in p.heap && Reachable(p.heap, s.root, n) ensures NodePasses(d, lib.fold, p.heap[n]) {
        assert NodePasses(c, lib.fold, p.heap[n]);
      }
    }
  }

  /** Such a field decides about the queries that touch a node of that kind, and about no others. */
  lemma FieldDecides(c: FilterConfig, d: FilterConfig, lib: Library, query: string, kind: Node -> bool)
    requires lib.parse(query).Parsed?
    requires DifferBy(c, d, lib.fold, kind) && SameSignatureFields(c, d)
    ensures Allowed(c, lib, query) <==> Allowed(d, lib, query) && !Touches(lib, query, kind)
  {
    if Touches(lib, query, kind) {
      TouchedIsRefused(c, d, lib, query, kind);
    } else if Allowed(c, lib, query) {
      StricterAllowsLess(c, d, lib, query, kind);
    } else if Allowed(d, lib, query) {
      StatementsDiffer(c, d, lib, query, kind);
    }
  }

  // ---------------------------------------------------------------- the allow flags

  lemma AllowSelectDiffers(c: FilterConfig, fold: char -> char)
    ensures var no, yes := c.(allowSelect := false), c.(allowSelect := true);
            DifferBy(no, yes, fold, OfType(SelectStmt))
  {
  }

  lemma AllowSelectDecides(c: FilterConfig, lib: Library, query: string)
    requires lib.parse(query).Parsed?
    ensures Allowed(c.(allowSelect := false), lib, query) <==>
            Allowed(c.(allowSelect := true), lib, query) && !TouchesType(lib, query, SelectStmt)
  {
    AllowSelectDiffers(c, lib.fold);
    FieldDecides(c.(allowSelect := false), c.(allowSelect := true), lib, query, OfType(SelectStmt));
  }

  lemma AllowInsertDiffers(c: FilterConfig, fold: char -> char)
    ensures var no, yes := c.(allowInsert := false), c.(allowInsert := true);
            DifferBy(no, yes, fold, OfType(InsertStmt))
  {
  }

  lemma AllowInsertDecides(c: FilterConfig, lib: Library, query: string)
    requires lib.parse(query).Parsed?
    ensures Allowed(c.(allowInsert := false), lib, query) <==>
            Allowed(c.(allowInsert := true), lib, query) && !TouchesType(lib, query, InsertStmt)
  {
    AllowInsertDiffers(c, lib.fold);
    FieldDecides(c.(allowInsert := false), c.(allowInsert := true), lib, query, OfType(InsertStmt));
  }

  lemma AllowUpdateDiffers(c: FilterConfig, fold: char -> char)
    ensures var no, yes := c.(allowUpdate := false), c.(allowUpdate := true);
            DifferBy(no, yes, fold, OfType(UpdateStmt))
  {
  }

  lemma AllowUpdateDecides(c: FilterConfig, lib: Library, query: string)
    requires lib.parse(query).Parsed?
    ensures Allowed(c.(allowUpdate := false), lib, query) <==>
            Allowed(c.(allowUpdate := true), lib, query) && !TouchesType(lib, query, UpdateStmt)
  {
    AllowUpdateDiffers(c, lib.fold);
    FieldDecides(c.(allowUpdate := false), c.(allowUpdate := true), lib, query, OfType(UpdateStmt));
  }

  lemma AllowDeleteDiffers(c: FilterConfig, fold: char -> char)
    ensures var no, yes := c.(allowDelete := false), c.(allowDelete := true);
            DifferBy(no, yes, fold, OfType(DeleteStmt))
  {
  }

  lemma AllowDeleteDecides(c: FilterConfig, lib: Library, query: string)
    requires lib.parse(query).Parsed?
    ensures Allowed(c.(allowDelete := false), lib, query) <==>
            Allowed(c.(allowDelete := true), lib, query) && !TouchesType(lib, query, DeleteStmt)
  {
    AllowDeleteDiffers(c, lib.fold);
    FieldDecides(c.(allowDelete := false), c.(allowDelete := true), lib, query, OfType(DeleteStmt));
  }

  lemma AllowTruncateDiffers(c: FilterConfig, fold: char -> char)
    ensures var no, yes := c.(allowTruncate := false), c.(allowTruncate := true);
            DifferBy(no, yes, fold, OfType(TruncateStmt))
  {
  }

  lemma AllowTruncateDecides(c: FilterConfig, lib: Library, query: string)
    requires lib.parse(query).Parsed?
    ensures Allowed(c.(allowTruncate := false), lib, query) <==>
            Allowed(c.(allowTruncate := true), lib, query) && !TouchesType(lib, query, TruncateStmt)
  {
    AllowTruncateDiffers(c, lib.fold);
    FieldDecides(c.(allowTruncate := false), c.(allowTruncate := true), lib, query, OfType(TruncateStmt));
  }

  lemma AllowAlterRoleDiffers(c: FilterConfig, fold: char -> char)
    ensures var no, yes := c.(allowAlterRole := false), c.(allowAlterRole := true);
            DifferBy(no, yes, fold, OfType(AlterRoleStmt))
  {
  }

  lemma AllowAlterRoleDecides(c: FilterConfig, lib: Library, query: string)
    requires lib.parse(query).Parsed?
    ensures Allowed(c.(allowAlterRole := false), lib, query) <==>
            Allowed(c.(allowAlterRole := true), lib, query) && !TouchesType(lib, query, AlterRoleStmt)
  {
    AllowAlterRoleDiffers(c, lib.fold);
    FieldDecides(c.(allowAlterRole := false), c.(allowAlterRole := true), lib, query, OfType(AlterRoleStmt));
  }

  lemma AllowSetVarDiffers(c: FilterConfig, fold: char -> char)
    ensures var no, yes := c.(allowSetVar := false), c.(allowSetVar := true);
            DifferBy(no, yes, fold, OfType(VariableSetStmt))
  {
  }

  lemma AllowSetVarDecides(c: FilterConfig, lib: Library, query: string)
    requires lib.parse(query).Parsed?
    ensures Allowed(c.(allowSetVar := false), lib, query) <==>
            Allowed(c.(allowSetVar := true), lib, query) && !TouchesType(lib, query, VariableSetStmt)
  {
    AllowSetVarDiffers(c, lib.fold);
    FieldDecides(c.(allowSetVar := false), c.(allowSetVar := true), lib, query, OfType(VariableSetStmt));
  }

  lemma AllowExecuteDiffers(c: FilterConfig, fold: char -> char)
    ensures var no, yes := c.(allowExecute := false), c.(allowExecute := true);
            DifferBy(no, yes, fold, OfType(ExecuteStmt))
  {
  }

  lemma AllowExecuteDecides(c: FilterConfig, lib: Library, query: string)
    requires lib.parse(query).Parsed?
    ensures Allowed(c.(allowExecute := false), lib, query) <==>
            Allowed(c.(allowExecute := true), lib, query) && !TouchesType(lib, query, ExecuteStmt)
  {
    AllowExecuteDiffers(c, lib.fold);
    FieldDecides(c.(allowExecute := false), c.(allowExecute := true), lib, query, OfType(ExecuteStmt));
  }

  // ---------------------------------------------------------------- the WHERE flags and the variables

  ghost function WithoutWhereOf(ty: NodeType): Node -> bool {
    (n: Node) => n.ty == ty && WithoutWhere(n)
  }

  lemma RequireWhereForUpdateAt(c: FilterConfig, fold: char -> char, n: Node)
    ensures NodePasses(c.(requireWhereForUpdate := true), fold, n) <==>
            NodePasses(c.(requireWhereForUpdate := false), fold, n) && !WithoutWhereOf(UpdateStmt)(n)
  {
    LacksWhereIff(n);
  }

  lemma RequireWhereForUpdateDiffers(c: FilterConfig, fold: char -> char)
    ensures var yes, no := c.(requireWhereForUpdate := true), c.(requireWhereForUpdate := false);
            DifferBy(yes, no, fold, WithoutWhereOf(UpdateStmt))
  {
    forall n ensures NodePasses(c.(requireWhereForUpdate := true), fold, n) <==>
                     NodePasses(c.(requireWhereForUpdate := false), fold, n) && !WithoutWhereOf(UpdateStmt)(n)
    {
      RequireWhereForUpdateAt(c, fold, n);
    }
  }

  lemma RequireWhereForUpdateDecides(c: FilterConfig, lib: Library, query: string)
    requires lib.parse(query).Parsed?
    ensures Allowed(c.(requireWhereForUpdate := true), lib, query) <==>
            Allowed(c.(requireWhereForUpdate := false), lib, query) && !Touches(lib, query, WithoutWhereOf(UpdateStmt))
  {
    RequireWhereForUpdateDiffers(c, lib.fold);
    FieldDecides(c.(requireWhereForUpdate := true), c.(requireWhereForUpdate := false), lib, query,
                 WithoutWhereOf(UpdateStmt));
  }

  lemma RequireWhereForDeleteAt(c: FilterConfig, fold: char -> char, n: Node)
    ensures NodePasses(c.(requireWhereForDelete := true), fold, n) <==>
            NodePasses(c.(requireWhereForDelete := false), fold, n) && !WithoutWhereOf(DeleteStmt)(n)
  {
    LacksWhereIff(n);
  }

  lemma RequireWhereForDeleteDiffers(c: FilterConfig, fold: char -> char)
    ensures var yes, no := c.(requireWhereForDelete := true), c.(requireWhereForDelete := false);
            DifferBy(yes, no, fold, WithoutWhereOf(DeleteStmt))
  {
    forall n ensures NodePasses(c.(requireWhereForDelete := true), fold, n) <==>
                     NodePasses(c.(requireWhereForDelete := false), fold, n) && !WithoutWhereOf(DeleteStmt)(n)
    {
      RequireWhereForDeleteAt(c, fold, n);
    }
  }

  lemma RequireWhereForDeleteDecides(c: FilterConfig, lib: Library, query: string)
    requires lib.parse(query).Parsed?
    ensures Allowed(c.(requireWhereForDelete := true), lib, query) <==>
            Allowed(c.(requireWhereForDelete := false), lib, query) && !Touches(lib, query, WithoutWhereOf(DeleteStmt))
  {
    RequireWhereForDeleteDiffers(c, lib.fold);
    FieldDecides(c.(requireWhereForDelete := true), c.(requireWhereForDelete := false), lib, query,
                 WithoutWhereOf(DeleteStmt));
  }

  ghost function Setting(fold: char -> char, name: string): Node -> bool {
    (n: Node) => n.ty == VariableSetStmt && NamesVariable(fold, n, name)
  }

  lemma OneMoreName(names: seq<string>, fold: char -> char, name: string, text: string)
    ensures (forall b <- names + [name] :: !EqualFold(fold, text, b)) <==>
            (forall b <- names :: !EqualFold(fold, text, b)) && !EqualFold(fold, text, name)
  {
    assert name in names + [name];
    assert forall b <- names :: b in names + [name];
  }

  lemma SetVarPasses(c: FilterConfig, fold: char -> char, n: Node)
    requires n.ty == VariableSetStmt
    ensures NodePasses(c, fold, n) <==>
            c.allowSetVar && forall b <- c.blockSetVars :: !EqualFold(fold, VariableName(n), b)
  {
  }

  lemma OthersPass(c: FilterConfig, fold: char -> char, names: seq<string>, n: Node)
    requires n.ty != VariableSetStmt
    ensures NodePasses(c.(blockSetVars := names), fold, n) <==> NodePasses(c, fold, n)
  {
  }

  lemma BlockSetVarAt(c: FilterConfig, fold: char -> char, name: string, n: Node)
    ensures NodePasses(c.(blockSetVars := c.blockSetVars + [name]), fold, n) <==>
            NodePasses(c, fold, n) && !(n.ty == VariableSetStmt && EqualFold(fold, VariableName(n), name))
  {
    if n.ty == VariableSetStmt {
      SetVarPasses(c, fold, n);
      SetVarPasses(c.(blockSetVars := c.blockSetVars + [name]), fold, n);
      OneMoreName(c.blockSetVars, fold, name, VariableName(n));
    } else {
      OthersPass(c, fold, c.blockSetVars + [name], n);
    }
  }

  lemma BlockSetVarDiffers(c: FilterConfig, fold: char -> char, name: string)
    ensures var more := c.(blockSetVars := c.blockSetVars + [name]);
            DifferBy(more, c, fold, Setting(fold, name))
  {
    var more := c.(blockSetVars := c.blockSetVars + [name]);
    forall n ensures NodePasses(more, fold, n) <==> NodePasses(c, fold, n) && !Setting(fold, name)(n) {
      BlockSetVarAt(c, fold, name, n);
      NamesVariableIff(fold, n, name);
    }
  }

  /** One more blocked variable refuses the statements that set it, and no others. */
  lemma BlockSetVarDecides(c: FilterConfig, lib: Library, query: string, name: string)
    requires lib.parse(query).Parsed?
    ensures Allowed(c.(blockSetVars := c.blockSetVars + [name]), lib, query) <==>
            Allowed(c, lib, query) && !Touches(lib, query, Setting(lib.fold, name))
  {
    BlockSetVarDiffers(c, lib.fold, name);
    FieldDecides(c.(blockSetVars := c.blockSetVars + [name]), c, lib, query, Setting(lib.fold, name));
  }

  // ---------------------------------------------------------------- the most open configuration

  /** With every statement type allowed, no WHERE clause asked for, no variable blocked and the
      signature filter off, every query that parses is allowed; so the fields are all there is. */
  lemma OpenAllowsAll(lib: Library, query: string, c: FilterConfig)
    requires lib.parse(query).Parsed?
    requires c.allowSelect && c.allowInsert && c.allowUpdate && c.allowDelete
    requires c.allowTruncate && c.allowAlterRole && c.allowSetVar && c.allowExecute
    requires !c.requireWhereForUpdate && !c.requireWhereForDelete && c.blockSetVars == []
    requires !c.signatureFilterEnabled
    ensures Allowed(c, lib, query)
  {
    var p := lib.parse(query);
    forall s | s in p.stmts ensures StatementPasses(c, lib, query, p.heap, s) {
      assert forall n :: NodePasses(c, lib.fold, n);
    }
  }

  // ---------------------------------------------------------------- the signature fields

  /** The statement's signature, without white space around it, if it has one. */
  function SignatureOf(lib: Library, query: string, raw: RawStmt): Option<string> {
    match lib.normalize(StmtText(query, raw))
    case None => None
    case Some(sig) => Some(TrimSpace(sig))
  }

  /** Some statement has a signature of this kind. */
  ghost predicate Signed(lib: Library, query: string, kind: Option<string> -> bool)
    requires lib.parse(query).Parsed?
  {
    exists raw <- lib.parse(query).stmts :: kind(SignatureOf(lib, query, raw))
  }

  /** The two configurations treat every node alike. */
  ghost predicate SameNodeRules(c: FilterConfig, d: FilterConfig, fold: char -> char) {
    forall n :: NodePasses(c, fold, n) <==> NodePasses(d, fold, n)
  }

  /** The statements that `c` refuses and `d` does not are those with a signature of one kind. */
  ghost predicate DifferAt(c: FilterConfig, d: FilterConfig, lib: Library, query: string, raw: RawStmt,
                           kind: Option<string> -> bool)
  {
    SignaturePasses(c, lib, query, raw) <==>
    SignaturePasses(d, lib, query, raw) && !kind(SignatureOf(lib, query, raw))
  }

  lemma NodesPassAlike(c: FilterConfig, d: FilterConfig, fold: char -> char, h: Heap, root: Value)
    requires SameNodeRules(c, d, fold)
    ensures NodesPass(c, fold, h, root) <==> NodesPass(d, fold, h, root)
  {
  }

  /** Such a field decides about the queries with a statement of such a signature, and no others. */
  lemma SignatureFieldDecides(c: FilterConfig, d: FilterConfig, lib: Library, query: string,
                              kind: Option<string> -> bool)
    requires lib.parse(query).Parsed? && SameNodeRules(c, d, lib.fold)
    requires forall raw :: DifferAt(c, d, lib, query, raw, kind)
    ensures Allowed(c, lib, query) <==> Allowed(d, lib, query) && !Signed(lib, query, kind)
  {
    var p := lib.parse(query);
    forall raw | raw in p.stmts
      ensures StatementPasses(c, lib, query, p.heap, raw) <==>
              StatementPasses(d, lib, query, p.heap, raw) && !kind(SignatureOf(lib, query, raw))
    {
      assert DifferAt(c, d, lib, query, raw, kind);
      NodesPassAlike(c, d, lib.fold, p.heap, raw.root);
    }
  }

  function Exactly(sig: string): Option<string> -> bool {
    (x: Option<string>) => x == Some(sig)
  }

  function NotIn(sigs: seq<string>): Option<string> -> bool {
    (x: Option<string>) => x.Some? && x.value !in sigs
  }

  function BlockedOrUnlisted(blocked: seq<string>, listed: seq<string>, byDefault: bool): Option<string> -> bool {
    (x: Option<string>) => x.Some? && (x.value in blocked || (x.value !in listed && !byDefault))
  }

  function Missing(): Option<string> -> bool {
    (x: Option<string>) => x.None?
  }

  lemma SignatureFieldsSpareNodes(c: FilterConfig, d: FilterConfig, fold: char -> char)
    requires d == c.(signatureFilterEnabled := d.signatureFilterEnabled,
                     signatureAllowByDefault := d.signatureAllowByDefault,
                     signatureAuditMode := d.signatureAuditMode, onParseError := d.onParseError,
                     blockSignatures := d.blockSignatures, allowSignatures := d.allowSignatures)
    ensures SameNodeRules(c, d, fold)
  {
  }

  lemma BlockSignatureAt(c: FilterConfig, lib: Library, query: string, sig: string, raw: RawStmt)
    requires c.signatureFilterEnabled && !c.signatureAuditMode
    ensures DifferAt(c.(blockSignatures := c.blockSignatures + [sig]), c, lib, query, raw, Exactly(sig))
  {
  }

  /** While the signature filter enforces, one more blocked signature refuses the statements that have
      it, and no others. */
  lemma BlockSignatureDecides(c: FilterConfig, lib: Library, query: string, sig: string)
    requires lib.parse(query).Parsed? && c.signatureFilterEnabled && !c.signatureAuditMode
    ensures Allowed(c.(blockSignatures := c.blockSignatures + [sig]), lib, query) <==>
            Allowed(c, lib, query) && !Signed(lib, query, Exactly(sig))
  {
    var more := c.(blockSignatures := c.blockSignatures + [sig]);
    forall raw ensures DifferAt(more, c, lib, query, raw, Exactly(sig)) {
      BlockSignatureAt(c, lib, query, sig, raw);
    }
    SignatureFieldsSpareNodes(more, c, lib.fold);
    SignatureFieldDecides(more, c, lib, query, Exactly(sig));
  }

  lemma AllowSignatureAt(c: FilterConfig, lib: Library, query: string, sig: string, raw: RawStmt)
    requires c.signatureFilterEnabled && !c.signatureAuditMode && !c.signatureAllowByDefault
    requires sig !in c.allowSignatures
    ensures DifferAt(c, c.(allowSignatures := c.allowSignatures + [sig]), lib, query, raw, Exactly(sig))
  {
  }

  /** And with no signature allowed by default, one less allowed signature refuses those. */
  lemma AllowSignatureDecides(c: FilterConfig, lib: Library, query: string, sig: string)
    requires lib.parse(query).Parsed? && c.signatureFilterEnabled && !c.signatureAuditMode
    requires !c.signatureAllowByDefault && sig !in c.allowSignatures
    ensures Allowed(c, lib, query) <==>
            Allowed(c.(allowSignatures := c.allowSignatures + [sig]), lib, query)
            && !Signed(lib, query, Exactly(sig))
  {
    var more := c.(allowSignatures := c.allowSignatures + [sig]);
    forall raw ensures DifferAt(c, more, lib, query, raw, Exactly(sig)) {
      AllowSignatureAt(c, lib, query, sig, raw);
    }
    SignatureFieldsSpareNodes(c, more, lib.fold);
    SignatureFieldDecides(c, more, lib, query, Exactly(sig));
  }

  lemma AllowByDefaultAt(c: FilterConfig, lib: Library, query: string, raw: RawStmt)
    requires c.signatureFilterEnabled && !c.signatureAuditMode
    ensures DifferAt(c.(signatureAllowByDefault := false), c.(signatureAllowByDefault := true), lib, query, raw,
                     NotIn(c.allowSignatures))
  {
  }

  /** Allowing no signature by default refuses the statements whose signature is not listed. */
  lemma AllowByDefaultDecides(c: FilterConfig, lib: Library, query: string)
    requires lib.parse(query).Parsed? && c.signatureFilterEnabled && !c.signatureAuditMode
    ensures Allowed(c.(signatureAllowByDefault := false), lib, query) <==>
            Allowed(c.(signatureAllowByDefault := true), lib, query) && !Signed(lib, query, NotIn(c.allowSignatures))
  {
    var no, yes := c.(signatureAllowByDefault := false), c.(signatureAllowByDefault := true);
    var kind := NotIn(c.allowSignatures);
    forall raw ensures DifferAt(no, yes, lib, query, raw, kind) {
      AllowByDefaultAt(c, lib, query, raw);
    }
    SignatureFieldsSpareNodes(no, yes, lib.fold);
    SignatureFieldDecides(no, yes, lib, query, kind);
  }

  lemma AuditModeAt(c: FilterConfig, lib: Library, query: string, raw: RawStmt)
    requires c.signatureFilterEnabled
    ensures DifferAt(c.(signatureAuditMode := false), c.(signatureAuditMode := true), lib, query, raw,
                     BlockedOrUnlisted(c.blockSignatures, c.allowSignatures, c.signatureAllowByDefault))
  {
  }

  /** Leaving audit mode refuses the statements that it let by: those with a signature that is
      blocked, or neither listed nor allowed by default. */
  lemma AuditModeDecides(c: FilterConfig, lib: Library, query: string)
    requires lib.parse(query).Parsed? && c.signatureFilterEnabled
    ensures Allowed(c.(signatureAuditMode := false), lib, query) <==>
            Allowed(c.(signatureAuditMode := true), lib, query)
            && !Signed(lib, query, BlockedOrUnlisted(c.blockSignatures, c.allowSignatures, c.signatureAllowByDefault))
  {
    var no, yes := c.(signatureAuditMode := false), c.(signatureAuditMode := true);
    var kind := BlockedOrUnlisted(c.blockSignatures, c.allowSignatures, c.signatureAllowByDefault);
    forall raw ensures DifferAt(no, yes, lib, query, raw, kind) {
      AuditModeAt(c, lib, query, raw);
    }
    SignatureFieldsSpareNodes(no, yes, lib.fold);
    SignatureFieldDecides(no, yes, lib, query, kind);
  }

  lemma SignatureFilterAt(c: FilterConfig, lib: Library, query: string, raw: RawStmt)
    requires c.signatureAuditMode
    ensures DifferAt(c.(signatureFilterEnabled := true), c.(signatureFilterEnabled := false), lib, query, raw,
                     Missing())
  {
  }

  /** In audit mode the signature filter only asks for a signature; switched off it asks nothing. */
  lemma SignatureFilterDecides(c: FilterConfig, lib: Library, query: string)
    requires lib.parse(query).Parsed? && c.signatureAuditMode
    ensures Allowed(c.(signatureFilterEnabled := true), lib, query) <==>
            Allowed(c.(signatureFilterEnabled := false), lib, query) && !Signed(lib, query, Missing())
  {
    var on, off := c.(signatureFilterEnabled := true), c.(signatureFilterEnabled := false);
    forall raw ensures DifferAt(on, off, lib, query, raw, Missing()) {
      SignatureFilterAt(c, lib, query, raw);
    }
    SignatureFieldsSpareNodes(on, off, lib.fold);
    SignatureFieldDecides(on, off, lib, query, Missing());
  }

  lemma StatementsAgree(c: FilterConfig, d: FilterConfig, lib: Library, query: string)
    requires lib.parse(query).Parsed? && SameNodeRules(c, d, lib.fold)
    requires forall raw :: SignaturePasses(c, lib, query, raw) <==> SignaturePasses(d, lib, query, raw)
    ensures Allowed(c, lib, query) <==> Allowed(d, lib, query)
  {
    var p := lib.parse(query);
    forall raw | raw in p.stmts
      ensures StatementPasses(c, lib, query, p.heap, raw) <==> StatementPasses(d, lib, query, p.heap, raw)
    {
      NodesPassAlike(c, d, lib.fold, p.heap, raw.root);
    }
  }

  /** Switched off, none of its other fields matters. */
  lemma SignatureFilterOff(c: FilterConfig, lib: Library, query: string, byDefault: bool, audit: bool,
                           block: seq<string>, allow: seq<string>)
    requires lib.parse(query).Parsed? && !c.signatureFilterEnabled
    ensures Allowed(c, lib, query) <==>
            Allowed(c.(signatureAllowByDefault := byDefault, signatureAuditMode := audit,
                       blockSignatures := block, allowSignatures := allow), lib, query)
  {
    var d := c.(signatureAllowByDefault := byDefault, signatureAuditMode := audit,
                blockSignatures := block, allowSignatures := allow);
    SignatureFieldsSpareNodes(c, d, lib.fold);
    StatementsAgree(c, d, lib, query);
  }

  // ---------------------------------------------------------------- a query that does not parse

  /** Two settings let it by, whatever the other fields say. */
  lemma OnParseErrorDecides(c: FilterConfig, lib: Library, query: string)
    requires lib.parse(query).ParseError?
    ensures Allowed(c, lib, query) <==> c.onParseError == "allow" || c.onParseError == "audit"
  {
  }

  /** And they decide about nothing else. */
  lemma OnParseErrorIsAll(c: FilterConfig, lib: Library, query: string, setting: string)
    requires lib.parse(query).Parsed?
    ensures Allowed(c.(onParseError := setting), lib, query) <==> Allowed(c, lib, query)
  {
    SignatureFieldsSpareNodes(c.(onParseError := setting), c, lib.fold);
    StatementsAgree(c.(onParseError := setting), c, lib, query);
  }
}
