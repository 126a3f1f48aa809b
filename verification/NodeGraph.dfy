/** The reflected heap of parse-tree nodes that `extractStatements` walks, the walk as a
    function of the heap, and what it is for: exact reachability.

    Nodes may be shared and the pointer graph may be cyclic; nothing below assumes a tree. */
module NodeGraph {

  /** A node's identity: the address that `seen` is keyed by. */
  type NodeId = nat

  /** The concrete type behind a pointer, as far as the filter tells types apart. */
  datatype NodeType =
    | SelectStmt | InsertStmt | UpdateStmt | DeleteStmt
    | TruncateStmt | AlterRoleStmt | VariableSetStmt | ExecuteStmt
    | OtherType

  /** A reflected Go value. `Scalar` covers every kind the walk does not enter. */
  datatype Value =
    | Invalid
    | Scalar(text: string)
    | NilIface
    | Iface(elem: Value)
    | NilPtr
    | Ptr(node: NodeId)
    | Struct(fields: seq<Field>)
    | List(elems: seq<Value>)
    | Dict(entries: seq<Value>)

  datatype Field = Field(name: string, exported: bool, value: Value)

  /** What a pointer points to. */
  datatype Node = Node(ty: NodeType, elem: Value)

  type Heap = map<NodeId, Node>

  predicate IsFilteredStmtType(ty: NodeType) {
    !ty.OtherType?
  }

  // ---------------------------------------------------------------- pointer structure

  function Size(v: Value): nat
  {
    match v
    case Iface(e) => 1 + Size(e)
    case Struct(fs) => 1 + FieldsSize(fs)
    case List(es) => 1 + ListSize(es)
    case Dict(es) => 1 + ListSize(es)
    case _ => 1
  }

  function FieldsSize(fs: seq<Field>): nat
  {
    if fs == [] then 0 else 1 + Size(fs[0].value) + FieldsSize(fs[1..])
  }

  function ListSize(vs: seq<Value>): nat
  {
    if vs == [] then 0 else 1 + Size(vs[0]) + ListSize(vs[1..])
  }

  /** The values of the exported fields, in declaration order. */
  function ExportedValues(fs: seq<Field>): (vs: seq<Value>)
    ensures ListSize(vs) <= FieldsSize(fs)
  {
    if fs == [] then []
    else if fs[0].exported then [fs[0].value] + ExportedValues(fs[1..])
    else ExportedValues(fs[1..])
  }

  /** The values the walk enters from `v` without following a pointer. */
  function Kids(v: Value): (vs: seq<Value>)
    ensures ListSize(vs) <= Size(v)
    ensures v.Ptr? ==> vs == []
  {
    match v
    case Iface(e) => [e]
    case Struct(fs) => ExportedValues(fs)
    case List(es) => es
    case Dict(es) => es
    case _ => []
  }

  /** The nodes that `v` points to directly, through exported fields only. */
  ghost function Refs(v: Value): set<NodeId>
    decreases Size(v), 1
  {
    if v.Ptr? then {v.node} else RefsAll(Kids(v))
  }

  ghost function RefsAll(vs: seq<Value>): set<NodeId>
    decreases ListSize(vs), 0
  {
    if vs == [] then {} else Refs(vs[0]) + RefsAll(vs[1..])
  }

  /** No dangling pointers, as the Go runtime guarantees. */
  ghost predicate Closed(h: Heap) {
    forall n <- h.Keys :: Refs(h[n].elem) <= h.Keys
  }

  /** A chain of pointers that starts in `v`. */
  ghost predicate IsPath(h: Heap, v: Value, p: seq<NodeId>) {
    && |p| > 0
    && p[0] in Refs(v)
    && (forall i | 0 <= i < |p| :: p[i] in h)
    && (forall i | 0 < i < |p| :: p[i] in Refs(h[p[i-1]].elem))
  }

  ghost predicate Reachable(h: Heap, v: Value, n: NodeId) {
    exists p :: IsPath(h, v, p) && p[|p|-1] == n
  }

  // ---------------------------------------------------------------- the walk as a function

  /** The two things `walkNodeTree` updates: the `seen` map and the output list. */
  datatype Visit = Visit(seen: set<NodeId>, out: seq<NodeId>)

  function Enter(h: Heap, n: NodeId, st: Visit): Visit
    requires n in h
  {
    Visit(st.seen + {n}, if IsFilteredStmtType(h[n].ty) then st.out + [n] else st.out)
  }

  function Walk(h: Heap, v: Value, st: Visit): (r: Visit)
    requires Closed(h) && Refs(v) <= h.Keys && st.seen <= h.Keys
    ensures st.seen <= r.seen <= h.Keys
    decreases |h.Keys - st.seen|, Size(v), 1
  {
    if v.Ptr? then
      if v.node in st.seen then st
      else
        assert |h.Keys - (st.seen + {v.node})| < |h.Keys - st.seen| by { Shrinks(h.Keys, st.seen, v.node); }
        Walk(h, h[v.node].elem, Enter(h, v.node, st))
    else WalkAll(h, Kids(v), st)
  }

  function WalkAll(h: Heap, vs: seq<Value>, st: Visit): (r: Visit)
    requires Closed(h) && RefsAll(vs) <= h.Keys && st.seen <= h.Keys
    ensures st.seen <= r.seen <= h.Keys
    decreases |h.Keys - st.seen|, ListSize(vs), 0
  {
    if vs == [] then st
    else
      var mid := Walk(h, vs[0], st);
      assert |h.Keys - mid.seen| <= |h.Keys - st.seen| by { NoGrowth(h.Keys, st.seen, mid.seen); }
      WalkAll(h, vs[1..], mid)
  }

  /** The termination measure of the walk: entering a new node leaves fewer unseen ones. */
  lemma Shrinks(all: set<NodeId>, seen: set<NodeId>, n: NodeId)
    requires n in all && n !in seen
    ensures |all - (seen + {n})| < |all - seen|
  {
    assert all - seen == (all - (seen + {n})) + {n};
  }

  lemma NoGrowth(all: set<NodeId>, less: set<NodeId>, more: set<NodeId>)
    requires less <= more
    ensures |all - more| <= |all - less|
  {
    assert all - less == (all - more) + ((all - less) * more);
  }

  // ---------------------------------------------------------------- what the walk collects

  /** Every pointer out of a node of the set stays in the set. */
  ghost predicate Saturated(h: Heap, s: set<NodeId>) {
    forall n | n in s && n in h :: Refs(h[n].elem) <= s
  }

  ghost predicate NoDup(xs: seq<NodeId>) {
    forall i, j | 0 <= i < j < |xs| :: xs[i] != xs[j]
  }

  /** How a walk from any starting state relates to the state it leaves. */
  ghost predicate Extends(h: Heap, st: Visit, r: Visit, refs: set<NodeId>) {
    && st.seen + refs <= r.seen
    && (forall n | n in r.seen && n !in st.seen :: n in h && Refs(h[n].elem) <= r.seen)
    && st.out <= r.out
    && (forall n :: n in r.out[|st.out|..] <==> n in r.seen && n !in st.seen && n in h && IsFilteredStmtType(h[n].ty))
    && NoDup(r.out[|st.out|..])
  }

  lemma ExtendsTransitive(h: Heap, st: Visit, mid: Visit, r: Visit, refs: set<NodeId>, more: set<NodeId>)
    requires Extends(h, st, mid, refs) && Extends(h, mid, r, more)
    ensures Extends(h, st, r, refs + more)
  {
    var a, b, c := mid.out[|st.out|..], r.out[|mid.out|..], r.out[|st.out|..];
    assert c == a + b;
    assert forall i | 0 <= i < |a| :: a[i] in a && a[i] in mid.seen;
    assert forall i | 0 <= i < |b| :: b[i] in b && b[i] !in mid.seen;
    forall n ensures n in c <==> n in r.seen && n !in st.seen && n in h && IsFilteredStmtType(h[n].ty) {
      assert n in c <==> n in a || n in b;
    }
  }

  lemma DisjointNoDup(a: seq<NodeId>, b: seq<NodeId>)
    requires NoDup(a) && NoDup(b) && forall i | 0 <= i < |b| :: b[i] !in a
    ensures NoDup(a + b)
  {
  }

  lemma ExtendsThroughEnter(h: Heap, n: NodeId, st: Visit, r: Visit)
    requires n in h && n !in st.seen
    requires Extends(h, Enter(h, n, st), r, Refs(h[n].elem))
    ensures Extends(h, st, r, {n})
  {
    var st1 := Enter(h, n, st);
    var a, b, c := st1.out[|st.out|..], r.out[|st1.out|..], r.out[|st.out|..];
    assert a == if IsFilteredStmtType(h[n].ty) then [n] else [];
    assert c == a + b;
    forall i | 0 <= i < |b| ensures b[i] !in a {
      assert b[i] in b && b[i] !in st1.seen;
    }
    DisjointNoDup(a, b);
    forall m ensures m in c <==> m in r.seen && m !in st.seen && m in h && IsFilteredStmtType(h[m].ty) {
      assert m in c <==> m in a || m in b;
    }
  }

  lemma {:induction false} WalkExtends(h: Heap, v: Value, st: Visit)
    requires Closed(h) && Refs(v) <= h.Keys && st.seen <= h.Keys
    ensures Extends(h, st, Walk(h, v, st), Refs(v))
    decreases |h.Keys - st.seen|, Size(v), 1
  {
    if v.Ptr? {
      if v.node !in st.seen {
        var n, st1 := v.node, Enter(h, v.node, st);
        Shrinks(h.Keys, st.seen, n);
        WalkExtends(h, h[n].elem, st1);
        ExtendsThroughEnter(h, n, st, Walk(h, h[n].elem, st1));
      }
    } else {
      WalkAllExtends(h, Kids(v), st);
    }
  }

  lemma {:induction false} WalkAllExtends(h: Heap, vs: seq<Value>, st: Visit)
    requires Closed(h) && RefsAll(vs) <= h.Keys && st.seen <= h.Keys
    ensures Extends(h, st, WalkAll(h, vs, st), RefsAll(vs))
    decreases |h.Keys - st.seen|, ListSize(vs), 0
  {
    if vs != [] {
      var mid := Walk(h, vs[0], st);
      WalkExtends(h, vs[0], st);
      NoGrowth(h.Keys, st.seen, mid.seen);
      WalkAllExtends(h, vs[1..], mid);
      ExtendsTransitive(h, st, mid, WalkAll(h, vs[1..], mid), Refs(vs[0]), RefsAll(vs[1..]));
    }
  }

  lemma ReachThrough(h: Heap, v: Value, m: NodeId, n: NodeId)
    requires m in Refs(v) && m in h
    requires n == m || Reachable(h, h[m].elem, n)
    ensures Reachable(h, v, n)
  {
    if n == m {
      assert IsPath(h, v, [m]);
    } else {
      var p :| IsPath(h, h[m].elem, p) && p[|p|-1] == n;
      var q := [m] + p;
      assert forall i | 0 < i < |q| :: q[i] == p[i-1];
      assert IsPath(h, v, q);
    }
  }

  lemma ReachOneMore(h: Heap, v: Value, m: NodeId, n: NodeId)
    requires Reachable(h, v, m) && m in h && n in h && n in Refs(h[m].elem)
    ensures Reachable(h, v, n)
  {
    var p :| IsPath(h, v, p) && p[|p|-1] == m;
    assert IsPath(h, v, p + [n]);
  }

  lemma ReachFirst(h: Heap, v: Value, n: NodeId)
    requires n in Refs(v) && n in h
    ensures Reachable(h, v, n)
  {
    assert IsPath(h, v, [n]);
  }

  lemma ReachWider(h: Heap, v: Value, w: Value, n: NodeId)
    requires Refs(v) <= Refs(w) && Reachable(h, v, n)
    ensures Reachable(h, w, n)
  {
    var p :| IsPath(h, v, p) && p[|p|-1] == n;
    assert IsPath(h, w, p);
  }

  /** The other half of exactness: a walk enters only what can be reached from its value. */
  lemma {:induction false} WalkReaches(h: Heap, v: Value, st: Visit)
    requires Closed(h) && Refs(v) <= h.Keys && st.seen <= h.Keys
    ensures forall n | n in Walk(h, v, st).seen && n !in st.seen :: Reachable(h, v, n)
    decreases |h.Keys - st.seen|, Size(v), 1
  {
    if v.Ptr? {
      if v.node !in st.seen {
        var m, st1 := v.node, Enter(h, v.node, st);
        Shrinks(h.Keys, st.seen, m);
        WalkReaches(h, h[m].elem, st1);
        forall n | n in Walk(h, v, st).seen && n !in st.seen ensures Reachable(h, v, n) {
          ReachThrough(h, v, m, n);
        }
      }
    } else {
      WalkAllReaches(h, v, Kids(v), st);
    }
  }

  lemma {:induction false} WalkAllReaches(h: Heap, v: Value, vs: seq<Value>, st: Visit)
    requires Closed(h) && RefsAll(vs) <= h.Keys && st.seen <= h.Keys
    requires RefsAll(vs) <= Refs(v)
    ensures forall n | n in WalkAll(h, vs, st).seen && n !in st.seen :: Reachable(h, v, n)
    decreases |h.Keys - st.seen|, ListSize(vs), 0
  {
    if vs != [] {
      var mid := Walk(h, vs[0], st);
      WalkReaches(h, vs[0], st);
      NoGrowth(h.Keys, st.seen, mid.seen);
      WalkAllReaches(h, v, vs[1..], mid);
      forall n | n in mid.seen && n !in st.seen ensures Reachable(h, v, n) {
        ReachWider(h, vs[0], v, n);
      }
    }
  }

  /** A set that holds the pointers of `v` and is closed under pointers holds all of them. */
  lemma {:induction false} PathStaysIn(h: Heap, v: Value, s: set<NodeId>, p: seq<NodeId>, i: nat)
    requires IsPath(h, v, p) && i < |p|
    requires Refs(v) <= s && Saturated(h, s)
    ensures p[i] in s
  {
    if i > 0 {
      PathStaysIn(h, v, s, p, i - 1);
    }
  }

  function ExtractStatements(h: Heap, root: Value): seq<NodeId>
    requires Closed(h) && Refs(root) <= h.Keys
  {
    Walk(h, root, Visit({}, [])).out
  }

  // ---------------------------------------------------------------- reachability by access

  /** `w` is one access away from `v`: what an interface holds, an exported field of a struct, an
      element of a slice or array, an entry of a map. */
  predicate IsPart(v: Value, w: Value) {
    match v
    case Iface(elem) => w == elem
    case Struct(fields) => exists i | 0 <= i < |fields| :: fields[i].exported && fields[i].value == w
    case List(elems) => exists i | 0 <= i < |elems| :: elems[i] == w
    case Dict(entries) => exists i | 0 <= i < |entries| :: entries[i] == w
    case _ => false
  }

  /** Accesses that lead from `v` to `w`. */
  ghost predicate IsChain(v: Value, c: seq<Value>, w: Value) {
    && |c| > 0 && c[0] == v && c[|c|-1] == w
    && forall i | 0 < i < |c| :: IsPart(c[i-1], c[i])
  }

  /** Some accesses lead from `v` to a pointer to `n`. */
  ghost predicate PointsTo(v: Value, n: NodeId) {
    exists c :: IsChain(v, c, Ptr(n))
  }

  ghost predicate IsLink(h: Heap, v: Value, p: seq<NodeId>) {
    && |p| > 0 && PointsTo(v, p[0])
    && (forall i | 0 <= i < |p| :: p[i] in h)
    && (forall i | 0 < i < |p| :: PointsTo(h[p[i-1]].elem, p[i]))
  }

  /** Pointers and accesses lead from `v` to `n`. */
  ghost predicate Linked(h: Heap, v: Value, n: NodeId) {
    exists p :: IsLink(h, v, p) && p[|p|-1] == n
  }

  lemma {:induction false} ExportedAreParts(fs: seq<Field>, w: Value)
    ensures w in ExportedValues(fs) <==> exists i | 0 <= i < |fs| :: fs[i].exported && fs[i].value == w
  {
    if fs != [] {
      ExportedAreParts(fs[1..], w);
      if w in ExportedValues(fs[1..]) {
        var i :| 0 <= i < |fs[1..]| && fs[1..][i].exported && fs[1..][i].value == w;
        assert fs[i + 1].exported && fs[i + 1].value == w;
      }
      if exists i | 0 <= i < |fs| :: fs[i].exported && fs[i].value == w {
        var i :| 0 <= i < |fs| && fs[i].exported && fs[i].value == w;
        if i > 0 {
          assert fs[1..][i - 1].exported && fs[1..][i - 1].value == w;
        }
      }
    }
  }

  /** What the walk enters from a value is exactly what is one access away. */
  lemma KidsAreParts(v: Value, w: Value)
    ensures w in Kids(v) <==> IsPart(v, w)
  {
    if v.Struct? {
      ExportedAreParts(v.fields, w);
    }
  }

  lemma {:induction false} RefsOfOne(vs: seq<Value>, n: NodeId)
    ensures n in RefsAll(vs) <==> exists i | 0 <= i < |vs| :: n in Refs(vs[i])
  {
    if vs != [] {
      RefsOfOne(vs[1..], n);
      if n in RefsAll(vs[1..]) {
        var i :| 0 <= i < |vs[1..]| && n in Refs(vs[1..][i]);
        assert n in Refs(vs[i + 1]);
      }
      if exists i | 0 <= i < |vs| :: n in Refs(vs[i]) {
        var i :| 0 <= i < |vs| && n in Refs(vs[i]);
        if i > 0 {
          assert n in Refs(vs[1..][i - 1]);
        }
      }
    }
  }

  lemma {:induction false} RefHasChain(v: Value, n: NodeId) returns (c: seq<Value>)
    requires n in Refs(v)
    ensures IsChain(v, c, Ptr(n))
    decreases Size(v), 1
  {
    if v.Ptr? {
      c := [v];
    } else {
      var w;
      w, c := KidHasChain(Kids(v), n);
      KidsAreParts(v, w);
      c := LongerChain(v, w, c, n);
    }
  }

  lemma {:induction false} KidHasChain(vs: seq<Value>, n: NodeId) returns (w: Value, c: seq<Value>)
    requires n in RefsAll(vs)
    ensures w in vs && IsChain(w, c, Ptr(n))
    decreases ListSize(vs), 0
  {
    if n in Refs(vs[0]) {
      w := vs[0];
      c := RefHasChain(w, n);
    } else {
      w, c := KidHasChain(vs[1..], n);
    }
  }

  lemma LongerChain(v: Value, w: Value, c: seq<Value>, n: NodeId) returns (d: seq<Value>)
    requires IsPart(v, w) && IsChain(w, c, Ptr(n))
    ensures IsChain(v, d, Ptr(n))
  {
    d := [v] + c;
    forall i | 0 < i < |d| ensures IsPart(d[i-1], d[i]) {
      assert d[i] == c[i-1];
    }
  }

  lemma {:induction false} ChainIsRef(v: Value, c: seq<Value>, n: NodeId)
    requires IsChain(v, c, Ptr(n))
    ensures n in Refs(v)
    decreases |c|
  {
    if |c| > 1 {
      var w := c[1];
      assert IsPart(v, w);
      assert IsChain(w, c[1..], Ptr(n));
      ChainIsRef(w, c[1..], n);
      KidsAreParts(v, w);
      var i :| 0 <= i < |Kids(v)| && Kids(v)[i] == w;
      RefsOfOne(Kids(v), n);
    }
  }

  lemma RefsArePointers(v: Value, n: NodeId)
    ensures n in Refs(v) <==> PointsTo(v, n)
  {
    if n in Refs(v) {
      var c := RefHasChain(v, n);
    } else if PointsTo(v, n) {
      var c :| IsChain(v, c, Ptr(n));
      ChainIsRef(v, c, n);
    }
  }

  lemma PathIsLink(h: Heap, v: Value, p: seq<NodeId>)
    requires forall i | 0 <= i < |p| :: p[i] in h
    ensures IsPath(h, v, p) <==> IsLink(h, v, p)
  {
    if |p| > 0 {
      RefsArePointers(v, p[0]);
      forall i | 0 < i < |p| ensures p[i] in Refs(h[p[i-1]].elem) <==> PointsTo(h[p[i-1]].elem, p[i]) {
        RefsArePointers(h[p[i-1]].elem, p[i]);
      }
    }
  }

  /** Reachability as the walk sees it is reachability by pointers and accesses. */
  lemma ReachableIffLinked(h: Heap, v: Value, n: NodeId)
    ensures Reachable(h, v, n) <==> Linked(h, v, n)
  {
    if Reachable(h, v, n) {
      var p :| IsPath(h, v, p) && p[|p|-1] == n;
      PathIsLink(h, v, p);
    } else if Linked(h, v, n) {
      var p :| IsLink(h, v, p) && p[|p|-1] == n;
      PathIsLink(h, v, p);
    }
  }

  // ---------------------------------------------------------------- exactness

  lemma SeenIsReachable(h: Heap, root: Value)
    requires Closed(h) && Refs(root) <= h.Keys
    ensures forall n :: n in Walk(h, root, Visit({}, [])).seen <==> Reachable(h, root, n)
  {
    var st := Visit({}, []);
    var seen := Walk(h, root, st).seen;
    WalkReaches(h, root, st);
    assert Refs(root) <= seen && Saturated(h, seen) by { WalkExtends(h, root, st); }
    forall n | Reachable(h, root, n) ensures n in seen {
      var p :| IsPath(h, root, p) && p[|p|-1] == n;
      PathStaysIn(h, root, seen, p, |p| - 1);
    }
  }

  lemma ExtractIsReachable(h: Heap, root: Value)
    requires Closed(h) && Refs(root) <= h.Keys
    ensures forall n ::
              n in ExtractStatements(h, root)
              <==> Reachable(h, root, n) && n in h && IsFilteredStmtType(h[n].ty)
    ensures NoDup(ExtractStatements(h, root))
  {
    var st := Visit({}, []);
    var r := Walk(h, root, st);
    SeenIsReachable(h, root);
    WalkExtends(h, root, st);
    assert r.out[|st.out|..] == r.out;
  }

  /** What `seen` holds at the end is exactly what pointers and accesses lead to. */
  lemma SeenIsLinked(h: Heap, root: Value)
    requires Closed(h) && Refs(root) <= h.Keys
    ensures forall n :: n in Walk(h, root, Visit({}, [])).seen <==> Linked(h, root, n)
  {
    SeenIsReachable(h, root);
    forall n ensures Reachable(h, root, n) <==> Linked(h, root, n) {
      ReachableIffLinked(h, root, n);
    }
  }

  /** `extractStatements` returns exactly the rule-bearing nodes that pointers and accesses lead to
      from the root, through exported fields only, each exactly once, whatever the sharing and the
      cycles. */
  lemma ExtractIsExactReachability(h: Heap, root: Value)
    requires Closed(h) && Refs(root) <= h.Keys
    ensures forall n ::
              n in ExtractStatements(h, root)
              <==> Linked(h, root, n) && n in h && IsFilteredStmtType(h[n].ty)
    ensures NoDup(ExtractStatements(h, root))
  {
    ExtractIsReachable(h, root);
    forall n ensures Reachable(h, root, n) <==> Linked(h, root, n) {
      ReachableIffLinked(h, root, n);
    }
  }
}
