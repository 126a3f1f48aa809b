/** The walk without `seen`, and why `seen` changes nothing on a tree: whenever the plain
    recursive pre-order walk ends at all, `walkNodeTree` visits the first occurrences of what
    the plain walk visits, in the same order. */
module NaiveWalk {
  import opened NodeGraph

  datatype Preorder = Unfinished | Visited(nodes: seq<NodeId>)

  /** Pre-order without `seen`, cut off after `depth` pointers: sharing is walked twice and a
      cycle is never finished. */
  function Naive(h: Heap, v: Value, depth: nat): Preorder
    decreases depth, Size(v), 1
  {
    if v.Ptr? then
      if depth == 0 || v.node !in h then Unfinished
      else
        var below := Naive(h, h[v.node].elem, depth - 1);
        if below.Unfinished? then Unfinished else Visited([v.node] + below.nodes)
    else NaiveAll(h, Kids(v), depth)
  }

  function NaiveAll(h: Heap, vs: seq<Value>, depth: nat): Preorder
    decreases depth, ListSize(vs), 0
  {
    if vs == [] then Visited([])
    else
      var first, rest := Naive(h, vs[0], depth), NaiveAll(h, vs[1..], depth);
      if first.Unfinished? || rest.Unfinished? then Unfinished else Visited(first.nodes + rest.nodes)
  }

  /** `xs` without what is in `seen` and without repetitions: first occurrences, in order. */
  function FirstOccurrences(xs: seq<NodeId>, seen: set<NodeId>): seq<NodeId>
  {
    if xs == [] then []
    else if xs[0] in seen then FirstOccurrences(xs[1..], seen)
    else [xs[0]] + FirstOccurrences(xs[1..], seen + {xs[0]})
  }

  function RuleBearing(h: Heap, xs: seq<NodeId>): seq<NodeId>
  {
    if xs == [] then []
    else (if xs[0] in h && IsFilteredStmtType(h[xs[0]].ty) then [xs[0]] else []) + RuleBearing(h, xs[1..])
  }

  function Elements(xs: seq<NodeId>): set<NodeId> {
    set x | x in xs
  }

  lemma {:induction false} FirstOccurrencesConcat(xs: seq<NodeId>, ys: seq<NodeId>, seen: set<NodeId>)
    ensures FirstOccurrences(xs + ys, seen) == FirstOccurrences(xs, seen) + FirstOccurrences(ys, seen + Elements(xs))
  {
    if xs == [] {
      assert xs + ys == ys && seen + Elements(xs) == seen;
    } else {
      assert (xs + ys)[1..] == xs[1..] + ys;
      assert Elements(xs) == {xs[0]} + Elements(xs[1..]);
      if xs[0] in seen {
        FirstOccurrencesConcat(xs[1..], ys, seen);
        assert seen + Elements(xs) == seen + Elements(xs[1..]);
      } else {
        FirstOccurrencesConcat(xs[1..], ys, seen + {xs[0]});
        assert seen + Elements(xs) == seen + {xs[0]} + Elements(xs[1..]);
      }
    }
  }

  lemma {:induction false} RuleBearingConcat(h: Heap, xs: seq<NodeId>, ys: seq<NodeId>)
    ensures RuleBearing(h, xs + ys) == RuleBearing(h, xs) + RuleBearing(h, ys)
  {
    if xs == [] {
      assert xs + ys == ys;
    } else {
      assert (xs + ys)[1..] == xs[1..] + ys;
      RuleBearingConcat(h, xs[1..], ys);
    }
  }

  lemma {:induction false} NothingNew(xs: seq<NodeId>, seen: set<NodeId>)
    requires Elements(xs) <= seen
    ensures FirstOccurrences(xs, seen) == []
  {
    if xs != [] {
      assert xs[0] in Elements(xs);
      assert Elements(xs[1..]) <= Elements(xs);
      NothingNew(xs[1..], seen);
    }
  }

  lemma {:induction false} NoRepetitionsToDrop(xs: seq<NodeId>, seen: set<NodeId>)
    requires NoDup(xs) && Elements(xs) !! seen
    ensures FirstOccurrences(xs, seen) == xs
  {
    if xs != [] {
      assert xs[0] in Elements(xs);
      assert forall x | x in Elements(xs[1..]) :: x in Elements(xs) && x != xs[0];
      NoRepetitionsToDrop(xs[1..], seen + {xs[0]});
    }
  }

  // ---------------------------------------------------------------- below a visited node

  lemma {:induction false} DepthIrrelevant(h: Heap, v: Value, depth: nat, more: nat)
    requires depth <= more && Naive(h, v, depth).Visited?
    ensures Naive(h, v, more) == Naive(h, v, depth)
    decreases depth, Size(v), 1
  {
    if v.Ptr? {
      DepthIrrelevant(h, h[v.node].elem, depth - 1, more - 1);
    } else {
      DepthIrrelevantAll(h, Kids(v), depth, more);
    }
  }

  lemma {:induction false} DepthIrrelevantAll(h: Heap, vs: seq<Value>, depth: nat, more: nat)
    requires depth <= more && NaiveAll(h, vs, depth).Visited?
    ensures NaiveAll(h, vs, more) == NaiveAll(h, vs, depth)
    decreases depth, ListSize(vs), 0
  {
    if vs != [] {
      DepthIrrelevant(h, vs[0], depth, more);
      DepthIrrelevantAll(h, vs[1..], depth, more);
    }
  }

  /** What the plain walk visits below one of the nodes it visits. */
  ghost predicate Inside(h: Heap, m: NodeId, depth: nat, xs: seq<NodeId>) {
    && m in h
    && Naive(h, Ptr(m), depth).Visited?
    && |Naive(h, Ptr(m), depth).nodes| <= |xs|
    && Elements(Naive(h, Ptr(m), depth).nodes) <= Elements(xs)
  }

  lemma {:induction false} VisitedInside(h: Heap, v: Value, depth: nat, m: NodeId)
    requires Naive(h, v, depth).Visited? && m in Naive(h, v, depth).nodes
    ensures Inside(h, m, depth, Naive(h, v, depth).nodes)
    decreases depth, Size(v), 1
  {
    if v.Ptr? {
      if m != v.node {
        VisitedInside(h, h[v.node].elem, depth - 1, m);
        DepthIrrelevant(h, Ptr(m), depth - 1, depth);
      }
    } else {
      VisitedInsideAll(h, Kids(v), depth, m);
    }
  }

  lemma {:induction false} VisitedInsideAll(h: Heap, vs: seq<Value>, depth: nat, m: NodeId)
    requires NaiveAll(h, vs, depth).Visited? && m in NaiveAll(h, vs, depth).nodes
    ensures Inside(h, m, depth, NaiveAll(h, vs, depth).nodes)
    decreases depth, ListSize(vs), 0
  {
    if m in Naive(h, vs[0], depth).nodes {
      VisitedInside(h, vs[0], depth, m);
    } else {
      VisitedInsideAll(h, vs[1..], depth, m);
    }
  }

  /** A plain walk that ends has met no cycle. */
  lemma NotBelowItself(h: Heap, n: NodeId, depth: nat)
    requires depth > 0 && n in h && Naive(h, Ptr(n), depth).Visited?
    ensures n !in Naive(h, h[n].elem, depth - 1).nodes
  {
    if n in Naive(h, h[n].elem, depth - 1).nodes {
      VisitedInside(h, h[n].elem, depth - 1, n);
      DepthIrrelevant(h, Ptr(n), depth - 1, depth);
    }
  }

  // ---------------------------------------------------------------- the refinement

  /** Whatever of `xs` has been seen already was seen together with everything below it. */
  ghost predicate SeenWhole(h: Heap, xs: seq<NodeId>, depth: nat, seen: set<NodeId>) {
    forall m | m in xs && m in seen && Naive(h, Ptr(m), depth).Visited? ::
      Elements(Naive(h, Ptr(m), depth).nodes) <= seen
  }

  ghost predicate Refines(h: Heap, xs: seq<NodeId>, st: Visit, r: Visit) {
    && r.seen == st.seen + Elements(xs)
    && r.out == st.out + RuleBearing(h, FirstOccurrences(xs, st.seen))
  }

  lemma {:induction false} WalkRefinesNaive(h: Heap, v: Value, st: Visit, depth: nat)
    requires Closed(h) && Refs(v) <= h.Keys && st.seen <= h.Keys
    requires Naive(h, v, depth).Visited?
    requires SeenWhole(h, Naive(h, v, depth).nodes, depth, st.seen)
    ensures Refines(h, Naive(h, v, depth).nodes, st, Walk(h, v, st))
    decreases depth, Size(v), 1
  {
    if v.Ptr? {
      var n, xs := v.node, Naive(h, v, depth).nodes;
      if n in st.seen {
        assert n in xs;
        NothingNew(xs, st.seen);
      } else {
        PointerCase(h, n, st, depth);
      }
    } else {
      AllRefineNaive(h, Kids(v), st, depth);
    }
  }

  lemma {:induction false} PointerCase(h: Heap, n: NodeId, st: Visit, depth: nat)
    requires Closed(h) && n in h && st.seen <= h.Keys && n !in st.seen && depth > 0
    requires Naive(h, Ptr(n), depth).Visited?
    requires SeenWhole(h, Naive(h, Ptr(n), depth).nodes, depth, st.seen)
    ensures Refines(h, Naive(h, Ptr(n), depth).nodes, st, Walk(h, Ptr(n), st))
    decreases depth, 0, 0
  {
    var elem, below := h[n].elem, Naive(h, h[n].elem, depth - 1).nodes;
    NotBelowItself(h, n, depth);
    SeenWholeBelow(h, n, st.seen, depth);
    WalkRefinesNaive(h, elem, Enter(h, n, st), depth - 1);
    RefinesThroughEnter(h, n, below, st, Walk(h, elem, Enter(h, n, st)));
    WalkPointer(h, n, st);
  }

  lemma WalkPointer(h: Heap, n: NodeId, st: Visit)
    requires Closed(h) && n in h && st.seen <= h.Keys && n !in st.seen
    ensures Walk(h, Ptr(n), st) == Walk(h, h[n].elem, Enter(h, n, st))
  {
    Shrinks(h.Keys, st.seen, n);
  }

  lemma SeenWholeBelow(h: Heap, n: NodeId, seen: set<NodeId>, depth: nat)
    requires n in h && depth > 0 && Naive(h, Ptr(n), depth).Visited?
    requires n !in Naive(h, h[n].elem, depth - 1).nodes
    requires SeenWhole(h, Naive(h, Ptr(n), depth).nodes, depth, seen)
    ensures SeenWhole(h, Naive(h, h[n].elem, depth - 1).nodes, depth - 1, seen + {n})
  {
    var below := Naive(h, h[n].elem, depth - 1).nodes;
    forall m | m in below && m in seen + {n} && Naive(h, Ptr(m), depth - 1).Visited?
      ensures Elements(Naive(h, Ptr(m), depth - 1).nodes) <= seen + {n}
    {
      DepthIrrelevant(h, Ptr(m), depth - 1, depth);
      assert m in [n] + below;
    }
  }

  lemma RefinesThroughEnter(h: Heap, n: NodeId, below: seq<NodeId>, st: Visit, r: Visit)
    requires n in h && n !in st.seen
    requires Refines(h, below, Enter(h, n, st), r)
    ensures Refines(h, [n] + below, st, r)
  {
    var first := FirstOccurrences(below, st.seen + {n});
    assert ([n] + below)[1..] == below && ([n] + first)[1..] == first;
    assert FirstOccurrences([n] + below, st.seen) == [n] + first;
    assert Elements([n] + below) == {n} + Elements(below);
  }

  lemma {:induction false} AllRefineNaive(h: Heap, vs: seq<Value>, st: Visit, depth: nat)
    requires Closed(h) && RefsAll(vs) <= h.Keys && st.seen <= h.Keys
    requires NaiveAll(h, vs, depth).Visited?
    requires SeenWhole(h, NaiveAll(h, vs, depth).nodes, depth, st.seen)
    ensures Refines(h, NaiveAll(h, vs, depth).nodes, st, WalkAll(h, vs, st))
    decreases depth, ListSize(vs), 0
  {
    if vs != [] {
      var xs, ys := Naive(h, vs[0], depth).nodes, NaiveAll(h, vs[1..], depth).nodes;
      WalkRefinesNaive(h, vs[0], st, depth);
      var mid := Walk(h, vs[0], st);
      forall m | m in ys && m in mid.seen && Naive(h, Ptr(m), depth).Visited?
        ensures Elements(Naive(h, Ptr(m), depth).nodes) <= mid.seen
      {
        assert m in xs + ys;
        if m !in st.seen {
          VisitedInside(h, vs[0], depth, m);
        }
      }
      AllRefineNaive(h, vs[1..], mid, depth);
      RefinesTransitive(h, xs, ys, st, mid, WalkAll(h, vs[1..], mid));
    } else {
      assert Elements([]) == {};
    }
  }

  lemma RefinesTransitive(h: Heap, xs: seq<NodeId>, ys: seq<NodeId>, st: Visit, mid: Visit, r: Visit)
    requires Refines(h, xs, st, mid) && Refines(h, ys, mid, r)
    ensures Refines(h, xs + ys, st, r)
  {
    FirstOccurrencesConcat(xs, ys, st.seen);
    RuleBearingConcat(h, FirstOccurrences(xs, st.seen), FirstOccurrences(ys, mid.seen));
    assert Elements(xs + ys) == Elements(xs) + Elements(ys);
  }

  /** On any pointer graph whose plain walk ends, `extractStatements` returns the rule-bearing
      nodes of the plain walk, first occurrences in pre-order. */
  lemma ExtractIsDeduplicatedPreorder(h: Heap, root: Value, depth: nat)
    requires Closed(h) && Refs(root) <= h.Keys
    requires Naive(h, root, depth).Visited?
    ensures ExtractStatements(h, root) == RuleBearing(h, FirstOccurrences(Naive(h, root, depth).nodes, {}))
  {
    WalkRefinesNaive(h, root, Visit({}, []), depth);
  }

  /** On a tree, where the plain walk meets no node twice, `seen` makes no difference. */
  lemma OnTreeSeenIsRedundant(h: Heap, root: Value, depth: nat)
    requires Closed(h) && Refs(root) <= h.Keys
    requires Naive(h, root, depth).Visited? && NoDup(Naive(h, root, depth).nodes)
    ensures ExtractStatements(h, root) == RuleBearing(h, Naive(h, root, depth).nodes)
  {
    ExtractIsDeduplicatedPreorder(h, root, depth);
    NoRepetitionsToDrop(Naive(h, root, depth).nodes, {});
  }
}
