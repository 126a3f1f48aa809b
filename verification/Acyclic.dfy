/** When the plain walk ends: just when no cycle of pointers can be reached, and then within as many
    pointers as there are nodes. */
module Acyclic {
  import opened NodeGraph
  import opened NaiveWalk

  /** Some node that can be reached from `v` can be reached from itself. */
  ghost predicate ReachesCycle(h: Heap, v: Value) {
    exists n <- h.Keys :: Reachable(h, v, n) && Reachable(h, h[n].elem, n)
  }

  // ---------------------------------------------------------------- a walk that ends visits everything

  lemma {:induction false} RefsAreVisited(h: Heap, v: Value, depth: nat)
    requires Naive(h, v, depth).Visited?
    ensures Refs(v) <= Elements(Naive(h, v, depth).nodes)
    decreases depth, Size(v), 1
  {
    if v.Ptr? {
      assert Naive(h, v, depth).nodes[0] == v.node;
    } else {
      AllRefsAreVisited(h, Kids(v), depth);
    }
  }

  lemma {:induction false} AllRefsAreVisited(h: Heap, vs: seq<Value>, depth: nat)
    requires NaiveAll(h, vs, depth).Visited?
    ensures RefsAll(vs) <= Elements(NaiveAll(h, vs, depth).nodes)
    decreases depth, ListSize(vs), 0
  {
    if vs != [] {
      RefsAreVisited(h, vs[0], depth);
      AllRefsAreVisited(h, vs[1..], depth);
      assert NaiveAll(h, vs, depth).nodes == Naive(h, vs[0], depth).nodes + NaiveAll(h, vs[1..], depth).nodes;
    }
  }

  lemma BelowVisitedIsVisited(h: Heap, v: Value, depth: nat, m: NodeId, n: NodeId)
    requires Naive(h, v, depth).Visited? && m in Naive(h, v, depth).nodes && m in h && n in Refs(h[m].elem)
    ensures n in Naive(h, v, depth).nodes
  {
    VisitedInside(h, v, depth, m);
    RefsAreVisited(h, h[m].elem, depth - 1);
    var below := Naive(h, Ptr(m), depth).nodes;
    assert below == [m] + Naive(h, h[m].elem, depth - 1).nodes;
    assert n in Elements(Naive(h, h[m].elem, depth - 1).nodes) && n in below;
    assert n in Elements(below);
  }

  lemma {:induction false} PathIsVisited(h: Heap, v: Value, depth: nat, p: seq<NodeId>, i: nat)
    requires Naive(h, v, depth).Visited? && IsPath(h, v, p) && i < |p|
    ensures p[i] in Naive(h, v, depth).nodes
    decreases i
  {
    if i == 0 {
      RefsAreVisited(h, v, depth);
      assert p[0] in Elements(Naive(h, v, depth).nodes);
    } else {
      PathIsVisited(h, v, depth, p, i - 1);
      BelowVisitedIsVisited(h, v, depth, p[i-1], p[i]);
    }
  }

  lemma ReachableIsVisited(h: Heap, v: Value, depth: nat, n: NodeId)
    requires Naive(h, v, depth).Visited? && Reachable(h, v, n)
    ensures n in Naive(h, v, depth).nodes
  {
    var p :| IsPath(h, v, p) && p[|p|-1] == n;
    PathIsVisited(h, v, depth, p, |p| - 1);
  }

  /** A walk that ends, however deep it may go, has no cycle below it. */
  lemma EndsWithoutCycle(h: Heap, v: Value, depth: nat)
    requires Naive(h, v, depth).Visited?
    ensures !ReachesCycle(h, v)
  {
    if ReachesCycle(h, v) {
      var n :| n in h.Keys && Reachable(h, v, n) && Reachable(h, h[n].elem, n);
      ReachableIsVisited(h, v, depth, n);
      VisitedInside(h, v, depth, n);
      ReachableIsVisited(h, h[n].elem, depth - 1, n);
      NotBelowItself(h, n, depth);
    }
  }

  // ---------------------------------------------------------------- a walk that does not end

  lemma PathThroughKids(h: Heap, v: Value, vs: seq<Value>, p: seq<NodeId>)
    requires vs != [] && IsPath(h, vs[0], p) && RefsAll(vs) <= Refs(v)
    ensures IsPath(h, v, p)
  {
    assert p[0] in RefsAll(vs);
  }

  /** A walk that is cut off has gone down that many pointers. */
  lemma {:induction false} CutOffPath(h: Heap, v: Value, depth: nat) returns (p: seq<NodeId>)
    requires Closed(h) && Refs(v) <= h.Keys && Naive(h, v, depth).Unfinished?
    ensures IsPath(h, v, p) && |p| == depth + 1
    decreases depth, Size(v), 1
  {
    if v.Ptr? {
      if depth == 0 {
        p := [v.node];
      } else {
        var q := CutOffPath(h, h[v.node].elem, depth - 1);
        p := [v.node] + q;
        LongerPath(h, v, q);
      }
    } else {
      p := CutOffPathAll(h, v, Kids(v), depth);
    }
  }

  lemma LongerPath(h: Heap, v: Value, q: seq<NodeId>)
    requires v.Ptr? && v.node in h && IsPath(h, h[v.node].elem, q)
    ensures IsPath(h, v, [v.node] + q)
  {
    var p := [v.node] + q;
    forall i | 0 < i < |p| ensures p[i] in Refs(h[p[i-1]].elem) {
      assert p[i] == q[i-1];
    }
  }

  lemma {:induction false} CutOffPathAll(h: Heap, v: Value, vs: seq<Value>, depth: nat) returns (p: seq<NodeId>)
    requires Closed(h) && RefsAll(vs) <= Refs(v) && Refs(v) <= h.Keys && NaiveAll(h, vs, depth).Unfinished?
    ensures IsPath(h, v, p) && |p| == depth + 1
    decreases depth, ListSize(vs), 0
  {
    if Naive(h, vs[0], depth).Unfinished? {
      p := CutOffPath(h, vs[0], depth);
      PathThroughKids(h, v, vs, p);
    } else {
      p := CutOffPathAll(h, v, vs[1..], depth);
    }
  }

  lemma {:induction false} SizeOfDistinct(p: seq<NodeId>)
    requires NoDup(p)
    ensures |Elements(p)| == |p|
  {
    if p != [] {
      SizeOfDistinct(p[1..]);
      assert Elements(p) == {p[0]} + Elements(p[1..]);
    }
  }

  lemma Smaller(a: set<NodeId>, b: set<NodeId>)
    requires a <= b
    ensures |a| <= |b|
  {
    assert b == a + (b - a);
  }

  /** A path with more places than there are nodes comes back to one. */
  lemma LongPathRepeats(h: Heap, v: Value, p: seq<NodeId>) returns (i: nat, j: nat)
    requires IsPath(h, v, p) && |p| > |h.Keys|
    ensures i < j < |p| && p[i] == p[j]
  {
    if NoDup(p) {
      SizeOfDistinct(p);
      Smaller(Elements(p), h.Keys);
      assert false;
    }
    i, j :| 0 <= i < j < |p| && p[i] == p[j];
  }

  lemma LongPathHasCycle(h: Heap, v: Value, p: seq<NodeId>)
    requires IsPath(h, v, p) && |p| > |h.Keys|
    ensures ReachesCycle(h, v)
  {
    var i, j := LongPathRepeats(h, v, p);
    var n := p[i];
    assert IsPath(h, v, p[..i + 1]);
    assert IsPath(h, h[n].elem, p[i + 1..j + 1]);
    assert p[..i + 1][|p[..i + 1]|-1] == n && p[i + 1..j + 1][|p[i + 1..j + 1]|-1] == n;
  }

  /** The plain walk ends just when no cycle can be reached, and then within |h.Keys| pointers. */
  lemma NaiveEndsIff(h: Heap, root: Value)
    requires Closed(h) && Refs(root) <= h.Keys
    ensures Naive(h, root, |h.Keys|).Visited? <==> !ReachesCycle(h, root)
    ensures forall depth :: Naive(h, root, depth).Visited? ==> !ReachesCycle(h, root)
  {
    forall depth | Naive(h, root, depth).Visited? ensures !ReachesCycle(h, root) {
      EndsWithoutCycle(h, root, depth);
    }
    if Naive(h, root, |h.Keys|).Unfinished? {
      var p := CutOffPath(h, root, |h.Keys|);
      LongPathHasCycle(h, root, p);
    }
  }

  /** On any graph without a reachable cycle, sharing or not, `extractStatements` returns the
      rule-bearing nodes of the plain walk, first occurrences in pre-order. */
  lemma AcyclicExtractIsPreorder(h: Heap, root: Value)
    requires Closed(h) && Refs(root) <= h.Keys && !ReachesCycle(h, root)
    ensures Naive(h, root, |h.Keys|).Visited?
    ensures ExtractStatements(h, root) == RuleBearing(h, FirstOccurrences(Naive(h, root, |h.Keys|).nodes, {}))
  {
    NaiveEndsIff(h, root);
    ExtractIsDeduplicatedPreorder(h, root, |h.Keys|);
  }
}
