/** `walkNodeTree` in its own form: a recursive walk that updates a `seen` set and appends to an
    output list in place, proved against `NodeGraph.Walk`. */
module Walker {
  import opened NodeGraph

  class Collector {
    const heap: Heap
    var seen: set<NodeId>
    var out: seq<NodeId>

    ghost predicate Valid()
      reads this
    {
      Closed(heap) && seen <= heap.Keys
    }

    ghost function State(): Visit
      reads this
    {
      Visit(seen, out)
    }

    constructor (heap: Heap)
      requires Closed(heap)
      ensures Valid() && this.heap == heap && State() == Visit({}, [])
    {
      this.heap := heap;
      seen, out := {}, [];
    }

    method WalkNodeTree(v: Value)
      requires Valid() && Refs(v) <= heap.Keys
      modifies this
      ensures Valid() && State() == Walk(heap, v, old(State()))
      decreases |heap.Keys - seen|, Size(v), 1
    {
      match v
      case Iface(elem) =>
        SingleKid(v, elem, heap, State());
        WalkNodeTree(elem);
      case Ptr(n) =>
        if n in seen {
          return;
        }
        Shrinks(heap.Keys, seen, n);
        seen := seen + {n};
        if IsFilteredStmtType(heap[n].ty) {
          out := out + [n];
        }
        assert State() == Enter(heap, n, old(State()));
        WalkNodeTree(heap[n].elem);
      case Struct(fields) =>
        WalkFields(fields);
      case List(elems) =>
        WalkElements(elems);
      case Dict(entries) =>
        WalkElements(entries);
      case _ =>
    }

    /** The struct case: a loop over the fields that skips the unexported ones. */
    method WalkFields(fields: seq<Field>)
      requires Valid() && RefsAll(ExportedValues(fields)) <= heap.Keys
      modifies this
      ensures Valid() && State() == WalkAll(heap, ExportedValues(fields), old(State()))
      decreases |heap.Keys - seen|, FieldsSize(fields), 0
    {
      var i := 0;
      while i < |fields|
        invariant 0 <= i <= |fields|
        invariant Valid() && old(seen) <= seen
        invariant FieldsSize(fields[i..]) <= FieldsSize(fields)
        invariant RefsAll(ExportedValues(fields[i..])) <= heap.Keys
        invariant WalkAll(heap, ExportedValues(fields[i..]), State())
               == WalkAll(heap, ExportedValues(fields), old(State()))
      {
        assert fields[i..][1..] == fields[i + 1..];
        if fields[i].exported {
          ghost var rest := ExportedValues(fields[i + 1..]);
          assert ExportedValues(fields[i..]) == [fields[i].value] + rest;
          StepAll(heap, fields[i].value, rest, State());
          NoGrowth(heap.Keys, old(seen), seen);
          WalkNodeTree(fields[i].value);
        }
        i := i + 1;
      }
    }

    /** The slice, array and map cases: a loop over every element. */
    method WalkElements(elems: seq<Value>)
      requires Valid() && RefsAll(elems) <= heap.Keys
      modifies this
      ensures Valid() && State() == WalkAll(heap, elems, old(State()))
      decreases |heap.Keys - seen|, ListSize(elems), 0
    {
      var i := 0;
      while i < |elems|
        invariant 0 <= i <= |elems|
        invariant Valid() && old(seen) <= seen
        invariant ListSize(elems[i..]) <= ListSize(elems)
        invariant RefsAll(elems[i..]) <= heap.Keys
        invariant WalkAll(heap, elems[i..], State()) == WalkAll(heap, elems, old(State()))
      {
        assert elems[i..] == [elems[i]] + elems[i + 1..];
        StepAll(heap, elems[i], elems[i + 1..], State());
        NoGrowth(heap.Keys, old(seen), seen);
        WalkNodeTree(elems[i]);
        i := i + 1;
      }
    }
  }

  lemma StepAll(h: Heap, v: Value, rest: seq<Value>, st: Visit)
    requires Closed(h) && RefsAll([v] + rest) <= h.Keys && st.seen <= h.Keys
    ensures Refs(v) <= h.Keys && RefsAll(rest) <= h.Keys
    ensures ListSize([v] + rest) == 1 + Size(v) + ListSize(rest)
    ensures WalkAll(h, [v] + rest, st) == WalkAll(h, rest, Walk(h, v, st))
  {
    assert ([v] + rest)[1..] == rest;
  }

  lemma SingleKid(v: Value, elem: Value, h: Heap, st: Visit)
    requires v == Iface(elem)
    requires Closed(h) && Refs(v) <= h.Keys && st.seen <= h.Keys
    ensures Refs(elem) <= h.Keys && Walk(h, v, st) == Walk(h, elem, st)
  {
    assert [elem] == [elem] + [];
    StepAll(h, elem, [], st);
  }

  /** `extractStatements`: a fresh `seen` map, a fresh list, one walk from the root. */
  method CollectStatements(h: Heap, root: Value) returns (out: seq<NodeId>)
    requires Closed(h) && Refs(root) <= h.Keys
    ensures forall n :: n in out <==> Linked(h, root, n) && n in h && IsFilteredStmtType(h[n].ty)
    ensures NoDup(out)
    ensures out == ExtractStatements(h, root)
  {
    var c := new Collector(h);
    c.WalkNodeTree(root);
    out := c.out;
    ExtractIsExactReachability(h, root);
  }
}
