/**
 The table behind the interner: one node for each distinct shape, where a shape holds pointers to
 its children and shapes are compared without following them.  The rest of the type algebra takes
 a pointer to be the type it stands for; this is why it may.
 */
module InternTable {
  import opened TypeAlgebra

  /** A node as it is stored. */
  datatype Shape =
    | EntityShape(definition: Definition, arguments: seq<nat>)
    | UnionShape(elements: set<nat>)
    | IntersectionShape(elements: set<nat>)
    | LeafShape(leaf: Type)

  predicate Childless(t: Type) {
    Leaf(t) && !t.Entity?
  }

  /** The pointers in a shape all lie below `n`. */
  predicate ShapeBelow(s: Shape, n: nat) {
    match s
    case EntityShape(_, arguments) => forall i :: 0 <= i < |arguments| ==> arguments[i] < n
    case UnionShape(elements) => forall p :: p in elements ==> p < n
    case IntersectionShape(elements) => forall p :: p in elements ==> p < n
    case LeafShape(leaf) => Childless(leaf)
  }

  /** Children are interned before their parents. */
  predicate Grounded(nodes: seq<Shape>) {
    forall p :: 0 <= p < |nodes| ==> ShapeBelow(nodes[p], p)
  }

  ghost predicate NoDuplicates(nodes: seq<Shape>) {
    forall p, q :: 0 <= p < |nodes| && 0 <= q < |nodes| && nodes[p] == nodes[q] ==> p == q
  }

  /** The type that a pointer stands for. */
  ghost function Meaning(nodes: seq<Shape>, p: nat): Type
    requires Grounded(nodes) && p < |nodes|
    decreases p, 1
  {
    assert ShapeBelow(nodes[p], p);
    match nodes[p]
    case EntityShape(definition, arguments) =>
      Entity(definition, seq(|arguments|, i requires 0 <= i < |arguments| => Meaning(nodes, arguments[i])))
    case UnionShape(elements) => Union(Meanings(nodes, elements, p))
    case IntersectionShape(elements) => Intersection(Meanings(nodes, elements, p))
    case LeafShape(leaf) => leaf
  }

  ghost function Meanings(nodes: seq<Shape>, ps: set<nat>, n: nat): set<Type>
    requires Grounded(nodes) && n <= |nodes| && forall p :: p in ps ==> p < n
    decreases n, 0
  {
    set p | p in ps :: Meaning(nodes, p)
  }

  /** Two pointers are equal exactly when the types they stand for are. */
  lemma {:induction false} PointerEquality(nodes: seq<Shape>, p: nat, q: nat)
    requires Grounded(nodes) && NoDuplicates(nodes) && p < |nodes| && q < |nodes|
    ensures Meaning(nodes, p) == Meaning(nodes, q) <==> p == q
    decreases p + q
  {
    if Meaning(nodes, p) == Meaning(nodes, q) {
      assert ShapeBelow(nodes[p], p) && ShapeBelow(nodes[q], q);
      match nodes[p] {
        case EntityShape(definition, arguments) =>
          assert nodes[q].EntityShape?;
          SameArguments(nodes, p, q);
        case UnionShape(elements) =>
          assert nodes[q].UnionShape?;
          SameChildren(nodes, p, q, elements, nodes[q].elements);
          SameChildren(nodes, q, p, nodes[q].elements, elements);
        case IntersectionShape(elements) =>
          assert nodes[q].IntersectionShape?;
          SameChildren(nodes, p, q, elements, nodes[q].elements);
          SameChildren(nodes, q, p, nodes[q].elements, elements);
        case LeafShape(_) =>
      }
      assert nodes[p] == nodes[q];
    }
  }

  lemma {:induction false} SameChildren(nodes: seq<Shape>, p: nat, q: nat, a: set<nat>, b: set<nat>)
    requires Grounded(nodes) && NoDuplicates(nodes) && p < |nodes| && q < |nodes|
    requires (forall x :: x in a ==> x < p) && (forall x :: x in b ==> x < q)
    requires Meanings(nodes, a, p) <= Meanings(nodes, b, q)
    ensures a <= b
    decreases p + q, 0
  {
    forall x | x in a ensures x in b {
      assert Meaning(nodes, x) in Meanings(nodes, b, q);
      var y :| y in b && Meaning(nodes, y) == Meaning(nodes, x);
      PointerEquality(nodes, x, y);
    }
  }

  lemma {:induction false} SameArguments(nodes: seq<Shape>, p: nat, q: nat)
    requires Grounded(nodes) && NoDuplicates(nodes) && p < |nodes| && q < |nodes|
    requires nodes[p].EntityShape? && nodes[q].EntityShape? && Meaning(nodes, p) == Meaning(nodes, q)
    ensures nodes[p] == nodes[q]
    decreases p + q, 0
  {
    assert ShapeBelow(nodes[p], p) && ShapeBelow(nodes[q], q);
    var a, b := nodes[p].arguments, nodes[q].arguments;
    var t, u := Meaning(nodes, p), Meaning(nodes, q);
    assert |t.arguments| == |a| && |u.arguments| == |b|;
    forall i | 0 <= i < |a| ensures a[i] == b[i] {
      assert t.arguments[i] == Meaning(nodes, a[i]) && u.arguments[i] == Meaning(nodes, b[i]);
      PointerEquality(nodes, a[i], b[i]);
    }
  }

  /** A pointer stands for the same type whatever is interned after it. */
  lemma {:induction false} MeaningKept(nodes: seq<Shape>, more: seq<Shape>, p: nat)
    requires Grounded(nodes) && Grounded(nodes + more) && p < |nodes|
    ensures Meaning(nodes + more, p) == Meaning(nodes, p)
    decreases p
  {
    var all := nodes + more;
    assert all[p] == nodes[p] && ShapeBelow(nodes[p], p);
    match nodes[p]
    case EntityShape(_, arguments) =>
      forall i | 0 <= i < |arguments| ensures Meaning(all, arguments[i]) == Meaning(nodes, arguments[i]) {
        MeaningKept(nodes, more, arguments[i]);
      }
    case UnionShape(elements) =>
      forall q | q in elements ensures Meaning(all, q) == Meaning(nodes, q) {
        MeaningKept(nodes, more, q);
      }
    case IntersectionShape(elements) =>
      forall q | q in elements ensures Meaning(all, q) == Meaning(nodes, q) {
        MeaningKept(nodes, more, q);
      }
    case LeafShape(_) =>
  }

  class Interner {
    /** Every node that has been allocated; a pointer is an index. */
    var nodes: seq<Shape>
    /** The ordered set of nodes, searched by shape. */
    var types: map<Shape, nat>

    ghost predicate Valid()
      reads this
    {
      && Grounded(nodes)
      && (forall p :: 0 <= p < |nodes| ==> nodes[p] in types && types[nodes[p]] == p)
      && (forall s :: s in types ==> types[s] < |nodes| && nodes[types[s]] == s)
    }

    constructor ()
      ensures Valid() && nodes == []
    {
      nodes, types := [], map[];
    }

    /**
     The one pointer for the shape.  All pointers given out before stand for what they stood for, and
     the pointer is one of them exactly when the type had been interned.
     */
    method Intern(value: Shape) returns (p: nat)
      requires Valid() && ShapeBelow(value, |nodes|)
      modifies this
      ensures Valid() && NoDuplicates(nodes) && old(nodes) <= nodes
      ensures p < |nodes| && nodes[p] == value
      ensures nodes == if value in old(nodes) then old(nodes) else old(nodes) + [value]
      ensures forall q :: 0 <= q < |old(nodes)| ==> Meaning(nodes, q) == Meaning(old(nodes), q)
      ensures forall q :: 0 <= q < |nodes| ==> (Meaning(nodes, q) == Meaning(nodes, p) <==> q == p)
    {
      ghost var before := nodes;
      if value !in types {
        types := types[value := |nodes|];
        nodes := nodes + [value];
        forall q | 0 <= q < |before| ensures Meaning(nodes, q) == Meaning(before, q) {
          MeaningKept(before, [value], q);
        }
      }
      p := types[value];
      forall q | 0 <= q < |nodes| ensures Meaning(nodes, q) == Meaning(nodes, p) <==> q == p {
        PointerEquality(nodes, q, p);
      }
    }
  }
}
