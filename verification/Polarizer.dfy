/**
 The polarizer: it puts a type in disjunctive normal form, remembering what it has computed.

 Leaf types stand for every type that a polarity leaves alone, type parameters among them; on
 this fragment the two polarities differ only in the cache they use.
 */
module Polarizer {
  import opened Sets
  import opened TypeAlgebra
  import opened NormalForms
  import TypeInterner

  datatype Polarity = Negative | Positive

  // ----- images of sets of types -----

  ghost predicate HasImage(t: Type, results: set<Type>) {
    exists r :: r in results && NormalFormOf(t, r)
  }

  ghost predicate IsImage(r: Type, sources: set<Type>) {
    exists t :: t in sources && NormalFormOf(t, r)
  }

  /** `results` holds a normal form of each source and nothing else. */
  ghost predicate Image(sources: set<Type>, results: set<Type>) {
    && (forall t :: t in sources ==> HasImage(t, results))
    && (forall r :: r in results ==> IsImage(r, sources))
  }

  lemma ImageStep(sources: set<Type>, results: set<Type>, t: Type, r: Type)
    requires Image(sources, results) && NormalFormOf(t, r)
    ensures Image(sources + {t}, results + {r})
  {
    forall x | x in sources + {t} ensures HasImage(x, results + {r}) {
      if x in sources {
        var y :| y in results && NormalFormOf(x, y);
        assert y in results + {r};
      }
    }
    forall y | y in results + {r} ensures IsImage(y, sources + {t}) {
      if y in results {
        var x :| x in sources && NormalFormOf(x, y);
        assert x in sources + {t};
      }
    }
  }

  lemma ImageCanonical(sources: set<Type>, results: set<Type>)
    requires Image(sources, results)
    ensures AllCanonical(results) && forall r :: r in results ==> Disjunctive(r)
  {
    forall r | r in results ensures Canonical(r) && Disjunctive(r) {
      assert IsImage(r, sources);
    }
  }

  lemma ImageOf(sources: set<Type>, results: set<Type>, value: set<Type>, t: Type) returns (r: Type)
    requires Image(sources, results) && Consistent(value) && t in sources
    ensures r in results && Holds(r, value) == Holds(t, value)
  {
    assert HasImage(t, results);
    r :| r in results && NormalFormOf(t, r);
  }

  lemma SourceOf(sources: set<Type>, results: set<Type>, value: set<Type>, r: Type) returns (t: Type)
    requires Image(sources, results) && Consistent(value) && r in results
    ensures t in sources && Holds(r, value) == Holds(t, value)
  {
    assert IsImage(r, sources);
    t :| t in sources && NormalFormOf(t, r);
  }

  lemma ImageMeans(k: Connective, sources: set<Type>, results: set<Type>, value: set<Type>)
    requires Image(sources, results) && Consistent(value)
    ensures Holds(Make(k, sources), value) == Holds(Make(k, results), value)
  {
    hide Image;
    var decides := k.AnyOf?;
    if Holds(Make(k, sources), value) == decides {
      var t :| t in sources && Holds(t, value) == decides;
      var r := ImageOf(sources, results, value, t);
    }
    if Holds(Make(k, results), value) == decides {
      var r :| r in results && Holds(r, value) == decides;
      var t := SourceOf(sources, results, value, r);
    }
  }

  /** Types already in normal form are their own images. */
  lemma ImageOfNormal(sources: set<Type>, results: set<Type>)
    requires Image(sources, results) && AllCanonical(sources) && forall t :: t in sources ==> Disjunctive(t)
    ensures results == sources
  {
    forall t | t in sources ensures t in results {
      assert HasImage(t, results);
      var r :| r in results && NormalFormOf(t, r);
      NormalFormUnique(t, r);
    }
    forall r | r in results ensures r in sources {
      assert IsImage(r, sources);
      var t :| t in sources && NormalFormOf(t, r);
      NormalFormUnique(t, r);
    }
  }

  // ----- the shape of what the steps produce -----

  lemma UnionIsNormal(results: set<Type>)
    requires AllCanonical(results) && forall r :: r in results ==> Disjunctive(r)
    ensures Disjunctive(Connect(AnyOf, results))
  {
    forall m | m in AllMembers(AnyOf, results) ensures Conjunctive(m) {
      var x := MemberSource(AnyOf, results, m);
    }
  }

  /** The members of an intersection of normal forms are leaves and normal-form unions. */
  lemma IntersectionMembers(results: set<Type>, m: Type)
    requires AllCanonical(results) && forall r :: r in results ==> Disjunctive(r)
    requires m in AllMembers(AllOf, results)
    ensures Leaf(m) || (m.Union? && m in results)
  {
    var x := MemberSource(AllOf, results, m);
  }

  lemma IntersectionIsNormal(results: set<Type>)
    requires AllCanonical(results) && forall r :: r in results ==> Disjunctive(r) && !r.Union?
    ensures Disjunctive(Connect(AllOf, results))
  {
    forall m | m in AllMembers(AllOf, results) ensures Leaf(m) {
      IntersectionMembers(results, m);
    }
  }

  // ----- termination -----

  /** An intersection whose elements are in normal form. */
  ghost predicate Settled(t: Type) {
    t.Intersection? && forall e :: e in t.elements ==> Disjunctive(e)
  }

  /** 0: in normal form; 1: one distribution at a time away from it; 2: neither. */
  ghost function Distance(t: Type): nat {
    if Disjunctive(t) then 0 else if Settled(t) then 1 else 2
  }

  ghost function Unions(t: Type): set<Type> {
    if Leaf(t) then {} else set e | e in t.elements && e.Union?
  }

  ghost function Pending(t: Type): nat {
    if Distance(t) == 1 then |Unions(t)| else 0
  }

  lemma ElementCloser(t: Type, e: Type)
    requires !Leaf(t) && e in t.elements
    ensures Distance(e) < Distance(t) || (Distance(e) == Distance(t) && Pending(e) == Pending(t) == 0)
  {
  }

  /** What distributing one union over the rest produces is at most a settled intersection. */
  lemma NextSettled(parts: set<Type>)
    requires AllCanonical(parts) && forall r :: r in parts ==> Disjunctive(r)
    ensures Distance(Connect(AllOf, parts)) <= 1
    ensures Distance(Connect(AllOf, parts)) == 1 ==> Unions(Connect(AllOf, parts)) <= parts
  {
    forall m | m in AllMembers(AllOf, parts) ensures Disjunctive(m) && (m.Union? ==> m in parts) {
      IntersectionMembers(parts, m);
    }
  }

  lemma FewerUnions(t: Type, next: Type, u: Type, e: Type)
    requires Distance(t) == 1 && Distance(next) == 1 && u in t.elements && u.Union? && !e.Union?
    requires Unions(next) <= t.elements - {u} + {e}
    ensures Pending(next) < Pending(t)
  {
    assert u in Unions(t) && Unions(next) <= Unions(t) - {u};
    SubsetSize(Unions(next), Unions(t) - {u});
  }

  /** Distributing one union over the rest comes closer to normal form. */
  lemma DistributedCloser(t: Type, results: set<Type>, u: Type, e: Type)
    requires Canonical(t) && t.Intersection? && Image(t.elements, results)
    requires u in results && u.Union? && e in u.elements
    ensures Distance(t) > 0
    ensures var next := Connect(AllOf, results - {u} + {e});
      Distance(next) < Distance(t) || (Distance(next) == Distance(t) && Pending(next) < Pending(t))
  {
    var next := Connect(AllOf, results - {u} + {e});
    DistributedSettled(t, results, u, e);
    if Distance(t) < 2 {
      SettledImage(t, results, u);
      hide Connect;
      if Distance(next) == 1 {
        FewerUnions(t, next, u, e);
      }
    }
  }

  lemma DistributedSettled(t: Type, results: set<Type>, u: Type, e: Type)
    requires t.Intersection? && Image(t.elements, results) && u in results && u.Union? && e in u.elements
    ensures !e.Union?
    ensures var next := Connect(AllOf, results - {u} + {e});
      Distance(next) <= 1 && (Distance(next) == 1 ==> Unions(next) <= results - {u} + {e})
  {
    ImageCanonical(t.elements, results);
    assert Canonical(u) && Disjunctive(u);
    NextSettled(results - {u} + {e});
  }

  /** A settled intersection is its own image, and has a union left to distribute. */
  lemma SettledImage(t: Type, results: set<Type>, u: Type)
    requires Canonical(t) && t.Intersection? && Image(t.elements, results) && u in results && u.Union? &&
      Distance(t) < 2
    ensures results == t.elements && Distance(t) == 1
  {
    hide Canonical, Image, Disjunctive;
    SettledElements(t);
    ImageOfNormal(t.elements, results);
    HoldsUnion(t, u);
  }

  lemma HoldsUnion(t: Type, u: Type)
    requires t.Intersection? && u in t.elements && u.Union?
    ensures !Disjunctive(t)
  {
  }

  lemma SettledElements(t: Type)
    requires Canonical(t) && t.Intersection? && Distance(t) < 2
    ensures AllCanonical(t.elements) && forall e :: e in t.elements ==> Disjunctive(e)
  {
  }

  // ----- meaning of one distribution -----

  ghost function Distributed(rest: set<Type>, elements: set<Type>): set<Type> {
    set e | e in elements :: Connect(AllOf, rest + {e})
  }

  lemma DistributedStep(rest: set<Type>, done: set<Type>, e: Type)
    ensures Distributed(rest, done + {e}) == Distributed(rest, done) + {Connect(AllOf, rest + {e})}
  {
  }

  lemma DistributionMeans(rest: set<Type>, u: Type, value: set<Type>)
    requires u.Union? && Canonical(u) && AllCanonical(rest) && Consistent(value)
    ensures Holds(Union(Distributed(rest, u.elements)), value) == Holds(Intersection(rest + {u}), value)
  {
    forall e | e in u.elements
      ensures Holds(Connect(AllOf, rest + {e}), value) == (Holds(Intersection(rest), value) && Holds(e, value))
    {
      ConnectMeans(AllOf, rest + {e}, value);
    }
    if Holds(Intersection(rest + {u}), value) {
      assert Holds(u, value);
      var e :| e in u.elements && Holds(e, value);
      assert Connect(AllOf, rest + {e}) in Distributed(rest, u.elements);
    }
  }

  lemma UnionNormalized(t: Type, results: set<Type>)
    requires t.Union? && Image(t.elements, results)
    ensures NormalFormOf(t, Connect(AnyOf, results))
  {
    ImageCanonical(t.elements, results);
    ConnectCanonical(AnyOf, results);
    UnionIsNormal(results);
    forall value | Consistent(value) ensures Holds(t, value) == Holds(Connect(AnyOf, results), value) {
      ImageMeans(AnyOf, t.elements, results, value);
      ConnectMeans(AnyOf, results, value);
    }
  }

  lemma IntersectionNormalized(t: Type, results: set<Type>)
    requires t.Intersection? && Image(t.elements, results) && forall r :: r in results ==> !r.Union?
    ensures NormalFormOf(t, Connect(AllOf, results))
  {
    ImageCanonical(t.elements, results);
    ConnectCanonical(AllOf, results);
    IntersectionIsNormal(results);
    forall value | Consistent(value) ensures Holds(t, value) == Holds(Connect(AllOf, results), value) {
      ImageMeans(AllOf, t.elements, results, value);
      ConnectMeans(AllOf, results, value);
    }
  }

  lemma DistributionNormalized(t: Type, results: set<Type>, u: Type, expanded: set<Type>)
    requires t.Intersection? && Image(t.elements, results) && u in results && u.Union?
    requires Image(Distributed(results - {u}, u.elements), expanded)
    ensures NormalFormOf(t, Connect(AnyOf, expanded))
  {
    var parts := Distributed(results - {u}, u.elements);
    ImageCanonical(t.elements, results);
    UnionNormalized(Union(parts), expanded);
    assert results - {u} + {u} == results;
    forall value | Consistent(value) ensures Holds(t, value) == Holds(Union(parts), value) {
      ImageMeans(AllOf, t.elements, results, value);
      DistributionMeans(results - {u}, u, value);
    }
  }

  // ----- the polarizer -----

  ghost predicate Remembers(cache: map<Type, Type>) {
    forall t :: t in cache ==> NormalFormOf(t, cache[t])
  }

  class Polarizer {
    var positive: map<Type, Type>
    var negative: map<Type, Type>
    /** Set where the source gives up with "Not idempotent". */
    var aborted: bool

    ghost predicate Valid()
      reads this
    {
      !aborted && Remembers(positive) && Remembers(negative)
    }

    constructor ()
      ensures Valid() && positive == negative == map[]
    {
      positive, negative, aborted := map[], map[], false;
    }

    /** The normal form of `t`; the check that a second pass changes nothing never fails. */
    method ApplyOne(t: Type, polarity: Polarity) returns (r: Type)
      requires Valid() && Canonical(t)
      modifies this
      ensures Valid() && NormalFormOf(t, r)
      decreases Distance(t), Pending(t), t, 3
    {
      if polarity.Positive? && t in positive {
        return positive[t];
      }
      if polarity.Negative? && t in negative {
        return negative[t];
      }
      r := VisitType(t, polarity);
      if Distance(t) == 0 {
        NormalFormUnique(t, r);
      }
      var repeat := VisitType(r, polarity);
      NormalFormUnique(r, repeat);
      aborted := aborted || r != repeat;
      if polarity.Positive? {
        positive := positive[t := r][r := r];
      } else {
        negative := negative[t := r][r := r];
      }
    }

    method VisitType(t: Type, polarity: Polarity) returns (r: Type)
      requires Valid() && Canonical(t)
      modifies this
      ensures Valid() && NormalFormOf(t, r)
      decreases Distance(t), Pending(t), t, 2
    {
      match t
      case Union(_) =>
        var results := ApplyAll(t, polarity);
        r := TypeInterner.MkConnective(AnyOf, results);
        UnionNormalized(t, results);
      case Intersection(_) => r := Normalize(t, polarity);
      case _ => r := t;
    }

    method ApplyAll(t: Type, polarity: Polarity) returns (results: set<Type>)
      requires Valid() && Canonical(t) && !Leaf(t)
      modifies this
      ensures Valid() && Image(t.elements, results)
      decreases Distance(t), Pending(t), t, 0
    {
      results := {};
      ghost var done: set<Type> := {};
      var rest := t.elements;
      while rest != {}
        invariant Valid() && done + rest == t.elements && Image(done, results)
        decreases |rest|
      {
        var e :| e in rest;
        ElementCloser(t, e);
        TakeOne(done, rest, e);
        var r := ApplyOne(e, polarity);
        ImageStep(done, results, e, r);
        results, done, rest := results + {r}, done + {e}, rest - {e};
      }
      assert done == t.elements;
    }

    /** Distributes an intersection over one of its unions, whichever comes first. */
    method Normalize(t: Type, polarity: Polarity) returns (r: Type)
      requires Valid() && Canonical(t) && t.Intersection?
      modifies this
      ensures Valid() && NormalFormOf(t, r)
      decreases Distance(t), Pending(t), t, 1
    {
      var results := ApplyAll(t, polarity);
      if u :| u in results && u.Union? {
        var expanded := ApplyDistributed(t, results, u, polarity);
        r := TypeInterner.MkConnective(AnyOf, expanded);
        DistributionNormalized(t, results, u, expanded);
      } else {
        r := TypeInterner.MkConnective(AllOf, results);
        IntersectionNormalized(t, results);
      }
    }

    method ApplyDistributed(t: Type, results: set<Type>, u: Type, polarity: Polarity) returns (expanded: set<Type>)
      requires Valid() && Canonical(t) && t.Intersection? && Image(t.elements, results) && u in results && u.Union?
      modifies this
      ensures Valid() && Image(Distributed(results - {u}, u.elements), expanded)
      decreases Distance(t), Pending(t), t, 0
    {
      expanded := {};
      ghost var done: set<Type> := {};
      var rest := u.elements;
      ImageCanonical(t.elements, results);
      while rest != {}
        invariant Valid() && done + rest == u.elements && Image(Distributed(results - {u}, done), expanded)
        decreases |rest|
      {
        var e :| e in rest;
        TakeOne(done, rest, e);
        var current := TypeInterner.MkConnective(AllOf, results - {u} + {e});
        ConnectCanonical(AllOf, results - {u} + {e});
        DistributedCloser(t, results, u, e);
        var x := ApplyOne(current, polarity);
        ImageStep(Distributed(results - {u}, done), expanded, current, x);
        DistributedStep(results - {u}, done, e);
        expanded, done, rest := expanded + {x}, done + {e}, rest - {e};
      }
      assert done == u.elements;
    }
  }
}
