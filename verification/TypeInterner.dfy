/**
 `TypeInterner::mk_connective` as it runs: it walks its pointer-ordered sets and updates `duals`
 and `others` in place.  The walks below take the elements in any order at all, so what is proved
 of the result does not depend on addresses.
 */
module TypeInterner {
  import opened TypeAlgebra

  /** `duals` and `others` hold exactly what reduction keeps of the members seen so far. */
  ghost predicate Tracks(k: Connective, seen: set<Type>, duals: set<Type>, others: set<Type>) {
    && others == (set m | m in seen && Leaf(m))
    && duals == (set m | m in seen && Survives(k, seen, m))
  }

  lemma TracksReduce(k: Connective, seen: set<Type>, duals: set<Type>, others: set<Type>)
    requires Tracks(k, seen, duals, others)
    ensures others + duals == Reduce(k, seen)
  {
  }

  /** A dual that includes a dual at hand or contains a leaf at hand changes nothing. */
  lemma RedundantDual(k: Connective, seen: set<Type>, duals: set<Type>, others: set<Type>, d: Type)
    requires Tracks(k, seen, duals, others) && Is(Dual(k), d)
    requires (exists e :: e in duals && e.elements <= d.elements) || (exists l :: l in others && l in d.elements)
    ensures Tracks(k, seen + {d}, duals, others)
  {
    forall m | m in seen && Survives(k, seen, m) ensures Survives(k, seen + {d}, m) {
      if d.elements <= m.elements {
        assert forall l :: l in others ==> l !in m.elements;
        var e :| e in duals && e.elements <= d.elements;
        assert e == m;
      }
    }
  }

  /** Any other dual comes in and drives out those that include it. */
  lemma FreshDual(k: Connective, seen: set<Type>, duals: set<Type>, others: set<Type>, d: Type)
    requires Tracks(k, seen, duals, others) && Is(Dual(k), d)
    requires !(exists e :: e in duals && e.elements <= d.elements) && !(exists l :: l in others && l in d.elements)
    ensures Tracks(k, seen + {d}, (set e | e in duals && !(d.elements <= e.elements)) + {d}, others)
  {
    forall e | e in seen && Is(Dual(k), e) && e.elements <= d.elements ensures false {
      var low := Dropped(k, seen, e);
    }
    assert Survives(k, seen + {d}, d);
  }

  /** A leaf comes in and drives out the duals that contain it. */
  lemma FreshLeaf(k: Connective, seen: set<Type>, duals: set<Type>, others: set<Type>, l: Type)
    requires Tracks(k, seen, duals, others) && Leaf(l)
    ensures Tracks(k, seen + {l}, (set e | e in duals && l !in e.elements), others + {l})
  {
  }

  /** The erasing loops: keep the duals that do not include `d`. */
  method EraseIncluding(duals: set<Type>, d: Type) returns (kept: set<Type>)
    requires !Leaf(d) && forall e :: e in duals ==> e.Union? || e.Intersection?
    ensures kept == set e | e in duals && !(d.elements <= e.elements)
  {
    kept := duals;
    var rest := duals;
    while rest != {}
      invariant rest <= duals
      invariant kept == set e | e in duals && (e in rest || !(d.elements <= e.elements))
      decreases |rest|
    {
      var e :| e in rest;
      rest := rest - {e};
      if d.elements <= e.elements {
        kept := kept - {e};
      }
    }
  }

  method EraseContaining(duals: set<Type>, l: Type) returns (kept: set<Type>)
    requires forall e :: e in duals ==> e.Union? || e.Intersection?
    ensures kept == set e | e in duals && l !in e.elements
  {
    kept := duals;
    var rest := duals;
    while rest != {}
      invariant rest <= duals
      invariant kept == set e | e in duals && (e in rest || l !in e.elements)
      decreases |rest|
    {
      var e :| e in rest;
      rest := rest - {e};
      if l in e.elements {
        kept := kept - {e};
      }
    }
  }

  /** One element that is not itself a `k`-connective. */
  method Absorb(k: Connective, child: Type, duals: set<Type>, others: set<Type>, ghost seen: set<Type>)
      returns (duals': set<Type>, others': set<Type>)
    requires !Is(k, child) && Tracks(k, seen, duals, others)
    ensures Tracks(k, seen + {child}, duals', others')
  {
    duals', others' := duals, others;
    if Is(Dual(k), child) {
      if (forall e :: e in duals ==> !(e.elements <= child.elements)) && (forall l :: l in others ==>
        l !in child.elements) {
        FreshDual(k, seen, duals, others, child);
        duals' := EraseIncluding(duals, child);
        duals' := duals' + {child};
      } else {
        RedundantDual(k, seen, duals, others, child);
      }
    } else {
      FreshLeaf(k, seen, duals, others, child);
      if child !in others {
        others' := others + {child};
        duals' := EraseContaining(duals, child);
      } else {
        assert seen + {child} == seen;
      }
    }
  }

  /** `flatten_connective` on the elements of `t`, given what earlier elements have left behind. */
  method FlattenInto(k: Connective, t: Type, duals: set<Type>, others: set<Type>, ghost seen: set<Type>)
      returns (duals': set<Type>, others': set<Type>)
    requires Is(k, t) && Tracks(k, seen, duals, others)
    ensures Tracks(k, seen + Members(k, t), duals', others')
    decreases t
  {
    duals', others' := duals, others;
    ghost var done: set<Type> := {};
    assert seen + AllMembers(k, done) == seen;
    var rest := t.elements;
    while rest != {}
      invariant done + rest == t.elements
      invariant Tracks(k, seen + AllMembers(k, done), duals', others')
      decreases |rest|
    {
      var child :| child in rest;
      OneMore(k, seen, done, child);
      if Is(k, child) {
        duals', others' := FlattenInto(k, child, duals', others', seen + AllMembers(k, done));
      } else {
        duals', others' := Absorb(k, child, duals', others', seen + AllMembers(k, done));
      }
      done := done + {child};
      rest := rest - {child};
    }
    assert done == t.elements;
    MembersAll(k, t);
  }

  lemma MembersAll(k: Connective, t: Type)
    requires Is(k, t)
    ensures Members(k, t) == AllMembers(k, t.elements)
  {
  }

  lemma OneMore(k: Connective, seen: set<Type>, done: set<Type>, child: Type)
    ensures seen + AllMembers(k, done + {child}) == seen + AllMembers(k, done) + Members(k, child)
    ensures !Is(k, child) ==> Members(k, child) == {child}
  {
    AllMembersUnion(k, done, {child});
    AllMembersOne(k, child);
  }

  /** The scan for two different classes among the elements of an intersection. */
  method FindClassConflict(elements: set<Type>) returns (found: bool)
    ensures found == ClassConflict(elements)
  {
    var rest := elements;
    var first: seq<Definition> := [];
    while rest != {}
      invariant rest <= elements && |first| <= 1
      invariant forall e :: e in elements - rest && IsClass(e) ==> first == [e.definition]
      invariant first != [] ==> exists e :: e in elements - rest && IsClass(e) && e.definition == first[0]
      decreases |rest|
    {
      var e :| e in rest;
      if IsClass(e) {
        if first != [] && first[0] != e.definition {
          return true;
        }
        first := [e.definition];
      }
      rest := rest - {e};
    }
    found := false;
  }

  /** `mk_connective`: the canonical connective, whatever the order of the walks. */
  method MkConnective(k: Connective, elements: set<Type>) returns (r: Type)
    ensures r == Connect(k, elements)
  {
    assert Tracks(k, {}, {}, {});
    var duals, others := FlattenInto(k, Make(k, elements), {}, {}, {});
    ghost var seen := AllMembers(k, elements);
    assert {} + Members(k, Make(k, elements)) == seen;
    TracksReduce(k, seen, duals, others);
    var flat := others + duals;
    if k.AllOf? {
      var conflict := FindClassConflict(flat);
      if conflict {
        return Union({});
      }
    }
    if Absorbing(k) in flat {
      return Absorbing(k);
    }
    if |flat| == 1 {
      var x :| x in flat;
      assert flat == {Only(flat)};
      return x;
    }
    r := Make(k, flat);
  }
}
