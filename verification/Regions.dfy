/**
 The operators of the interner that rewrite the leaves of a type and push through connectives:
 `mk_apply_region`, `mk_unapply_region` and `mk_entity_of`.

 A plain leaf stands for the types that all three return unchanged.
 */
module Regions {
  import opened TypeAlgebra

  ghost function KindOf(t: Type): Connective
    requires !Leaf(t)
  {
    if t.Union? then AnyOf else AllOf
  }

  ghost predicate Every(p: Type -> bool, t: Type)
    decreases t
  {
    if Leaf(t) then p(t) else forall e :: e in t.elements ==> Every(p, e)
  }

  /** Rewrites every leaf and interns each connective again. */
  ghost function MapLeaves(f: Type -> Type, t: Type): Type
    decreases t
  {
    if Leaf(t) then f(t) else Connect(KindOf(t), set e | e in t.elements :: MapLeaves(f, e))
  }

  /** Rewrites every leaf and leaves the connectives as they are. */
  ghost function Rename(f: Type -> Type, t: Type): Type
    decreases t
  {
    if Leaf(t) then f(t) else Make(KindOf(t), set e | e in t.elements :: Rename(f, e))
  }

  ghost function Renamed(f: Type -> Type, elements: set<Type>): set<Type> {
    set e | e in elements :: Rename(f, e)
  }

  // ----- the operators -----

  /** `mk_apply_region` on a leaf whose region is still a hole. */
  function ApplyLeaf(mode: Mode, region: Region, t: Type): Type {
    match t
    case Capability(Mutable, _) => Capability(if mode.Under? then Subregion else Mutable, region)
    case Capability(Subregion, _) => Capability(Subregion, region)
    case Capability(Isolated, _) => Capability(Isolated, if mode.Extract? then NoRegion else region)
    case Capability(Immutable, _) => Capability(Immutable, NoRegion)
    case Parameter(name) => ApplyRegion(mode, region, name)
    case _ => t
  }

  function UnapplyLeaf(t: Type): Type {
    match t
    case Capability(Immutable, _) => Capability(Immutable, NoRegion)
    case Capability(kind, _) => Capability(kind, Hole)
    case ApplyRegion(_, _, name) => Parameter(name)
    case _ => t
  }

  /** `mk_entity_of` on a leaf: what is left when capabilities are erased. */
  function EntityLeaf(t: Type): Type {
    match t
    case Capability(_, _) => Intersection({})
    case Parameter(name) => EntityOf(name)
    case ApplyRegion(_, _, name) => EntityOf(name)
    case _ => t
  }

  function Applier(mode: Mode, region: Region): Type -> Type {
    t => ApplyLeaf(mode, region, t)
  }

  ghost function Apply(mode: Mode, region: Region, t: Type): Type {
    MapLeaves(Applier(mode, region), t)
  }

  ghost function Unapply(t: Type): Type {
    MapLeaves(UnapplyLeaf, t)
  }

  ghost function ErasedEntity(t: Type): Type {
    MapLeaves(EntityLeaf, t)
  }

  /** The leaves that `mk_apply_region` accepts: regions are holes, and no region is applied yet. */
  predicate HoleLeaf(t: Type) {
    match t
    case Capability(Immutable, region) => region.NoRegion?
    case Capability(_, region) => region.Hole?
    case ApplyRegion(_, _, _) => false
    case _ => true
  }

  predicate NotMutable(t: Type) {
    !(t.Capability? && t.kind.Mutable?)
  }

  // ----- renaming by an invertible leaf map -----

  /** On this leaf `g` undoes `f`, and `f` neither makes, unmakes nor changes an entity. */
  ghost predicate Invertible(f: Type -> Type, g: Type -> Type, t: Type) {
    Leaf(f(t)) && g(f(t)) == t && (t.Entity? || f(t).Entity? ==> f(t) == t)
  }

  ghost function Undone(f: Type -> Type, g: Type -> Type): Type -> bool {
    t => Invertible(f, g, t)
  }

  lemma {:induction false} RenameInverse(f: Type -> Type, g: Type -> Type, t: Type)
    requires Every(Undone(f, g), t)
    ensures Rename(g, Rename(f, t)) == t
    ensures Leaf(Rename(f, t)) == Leaf(t) && (!Leaf(t) ==> KindOf(Rename(f, t)) == KindOf(t))
    decreases t
  {
    if Leaf(t) {
      assert Undone(f, g)(t);
    } else {
      forall e | e in t.elements ensures Rename(g, Rename(f, e)) == e {
        RenameInverse(f, g, e);
      }
      Restored(f, g, t.elements);
      assert Rename(f, t) == Make(KindOf(t), Renamed(f, t.elements));
      assert Rename(g, Rename(f, t)) == Make(KindOf(t), Renamed(g, Renamed(f, t.elements)));
    }
  }

  lemma Restored(f: Type -> Type, g: Type -> Type, elements: set<Type>)
    requires forall e :: e in elements ==> Rename(g, Rename(f, e)) == e
    ensures Renamed(g, Renamed(f, elements)) == elements
  {
    forall e | e in elements ensures e in Renamed(g, Renamed(f, elements)) {
      assert Rename(f, e) in Renamed(f, elements);
    }
  }

  /** Renaming is injective on the types whose leaves it can be undone on. */
  lemma RenameInjective(f: Type -> Type, g: Type -> Type, t: Type, u: Type)
    requires Every(Undone(f, g), t) && Every(Undone(f, g), u)
    requires Rename(f, t) == Rename(f, u)
    ensures t == u
  {
    RenameInverse(f, g, t);
    RenameInverse(f, g, u);
  }

  ghost predicate AllInvertible(f: Type -> Type, g: Type -> Type, elements: set<Type>) {
    forall e :: e in elements ==> Every(Undone(f, g), e)
  }

  lemma RenamedMember(f: Type -> Type, g: Type -> Type, elements: set<Type>, e: Type)
    requires AllInvertible(f, g, elements) && Every(Undone(f, g), e) && Rename(f, e) in Renamed(f, elements)
    ensures e in elements
  {
    var x :| x in elements && Rename(f, x) == Rename(f, e);
    RenameInjective(f, g, x, e);
  }

  lemma RenamedLeafFree(f: Type -> Type, g: Type -> Type, elements: set<Type>, d: Type, l': Type)
    requires AllInvertible(f, g, elements) && d in elements && !Leaf(d)
    requires forall l :: l in elements && Leaf(l) ==> l !in d.elements
    requires l' in Renamed(f, elements) && Leaf(l')
    ensures l' !in Renamed(f, d.elements)
  {
    var l :| l in elements && Rename(f, l) == l';
    RenameInverse(f, g, l);
    if l' in Renamed(f, d.elements) {
      RenamedMember(f, g, d.elements, l);
    }
  }

  lemma RenamedIncluded(f: Type -> Type, g: Type -> Type, e: Type, d: Type)
    requires Every(Undone(f, g), e) && Every(Undone(f, g), d) && !Leaf(e) && !Leaf(d)
    requires Renamed(f, e.elements) <= Renamed(f, d.elements)
    ensures e.elements <= d.elements
  {
    forall x | x in e.elements ensures x in d.elements {
      assert Rename(f, x) in Renamed(f, e.elements);
      RenamedMember(f, g, d.elements, x);
    }
  }

  lemma RenamedSurvives(k: Connective, f: Type -> Type, g: Type -> Type, elements: set<Type>, d: Type)
    requires AllInvertible(f, g, elements) && d in elements && Survives(k, elements, d)
    ensures Survives(k, Renamed(f, elements), Rename(f, d))
  {
    hide AllInvertible, Renamed, Rename, Every;
    var image := Renamed(f, elements);
    var d' := Rename(f, d);
    RenamedDual(Dual(k), f, d);
    forall l' | l' in image && Leaf(l') ensures l' !in d'.elements {
      RenamedLeafFree(f, g, elements, d, l');
    }
    forall e' | e' in image && Is(Dual(k), e') && e'.elements <= d'.elements ensures e' == d' {
      RenamedMinimal(k, f, g, elements, d, e');
    }
  }

  lemma RenamedDual(k: Connective, f: Type -> Type, d: Type)
    requires Is(k, d)
    ensures Is(k, Rename(f, d)) && Rename(f, d).elements == Renamed(f, d.elements)
  {
  }

  lemma RenamedMinimal(k: Connective, f: Type -> Type, g: Type -> Type, elements: set<Type>, d: Type, e': Type)
    requires AllInvertible(f, g, elements) && d in elements && Survives(k, elements, d)
    requires e' in Renamed(f, elements) && Is(Dual(k), e') && e'.elements <= Renamed(f, d.elements)
    ensures e' == Rename(f, d)
  {
    var e :| e in elements && Rename(f, e) == e';
    RenameInverse(f, g, e);
    RenamedIncluded(f, g, e, d);
  }

  lemma RenamedReduce(k: Connective, f: Type -> Type, g: Type -> Type, elements: set<Type>)
    requires AllInvertible(f, g, elements) && Reduce(k, elements) == elements
    ensures Reduce(k, Renamed(f, elements)) == Renamed(f, elements)
  {
    forall m' | m' in Renamed(f, elements) ensures m' in Reduce(k, Renamed(f, elements)) {
      var m :| m in elements && Rename(f, m) == m';
      RenameInverse(f, g, m);
      assert m in Reduce(k, elements);
      if !Leaf(m) {
        RenamedSurvives(k, f, g, elements, m);
      }
    }
  }

  lemma RenamedConflict(f: Type -> Type, g: Type -> Type, elements: set<Type>)
    requires AllInvertible(f, g, elements) && !ClassConflict(elements)
    ensures !ClassConflict(Renamed(f, elements))
  {
    forall m' | m' in Renamed(f, elements) && IsClass(m') ensures m' in elements {
      var m :| m in elements && Rename(f, m) == m';
      RenameInverse(f, g, m);
      assert Undone(f, g)(m);
    }
  }

  lemma RenamedNotSingle(f: Type -> Type, g: Type -> Type, elements: set<Type>)
    requires AllInvertible(f, g, elements) && |elements| != 1
    ensures |Renamed(f, elements)| != 1
  {
    if |Renamed(f, elements)| == 1 {
      var y := Only(Renamed(f, elements));
      var e :| e in elements && Rename(f, e) == y;
      assert |{e}| == 1 && elements != {e};
      var x :| x in elements && x != e;
      assert Rename(f, x) in Renamed(f, elements);
      RenameInjective(f, g, x, e);
    }
  }

  /** An invertible renaming takes canonical types to canonical types, so interning again does nothing. */
  lemma {:induction false} RenameCanonical(f: Type -> Type, g: Type -> Type, t: Type)
    requires Canonical(t) && Every(Undone(f, g), t)
    ensures Canonical(Rename(f, t)) && MapLeaves(f, t) == Rename(f, t)
    decreases t
  {
    if Leaf(t) {
      assert Undone(f, g)(t);
    } else {
      var k := KindOf(t);
      assert AllInvertible(f, g, t.elements);
      forall e | e in t.elements
        ensures Canonical(Rename(f, e)) && MapLeaves(f, e) == Rename(f, e) && Is(k, Rename(f, e)) == Is(k, e)
      {
        RenameCanonical(f, g, e);
        RenameInverse(f, g, e);
      }
      RenamedNotSingle(f, g, t.elements);
      RenamedReduce(k, f, g, t.elements);
      if k.AllOf? {
        RenamedConflict(f, g, t.elements);
      }
      RenamedAbsorbing(k, f, g, t.elements);
      assert Rename(f, t) == Make(k, Renamed(f, t.elements));
      ConnectElements(k, Renamed(f, t.elements));
      assert (set e | e in t.elements :: MapLeaves(f, e)) == Renamed(f, t.elements);
    }
  }

  lemma RenamedAbsorbing(k: Connective, f: Type -> Type, g: Type -> Type, elements: set<Type>)
    requires AllInvertible(f, g, elements) && Absorbing(k) !in elements
    ensures Absorbing(k) !in Renamed(f, elements)
  {
    if Absorbing(k) in Renamed(f, elements) {
      assert Rename(f, Absorbing(k)) == Absorbing(k);
      RenamedMember(f, g, elements, Absorbing(k));
    }
  }

  ghost function Mapped(f: Type -> Type, elements: set<Type>): set<Type> {
    set e | e in elements :: MapLeaves(f, e)
  }

  lemma MappedBack(f: Type -> Type, g: Type -> Type, elements: set<Type>)
    requires forall e :: e in elements ==> MapLeaves(g, Rename(f, e)) == e
    ensures Mapped(g, Renamed(f, elements)) == elements
  {
    forall e | e in elements ensures e in Mapped(g, Renamed(f, elements)) {
      assert Rename(f, e) in Renamed(f, elements);
    }
  }

  /** Mapping the leaves back re-interns to the type itself. */
  lemma {:induction false} MapBack(f: Type -> Type, g: Type -> Type, t: Type)
    requires Canonical(t) && Every(Undone(f, g), t)
    ensures MapLeaves(g, Rename(f, t)) == t
    decreases t
  {
    if Leaf(t) {
      RenameInverse(f, g, t);
      assert Undone(f, g)(t);
    } else {
      CanonicalParts(Undone(f, g), t);
      RenamedMap(f, g, t);
      hide MapLeaves, Rename, Connect, Every, Canonical;
      forall e | e in t.elements ensures MapLeaves(g, Rename(f, e)) == e {
        MapBack(f, g, e);
      }
      MappedBack(f, g, t.elements);
    }
  }

  lemma CanonicalParts(p: Type -> bool, t: Type)
    requires Canonical(t) && Every(p, t) && !Leaf(t)
    ensures forall e :: e in t.elements ==> Canonical(e) && Every(p, e)
    ensures Connect(KindOf(t), t.elements) == t
  {
    ConnectElements(KindOf(t), t.elements);
  }

  lemma RenamedMap(f: Type -> Type, g: Type -> Type, t: Type)
    requires !Leaf(t)
    ensures MapLeaves(g, Rename(f, t)) == Connect(KindOf(t), Mapped(g, Renamed(f, t.elements)))
  {
    var r := Rename(f, t);
    assert r.elements == Renamed(f, t.elements) && KindOf(r) == KindOf(t) && !Leaf(r);
    hide Connect, Rename, Renamed;
  }

  // ----- leaves of what the interner builds -----

  lemma {:induction false} EveryMember(p: Type -> bool, k: Connective, t: Type, m: Type)
    requires Every(p, t) && m in Members(k, t)
    ensures Every(p, m)
    decreases t
  {
    if Is(k, t) {
      var x :| x in t.elements && m in Members(k, x);
      EveryMember(p, k, x, m);
    }
  }

  /** Interning a connective makes no leaves of its own. */
  lemma EveryConnect(p: Type -> bool, k: Connective, elements: set<Type>)
    requires forall e :: e in elements ==> Every(p, e)
    ensures Every(p, Connect(k, elements))
  {
    forall m | m in AllMembers(k, elements) ensures Every(p, m) {
      var x :| x in elements && m in Members(k, x);
      EveryMember(p, k, x, m);
    }
  }

  lemma {:induction false} EveryMap(p: Type -> bool, q: Type -> bool, f: Type -> Type, t: Type)
    requires Every(p, t) && forall l :: Leaf(l) && p(l) ==> Every(q, f(l))
    ensures Every(q, MapLeaves(f, t))
    decreases t
  {
    if !Leaf(t) {
      forall e | e in t.elements ensures Every(q, MapLeaves(f, e)) {
        EveryMap(p, q, f, e);
      }
      EveryConnect(q, KindOf(t), set e | e in t.elements :: MapLeaves(f, e));
    }
  }

  lemma {:induction false} MapCanonical(f: Type -> Type, t: Type)
    requires forall l :: Leaf(l) ==> Canonical(f(l))
    ensures Canonical(MapLeaves(f, t))
    decreases t
  {
    if !Leaf(t) {
      forall e | e in t.elements ensures Canonical(MapLeaves(f, e)) {
        MapCanonical(f, e);
      }
      ConnectCanonical(KindOf(t), set e | e in t.elements :: MapLeaves(f, e));
    }
  }

  /** A canonical type whose leaves the map fixes is fixed. */
  lemma {:induction false} MapFixed(f: Type -> Type, p: Type -> bool, t: Type)
    requires Canonical(t) && Every(p, t) && forall l :: Leaf(l) && p(l) ==> f(l) == l
    ensures MapLeaves(f, t) == t
    decreases t
  {
    if !Leaf(t) {
      forall e | e in t.elements ensures MapLeaves(f, e) == e {
        MapFixed(f, p, e);
      }
      assert Mapped(f, t.elements) == t.elements;
      assert MapLeaves(f, t) == Connect(KindOf(t), Mapped(f, t.elements));
      ConnectElements(KindOf(t), t.elements);
    }
  }

  lemma {:induction false} EveryWeaken(p: Type -> bool, q: Type -> bool, t: Type)
    requires Every(p, t) && forall l :: Leaf(l) && p(l) ==> q(l)
    ensures Every(q, t)
    decreases t
  {
    if !Leaf(t) {
      forall e | e in t.elements ensures Every(q, e) {
        EveryWeaken(p, q, e);
      }
    }
  }

  lemma {:induction false} EveryBoth(p: Type -> bool, q: Type -> bool, r: Type -> bool, t: Type)
    requires Every(p, t) && Every(q, t) && forall l :: Leaf(l) && p(l) && q(l) ==> r(l)
    ensures Every(r, t)
    decreases t
  {
    if !Leaf(t) {
      forall e | e in t.elements ensures Every(r, e) {
        EveryBoth(p, q, r, e);
      }
    }
  }

  // ----- the laws -----

  lemma RoundTrip(mode: Mode, region: Region, t: Type)
    requires Canonical(t) && Every(Undone(Applier(mode, region), UnapplyLeaf), t)
    ensures Unapply(Apply(mode, region, t)) == t
  {
    RenameCanonical(Applier(mode, region), UnapplyLeaf, t);
    MapBack(Applier(mode, region), UnapplyLeaf, t);
  }

  /** Under `Under` no mutable leaf comes back. */
  lemma MutableLost(region: Region, t: Type)
    requires Every(HoleLeaf, t)
    ensures Every(NotMutable, Unapply(Apply(Under, region, t)))
  {
    EveryMap(HoleLeaf, NotMutable, Applier(Under, region), t);
    EveryMap(NotMutable, NotMutable, UnapplyLeaf, Apply(Under, region, t));
  }

  /**
   Unapplying an applied region gives back the identical type, except under `Under` for a type
   with a mutable leaf, which comes back as a subregion.
   */
  lemma UnapplyUndoesApply(mode: Mode, region: Region, t: Type)
    requires Canonical(t) && Every(HoleLeaf, t)
    ensures Unapply(Apply(mode, region, t)) == t <==> !mode.Under? || Every(NotMutable, t)
  {
    if !mode.Under? {
      EveryWeaken(HoleLeaf, Undone(Applier(mode, region), UnapplyLeaf), t);
      RoundTrip(mode, region, t);
    } else if Every(NotMutable, t) {
      EveryBoth(HoleLeaf, NotMutable, Undone(Applier(mode, region), UnapplyLeaf), t);
      RoundTrip(mode, region, t);
    } else {
      MutableLost(region, t);
    }
  }

  /** A mutable capability in the hole comes back from `Under` as a subregion. */
  lemma UnderLosesMutable(region: Region)
    ensures var t := Capability(Mutable, Hole);
      Unapply(Apply(Under, region, t)) == Capability(Subregion, Hole) != t
  {
    var t := Capability(Mutable, Hole);
    assert Apply(Under, region, t) == Capability(Subregion, region);
  }

  predicate EntityLike(t: Type) {
    EntityLeaf(t) == t
  }

  /** Erasing capabilities twice is erasing them once, though the first pass merges and absorbs members. */
  lemma EntityOfIdempotent(t: Type)
    ensures ErasedEntity(ErasedEntity(t)) == ErasedEntity(t)
    ensures Canonical(ErasedEntity(t))
  {
    MapCanonical(EntityLeaf, t);
    EveryLeaf(t);
    EveryMap(Leaf, EntityLike, EntityLeaf, t);
    MapFixed(EntityLeaf, EntityLike, ErasedEntity(t));
  }

  lemma {:induction false} EveryLeaf(t: Type)
    ensures Every(Leaf, t)
    decreases t
  {
    if !Leaf(t) {
      forall e | e in t.elements ensures Every(Leaf, e) {
        EveryLeaf(e);
      }
    }
  }
}
