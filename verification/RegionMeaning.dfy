/**
 What applying a region does to a type, what unapplying gives back, and what erasing to the entity keeps:
 by the leaves of the result, by its meaning, and by telling regions apart.
 */
module RegionMeaning {
  import opened TypeAlgebra
  import opened Regions

  // ----- the leaves of the result -----

  /** A leaf that a region in this mode has been applied to. */
  predicate Bears(mode: Mode, region: Region, l: Type) {
    match l
    case Capability(Mutable, r) => r == region && !mode.Under?
    case Capability(Subregion, r) => r == region
    case Capability(Isolated, r) => if mode.Extract? then r.NoRegion? else r == region
    case Capability(Immutable, r) => r.NoRegion?
    case Parameter(_) => false
    case ApplyRegion(m, r, _) => m == mode && r == region
    case _ => true
  }

  function Bearer(mode: Mode, region: Region): Type -> bool {
    l => Bears(mode, region, l)
  }

  /** After a region has been applied, every leaf that has a region has exactly that one, in that mode. */
  lemma AppliedLeaves(mode: Mode, region: Region, t: Type)
    requires Every(HoleLeaf, t)
    ensures Every(Bearer(mode, region), Apply(mode, region, t))
  {
    EveryMap(HoleLeaf, Bearer(mode, region), Applier(mode, region), t);
  }

  predicate NoHole(l: Type) {
    !(l.Capability? && l.region.Hole?) && !l.Parameter?
  }

  /** With a region that is not itself a hole, none is left. */
  lemma NoHoleLeft(mode: Mode, region: Region, t: Type)
    requires Every(HoleLeaf, t) && !region.Hole?
    ensures Every(NoHole, Apply(mode, region, t))
  {
    AppliedLeaves(mode, region, t);
    EveryWeaken(Bearer(mode, region), NoHole, Apply(mode, region, t));
  }

  // ----- meaning -----

  ghost function PullsBack(f: Type -> Type, value: set<Type>, pulled: set<Type>): Type -> bool {
    l => (l in pulled) == Holds(f(l), value)
  }

  /** A type with its leaves rewritten means what it means where each leaf stands for what it becomes. */
  lemma {:induction false} MapMeans(f: Type -> Type, t: Type, value: set<Type>, pulled: set<Type>)
    requires Consistent(value) && (forall l :: Leaf(l) ==> Canonical(f(l))) && Every(PullsBack(f, value, pulled), t)
    ensures Holds(MapLeaves(f, t), value) == Holds(t, pulled)
    decreases t
  {
    if Leaf(t) {
      assert PullsBack(f, value, pulled)(t);
    } else {
      var k := KindOf(t);
      forall e | e in t.elements
        ensures Holds(MapLeaves(f, e), value) == Holds(e, pulled) && Canonical(MapLeaves(f, e))
      {
        MapMeans(f, e, value, pulled);
        MapCanonical(f, e);
      }
      ConnectMeans(k, Mapped(f, t.elements), value);
      MappedHolds(k, f, t.elements, value, pulled);
      assert MapLeaves(f, t) == Connect(k, Mapped(f, t.elements));
      assert t == Make(k, t.elements);
    }
  }

  lemma MappedHolds(k: Connective, f: Type -> Type, elements: set<Type>, value: set<Type>, pulled: set<Type>)
    requires forall e :: e in elements ==> Holds(MapLeaves(f, e), value) == Holds(e, pulled)
    ensures Holds(Make(k, Mapped(f, elements)), value) == Holds(Make(k, elements), pulled)
  {
    forall e | e in elements ensures MapLeaves(f, e) in Mapped(f, elements) {
    }
  }

  /** A value of a type with a region applied, as a value of the type with the hole. */
  function Pulled(mode: Mode, region: Region, value: set<Type>): set<Type> {
    (set l | l in value && (l.Entity? || l.EntityOf? || l.Plain? || l == Capability(Immutable, NoRegion))) +
    (set l | l in value && l.ApplyRegion? && l.mode == mode && l.region == region :: Parameter(l.parameter)) +
    (if Capability(Subregion, region) in value then {Capability(Subregion, Hole)} else {}) +
    (if Capability(if mode.Under? then Subregion else Mutable, region) in value then {Capability(Mutable, Hole)}
     else {}) +
    (if Capability(Isolated, if mode.Extract? then NoRegion else region) in value then {Capability(Isolated, Hole)}
     else {})
  }

  lemma PulledParameter(mode: Mode, region: Region, name: nat, value: set<Type>)
    ensures Parameter(name) in Pulled(mode, region, value) <==> ApplyRegion(mode, region, name) in value
  {
    if ApplyRegion(mode, region, name) in value {
      var l := ApplyRegion(mode, region, name);
      assert l in value && Parameter(l.parameter) == Parameter(name);
    }
  }

  lemma PulledLeaf(mode: Mode, region: Region, l: Type, value: set<Type>)
    requires Leaf(l) && HoleLeaf(l)
    ensures l in Pulled(mode, region, value) <==> ApplyLeaf(mode, region, l) in value
  {
    if l.Parameter? {
      PulledParameter(mode, region, l.name, value);
    }
  }

  /** A value has the type with the region applied exactly when, without its region, it has the type. */
  lemma ApplyMeans(mode: Mode, region: Region, t: Type, value: set<Type>)
    requires Every(HoleLeaf, t) && Consistent(value)
    ensures Holds(Apply(mode, region, t), value) == Holds(t, Pulled(mode, region, value))
  {
    var f, pulled := Applier(mode, region), Pulled(mode, region, value);
    AppliedIsLeaf(mode, region);
    hide ApplyLeaf, Pulled, HoleLeaf, Every;
    forall l | Leaf(l) && HoleLeaf(l) ensures PullsBack(f, value, pulled)(l) {
      PulledLeaf(mode, region, l, value);
    }
    EveryWeaken(HoleLeaf, PullsBack(f, value, pulled), t);
    MapMeans(f, t, value, pulled);
  }

  lemma AppliedIsLeaf(mode: Mode, region: Region)
    ensures forall l :: Leaf(l) ==> Leaf(ApplyLeaf(mode, region, l))
  {
  }

  // ----- erasing to the entity -----

  ghost function Leaves(t: Type): set<Type>
    decreases t
  {
    if Leaf(t) then {t} else set e, l | e in t.elements && l in Leaves(e) :: l
  }

  ghost function LeafOf(t: Type): Type -> bool {
    l => l in Leaves(t)
  }

  lemma {:induction false} EveryLeafOf(t: Type, whole: Type)
    requires Leaves(t) <= Leaves(whole)
    ensures Every(LeafOf(whole), t)
    decreases t
  {
    if !Leaf(t) {
      forall e | e in t.elements ensures Every(LeafOf(whole), e) {
        forall l | l in Leaves(e) ensures l in Leaves(whole) {
          assert l in Leaves(t);
        }
        EveryLeafOf(e, whole);
      }
    }
  }

  /** Read as erased, a capability says nothing, and a parameter speaks of its entity. */
  predicate ErasedHolds(l: Type, value: set<Type>) {
    match l
    case Capability(_, _) => true
    case Parameter(name) => EntityOf(name) in value
    case ApplyRegion(_, _, name) => EntityOf(name) in value
    case _ => l in value
  }

  ghost function ErasedLeaves(t: Type, value: set<Type>): set<Type> {
    set l | l in Leaves(t) && ErasedHolds(l, value)
  }

  /** A value has the erased type exactly when it has the type with every leaf read as erased. */
  lemma EntityOfMeans(t: Type, value: set<Type>)
    requires Consistent(value)
    ensures Holds(ErasedEntity(t), value) == Holds(t, ErasedLeaves(t, value))
  {
    var pulled := ErasedLeaves(t, value);
    EveryLeafOf(t, t);
    forall l | Leaf(l) && LeafOf(t)(l) ensures PullsBack(EntityLeaf, value, pulled)(l) {
      ErasedLeaf(l, value);
    }
    EveryWeaken(LeafOf(t), PullsBack(EntityLeaf, value, pulled), t);
    ErasedCanonical();
    hide EntityLeaf, ErasedHolds;
    MapMeans(EntityLeaf, t, value, pulled);
  }

  lemma ErasedLeaf(l: Type, value: set<Type>)
    requires Leaf(l)
    ensures Holds(EntityLeaf(l), value) == ErasedHolds(l, value)
  {
  }

  lemma ErasedCanonical()
    ensures forall l :: Leaf(l) ==> Canonical(EntityLeaf(l))
  {
    assert Canonical(Intersection({}));
  }

  lemma {:induction false} HoldsMore(t: Type, a: set<Type>, b: set<Type>)
    requires Holds(t, a) && forall l :: l in Leaves(t) && l in a ==> l in b
    ensures Holds(t, b)
    decreases t
  {
    if t.Union? {
      var e :| e in t.elements && Holds(e, a);
      assert forall l :: l in Leaves(e) ==> l in Leaves(t);
      HoldsMore(e, a, b);
    } else if t.Intersection? {
      forall e | e in t.elements ensures Holds(e, b) {
        assert forall l :: l in Leaves(e) ==> l in Leaves(t);
        HoldsMore(e, a, b);
      }
    }
  }

  /** A value whose parameters come with their entities. */
  ghost predicate EntitiesKnown(value: set<Type>) {
    forall l :: l in value ==>
      (l.Parameter? ==> EntityOf(l.name) in value) && (l.ApplyRegion? ==> EntityOf(l.parameter) in value)
  }

  /** Erasing never shrinks a type. */
  lemma ErasingWidens(t: Type, value: set<Type>)
    requires Consistent(value) && EntitiesKnown(value) && Holds(t, value)
    ensures Holds(ErasedEntity(t), value)
  {
    EntityOfMeans(t, value);
    forall l | l in Leaves(t) && l in value ensures l in ErasedLeaves(t, value) {
    }
    HoldsMore(t, value, ErasedLeaves(t, value));
  }

  predicate NoCapability(l: Type) {
    !l.Capability? && !l.Parameter? && !l.ApplyRegion?
  }

  /** Entities survive: a type without capabilities and parameters is its own erasure. */
  lemma EntitiesSurvive(t: Type)
    requires Canonical(t) && Every(NoCapability, t)
    ensures ErasedEntity(t) == t
  {
    MapFixed(EntityLeaf, NoCapability, t);
  }

  // ----- renaming commutes with interning -----

  /** The inverse of an invertible renaming is invertible on what was renamed. */
  lemma {:induction false} InverseUndone(f: Type -> Type, g: Type -> Type, t: Type)
    requires Every(Undone(f, g), t)
    ensures Every(Undone(g, f), Rename(f, t))
    decreases t
  {
    if Leaf(t) {
      assert Undone(f, g)(t);
      assert Undone(g, f)(f(t));
    } else {
      forall e' | e' in Renamed(f, t.elements) ensures Every(Undone(g, f), e') {
        var e :| e in t.elements && Rename(f, e) == e';
        InverseUndone(f, g, e);
      }
      assert Rename(f, t).elements == Renamed(f, t.elements);
    }
  }

  lemma InverseAll(f: Type -> Type, g: Type -> Type, elements: set<Type>)
    requires AllInvertible(f, g, elements)
    ensures AllInvertible(g, f, Renamed(f, elements)) && Renamed(g, Renamed(f, elements)) == elements
  {
    forall e' | e' in Renamed(f, elements) ensures Every(Undone(g, f), e') {
      var e :| e in elements && Rename(f, e) == e';
      InverseUndone(f, g, e);
    }
    forall e | e in elements ensures Rename(g, Rename(f, e)) == e {
      RenameInverse(f, g, e);
    }
    Restored(f, g, elements);
  }

  lemma {:induction false} RenamedMembers(k: Connective, f: Type -> Type, g: Type -> Type, t: Type)
    requires Every(Undone(f, g), t)
    ensures Members(k, Rename(f, t)) == Renamed(f, Members(k, t))
    decreases t
  {
    hide Members, Rename, Renamed, Every, AllMembers;
    RenameInverse(f, g, t);
    MembersOpen(k, t);
    MembersOpen(k, Rename(f, t));
    if Is(k, t) {
      EveryPart(Undone(f, g), t);
      forall e | e in t.elements ensures Members(k, Rename(f, e)) == Renamed(f, Members(k, e)) {
        RenamedMembers(k, f, g, e);
      }
      RenamedDual(k, f, t);
      OpenedRenamed(k, f, t.elements);
    } else {
      RenamedOne(f, t);
    }
  }

  lemma RenamedOne(f: Type -> Type, t: Type)
    ensures Renamed(f, {t}) == {Rename(f, t)}
  {
  }

  lemma EveryPart(p: Type -> bool, t: Type)
    requires Every(p, t) && !Leaf(t)
    ensures forall e :: e in t.elements ==> Every(p, e)
  {
  }

  lemma MembersOpen(k: Connective, t: Type)
    ensures Members(k, t) == if Is(k, t) then AllMembers(k, t.elements) else {t}
  {
  }

  lemma OpenedRenamed(k: Connective, f: Type -> Type, elements: set<Type>)
    requires forall e :: e in elements ==> Members(k, Rename(f, e)) == Renamed(f, Members(k, e))
    ensures AllMembers(k, Renamed(f, elements)) == Renamed(f, AllMembers(k, elements))
  {
    hide Rename, Members;
    forall m' | m' in AllMembers(k, Renamed(f, elements)) ensures m' in Renamed(f, AllMembers(k, elements)) {
      var e' :| e' in Renamed(f, elements) && m' in Members(k, e');
      var e :| e in elements && Rename(f, e) == e';
      var m :| m in Members(k, e) && Rename(f, m) == m';
      assert m in AllMembers(k, elements);
    }
    forall m' | m' in Renamed(f, AllMembers(k, elements)) ensures m' in AllMembers(k, Renamed(f, elements)) {
      var m :| m in AllMembers(k, elements) && Rename(f, m) == m';
      var e :| e in elements && m in Members(k, e);
      assert m' in Renamed(f, Members(k, e));
      assert Rename(f, e) in Renamed(f, elements);
    }
  }

  lemma MembersInvertible(k: Connective, f: Type -> Type, g: Type -> Type, elements: set<Type>)
    requires AllInvertible(f, g, elements)
    ensures AllInvertible(f, g, AllMembers(k, elements))
  {
    forall m | m in AllMembers(k, elements) ensures Every(Undone(f, g), m) {
      var e :| e in elements && m in Members(k, e);
      EveryMember(Undone(f, g), k, e, m);
    }
  }

  lemma ReduceRenamed(k: Connective, f: Type -> Type, g: Type -> Type, members: set<Type>)
    requires AllInvertible(f, g, members)
    ensures Reduce(k, Renamed(f, members)) == Renamed(f, Reduce(k, members))
  {
    InverseAll(f, g, members);
    forall m | m in members
      ensures Leaf(Rename(f, m)) == Leaf(m)
      ensures Survives(k, Renamed(f, members), Rename(f, m)) == Survives(k, members, m)
    {
      RenameInverse(f, g, m);
      if Survives(k, members, m) {
        RenamedSurvives(k, f, g, members, m);
      }
      if Survives(k, Renamed(f, members), Rename(f, m)) {
        RenamedSurvives(k, g, f, Renamed(f, members), Rename(f, m));
      }
    }
    hide Survives, Rename, AllInvertible, Leaf;
  }

  /** What interning looks at is the same before and after the renaming. */
  lemma SameTests(k: Connective, f: Type -> Type, g: Type -> Type, flat: set<Type>)
    requires AllInvertible(f, g, flat)
    ensures !ClassConflict(flat) ==> !ClassConflict(Renamed(f, flat))
    ensures Absorbing(k) !in flat ==> Absorbing(k) !in Renamed(f, flat)
    ensures |flat| != 1 ==> |Renamed(f, flat)| != 1
  {
    hide AllInvertible, Renamed, ClassConflict, Absorbing;
    if !ClassConflict(flat) { RenamedConflict(f, g, flat); }
    if Absorbing(k) !in flat { RenamedAbsorbing(k, f, g, flat); }
    if |flat| != 1 { RenamedNotSingle(f, g, flat); }
  }

  lemma CloseRenamed(k: Connective, f: Type -> Type, g: Type -> Type, flat: set<Type>)
    requires AllInvertible(f, g, flat)
    ensures Close(k, Renamed(f, flat)) == Rename(f, Close(k, flat))
  {
    hide AllInvertible, ClassConflict, Absorbing, Rename, Renamed, Make, Only;
    var image := Renamed(f, flat);
    InverseAll(f, g, flat);
    SameTests(k, f, g, flat);
    SameTests(k, g, f, image);
    RenamedUnits(k, f);
    RenamedMake(k, f, flat);
    if |flat| == 1 {
      RenamedOnly(f, flat);
    }
  }

  lemma RenamedOnly(f: Type -> Type, flat: set<Type>)
    requires |flat| == 1
    ensures |Renamed(f, flat)| == 1 && Only(Renamed(f, flat)) == Rename(f, Only(flat))
  {
    hide Rename;
    var x := Only(flat);
    assert Renamed(f, flat) == {Rename(f, x)};
    assert Only(Renamed(f, flat)) in Renamed(f, flat);
  }

  lemma RenamedMake(k: Connective, f: Type -> Type, flat: set<Type>)
    ensures Rename(f, Make(k, flat)) == Make(k, Renamed(f, flat))
  {
  }

  lemma RenamedUnits(k: Connective, f: Type -> Type)
    ensures Rename(f, Union({})) == Union({}) && Rename(f, Absorbing(k)) == Absorbing(k)
  {
  }

  /** An invertible renaming may be done before or after interning. */
  lemma ConnectRenamed(k: Connective, f: Type -> Type, g: Type -> Type, elements: set<Type>)
    requires AllInvertible(f, g, elements)
    ensures Connect(k, Renamed(f, elements)) == Rename(f, Connect(k, elements))
  {
    var members := AllMembers(k, elements);
    forall e | e in elements ensures Members(k, Rename(f, e)) == Renamed(f, Members(k, e)) {
      RenamedMembers(k, f, g, e);
    }
    OpenedRenamed(k, f, elements);
    MembersInvertible(k, f, g, elements);
    ReduceRenamed(k, f, g, members);
    assert AllInvertible(f, g, Reduce(k, members));
    CloseRenamed(k, f, g, Reduce(k, members));
  }

  function Composed(g: Type -> Type, f: Type -> Type): Type -> Type {
    l => g(f(l))
  }

  /** Rewriting leaves and then renaming them is rewriting them once. */
  lemma {:induction false} MapComposed(f: Type -> Type, g: Type -> Type, h: Type -> Type, p: Type -> bool, t: Type)
    requires Every(p, t) && forall l :: Leaf(l) ==> Leaf(f(l))
    requires forall l :: Leaf(l) && p(l) ==> Invertible(g, h, f(l))
    ensures MapLeaves(g, MapLeaves(f, t)) == MapLeaves(Composed(g, f), t)
    decreases t
  {
    if !Leaf(t) {
      var k, image := KindOf(t), Mapped(f, t.elements);
      forall e | e in t.elements
        ensures MapLeaves(g, MapLeaves(f, e)) == MapLeaves(Composed(g, f), e)
        ensures Rename(g, MapLeaves(f, e)) == MapLeaves(g, MapLeaves(f, e)) && Every(Undone(g, h), MapLeaves(f, e))
      {
        MapComposed(f, g, h, p, e);
        MapRenames(f, g, h, p, e);
      }
      MapRenames(f, g, h, p, t);
      assert MapLeaves(f, t) == Connect(k, image);
      ConnectRenamed(k, g, h, image);
      assert Renamed(g, image) == Mapped(Composed(g, f), t.elements) by {
        hide MapLeaves, Rename;
        ImagesAgree(f, g, t.elements);
      }
      assert MapLeaves(Composed(g, f), t) == Connect(k, Mapped(Composed(g, f), t.elements));
    }
  }

  lemma ImagesAgree(f: Type -> Type, g: Type -> Type, elements: set<Type>)
    requires forall e :: e in elements ==> Rename(g, MapLeaves(f, e)) == MapLeaves(Composed(g, f), e)
    ensures Renamed(g, Mapped(f, elements)) == Mapped(Composed(g, f), elements)
  {
    hide MapLeaves, Rename;
    forall e | e in elements ensures MapLeaves(Composed(g, f), e) in Renamed(g, Mapped(f, elements)) {
      assert MapLeaves(f, e) in Mapped(f, elements);
    }
  }

  lemma MapRenames(f: Type -> Type, g: Type -> Type, h: Type -> Type, p: Type -> bool, t: Type)
    requires Every(p, t) && forall l :: Leaf(l) ==> Leaf(f(l))
    requires forall l :: Leaf(l) && p(l) ==> Invertible(g, h, f(l))
    ensures Every(Undone(g, h), MapLeaves(f, t)) && MapLeaves(g, MapLeaves(f, t)) == Rename(g, MapLeaves(f, t))
  {
    MapCanonical(f, t);
    EveryMap(p, Undone(g, h), f, t);
    RenameCanonical(g, h, MapLeaves(f, t));
  }

  lemma {:induction false} MapAgrees(f: Type -> Type, g: Type -> Type, p: Type -> bool, t: Type)
    requires Every(p, t) && forall l :: Leaf(l) && p(l) ==> f(l) == g(l)
    ensures MapLeaves(f, t) == MapLeaves(g, t)
    decreases t
  {
    if !Leaf(t) {
      forall e | e in t.elements ensures MapLeaves(f, e) == MapLeaves(g, e) {
        MapAgrees(f, g, p, e);
      }
      assert Mapped(f, t.elements) == Mapped(g, t.elements);
      assert MapLeaves(f, t) == Connect(KindOf(t), Mapped(f, t.elements));
      assert MapLeaves(g, t) == Connect(KindOf(t), Mapped(g, t.elements));
    }
  }

  // ----- what comes back, and telling regions apart -----

  function SubregionLeaf(l: Type): Type {
    if l.Capability? && l.kind.Mutable? then Capability(Subregion, l.region) else l
  }

  /** The type with every mutable capability read as a subregion, which may merge and absorb members. */
  ghost function Subregioned(t: Type): Type {
    MapLeaves(SubregionLeaf, t)
  }

  predicate FixedHole(l: Type) {
    HoleLeaf(l) && NotMutable(l)
  }

  lemma SubregionedHoles(t: Type)
    requires Every(HoleLeaf, t)
    ensures Canonical(Subregioned(t)) && Every(FixedHole, Subregioned(t))
  {
    MapCanonical(SubregionLeaf, t);
    EveryMap(HoleLeaf, FixedHole, SubregionLeaf, t);
  }

  /** Under `Under` a mutable capability is applied as a subregion is. */
  lemma UnderReadsSubregions(region: Region, t: Type)
    requires Every(HoleLeaf, t)
    ensures Apply(Under, region, t) == Apply(Under, region, Subregioned(t))
  {
    var g := Applier(Under, region);
    MapComposed(SubregionLeaf, g, UnapplyLeaf, HoleLeaf, t);
    MapAgrees(g, Composed(g, SubregionLeaf), HoleLeaf, t);
  }

  /** What comes back from applying and unapplying, whatever was merged on the way. */
  lemma ComesBack(mode: Mode, region: Region, t: Type)
    requires Canonical(t) && Every(HoleLeaf, t)
    ensures Unapply(Apply(mode, region, t)) == if mode.Under? then Subregioned(t) else t
  {
    if mode.Under? {
      UnderReadsSubregions(region, t);
      SubregionedHoles(t);
      var u := Subregioned(t);
      EveryWeaken(FixedHole, HoleLeaf, u);
      EveryWeaken(FixedHole, NotMutable, u);
      UnapplyUndoesApply(mode, region, u);
    } else {
      UnapplyUndoesApply(mode, region, t);
    }
  }

  /** A leaf that the applied region leaves no mark on. */
  predicate Unmarked(mode: Mode, l: Type) {
    match l
    case Capability(Immutable, _) => true
    case Capability(Isolated, _) => mode.Extract?
    case Capability(_, _) => false
    case Parameter(_) => false
    case ApplyRegion(_, _, _) => false
    case _ => true
  }

  function Unmarking(mode: Mode): Type -> bool {
    l => Unmarked(mode, l)
  }

  lemma BearsBoth(mode: Mode, r: Region, q: Region, l: Type)
    requires r != q && Bears(mode, r, l) && Bears(mode, q, l)
    ensures Unmarked(mode, l)
  {
  }

  lemma UnmarkedBack(mode: Mode, l: Type)
    requires Leaf(l) && Unmarked(mode, l)
    ensures Every(Unmarking(mode), UnapplyLeaf(l))
  {
  }

  lemma MarksCoincide(mode: Mode, r: Region, q: Region, t: Type)
    requires Canonical(t) && Every(HoleLeaf, t) && r != q && Apply(mode, r, t) == Apply(mode, q, t)
    ensures Every(Unmarking(mode), Unapply(Apply(mode, r, t)))
  {
    hide Apply, Every, HoleLeaf, Canonical, Bears, Unmarked, UnapplyLeaf;
    var a := Apply(mode, r, t);
    AppliedLeaves(mode, r, t);
    AppliedLeaves(mode, q, t);
    forall l | Leaf(l) && Bears(mode, r, l) && Bears(mode, q, l) ensures Unmarked(mode, l) {
      BearsBoth(mode, r, q, l);
    }
    forall l | Leaf(l) && Unmarked(mode, l) ensures Every(Unmarking(mode), UnapplyLeaf(l)) {
      UnmarkedBack(mode, l);
    }
    EveryBoth(Bearer(mode, r), Bearer(mode, q), Unmarking(mode), a);
    EveryMap(Unmarking(mode), Unmarking(mode), UnapplyLeaf, a);
  }

  lemma UnmarkedAlike(mode: Mode, r: Region, q: Region, t: Type)
    requires Every(Unmarking(mode), t)
    ensures Apply(mode, r, t) == Apply(mode, q, t)
  {
    hide Every, MapLeaves;
    MapAgrees(Applier(mode, r), Applier(mode, q), Unmarking(mode), t);
  }

  /**
   Two regions give the same type if and only if no leaf takes a mark of them; under `Under`, no leaf of the
   type with mutable capabilities read as subregions, where members may have been absorbed.
   */
  lemma RegionsTold(mode: Mode, r: Region, q: Region, t: Type)
    requires Canonical(t) && Every(HoleLeaf, t) && r != q
    ensures Apply(mode, r, t) == Apply(mode, q, t) <==>
      Every(Unmarking(mode), if mode.Under? then Subregioned(t) else t)
  {
    hide Every, Apply, Unapply, Subregioned, Canonical, HoleLeaf, Unmarking;
    var u := if mode.Under? then Subregioned(t) else t;
    if mode.Under? {
      UnderReadsSubregions(r, t);
      UnderReadsSubregions(q, t);
    }
    if Every(Unmarking(mode), u) {
      UnmarkedAlike(mode, r, q, u);
    }
    if Apply(mode, r, t) == Apply(mode, q, t) {
      MarksCoincide(mode, r, q, t);
      ComesBack(mode, r, t);
    }
  }

  // ----- a mutable leaf that leaves no mark -----

  const C := Entity(Definition(0, true), [])
  const D := Entity(Definition(1, true), [])

  /** `C & ((D & mut & T) | (D & sub))`: under `Under` the union is `D & sub`, and no value is both `C` and `D`. */
  const FORGETFUL := Intersection({C, Union({Intersection({D, Capability(Mutable, Hole), Plain(0)}),
                                             Intersection({D, Capability(Subregion, Hole)})})})

  lemma FlatConnect(elements: set<Type>)
    requires (forall e :: e in elements ==> Leaf(e)) && |elements| != 1 && !ClassConflict(elements)
    ensures Canonical(Intersection(elements)) && Connect(AllOf, elements) == Intersection(elements)
  {
    assert Reduce(AllOf, elements) == elements;
    assert !Leaf(Absorbing(AllOf));
    assert Canonical(Intersection(elements));
    ConnectElements(AllOf, elements);
  }

  lemma SmallSets(a: Type, b: Type, c: Type)
    requires a != b && b != c && a != c
    ensures |{a, b}| == 2 && |{a, b, c}| == 3
  {
    assert {a, b} - {a} == {b};
    assert {a, b, c} - {a} == {b, c};
  }

  lemma TwoUnion(a: Type, b: Type)
    requires a.Intersection? && b.Intersection? && Canonical(a) && Canonical(b)
    requires !(a.elements <= b.elements) && !(b.elements <= a.elements)
    ensures Canonical(Union({a, b}))
  {
    hide Canonical;
    SmallSets(a, b, C);
    assert Survives(AnyOf, {a, b}, a) && Survives(AnyOf, {a, b}, b);
    assert Reduce(AnyOf, {a, b}) == {a, b};
    UnionOfTwo(a, b);
  }

  lemma UnionOfTwo(a: Type, b: Type)
    requires |{a, b}| == 2 && Canonical(a) && Canonical(b) && !a.Union? && !b.Union?
    requires Reduce(AnyOf, {a, b}) == {a, b} && Intersection({}) !in {a, b}
    ensures Canonical(Union({a, b}))
  {
    hide Reduce;
    var u := Union({a, b});
    assert u.elements == {a, b} && forall e :: e in u.elements ==> Canonical(e) && !Is(AnyOf, e);
  }

  lemma LeafAndUnion(c: Type, u: Type)
    requires Leaf(c) && u.Union? && Canonical(u) && c !in u.elements && u.elements != {}
    ensures Canonical(Intersection({c, u}))
  {
    assert |{c, u}| == 2 by { assert {c, u} - {c} == {u}; }
    assert Survives(AllOf, {c, u}, u);
    assert Reduce(AllOf, {c, u}) == {c, u};
    hide Reduce, Survives;
    var t := Intersection({c, u});
    assert t.elements == {c, u} && forall e :: e in t.elements ==> Canonical(e) && !Is(AllOf, e);
    assert !ClassConflict({c, u});
  }

  lemma OneClass(elements: set<Type>)
    requires forall e :: e in elements && IsClass(e) ==> e == D
    ensures !ClassConflict(elements)
  {
  }

  lemma ForgetfulCanonical()
    ensures Canonical(FORGETFUL) && Every(HoleLeaf, FORGETFUL) && !Every(NotMutable, FORGETFUL)
  {
    hide Canonical, ClassConflict, Connect;
    var mutable, sub := Capability(Mutable, Hole), Capability(Subregion, Hole);
    var x, y := {D, mutable, Plain(0)}, {D, sub};
    SmallSets(D, mutable, Plain(0));
    SmallSets(D, sub, mutable);
    OneClass(x);
    OneClass(y);
    FlatConnect(x);
    FlatConnect(y);
    assert mutable in x && mutable !in y && sub in y && sub !in x;
    TwoUnion(Intersection(x), Intersection(y));
    LeafAndUnion(C, Union({Intersection(x), Intersection(y)}));
    ForgetfulLeaves(x, y, mutable);
  }

  lemma ForgetfulLeaves(x: set<Type>, y: set<Type>, m: Type)
    requires forall e :: e in x + y ==> Leaf(e) && HoleLeaf(e)
    requires m in x && !NotMutable(m)
    ensures var t := Intersection({C, Union({Intersection(x), Intersection(y)})});
      Every(HoleLeaf, t) && !Every(NotMutable, t)
  {
    var a, b := Intersection(x), Intersection(y);
    var u := Union({a, b});
    assert Every(HoleLeaf, a) && Every(HoleLeaf, b);
    assert !Every(NotMutable, a);
    assert a in u.elements;
    assert Every(HoleLeaf, u) && !Every(NotMutable, u);
    assert u in Intersection({C, u}).elements;
  }

  lemma AbsorbedUnion(p: Type, q: Type)
    requires p.Intersection? && q.Intersection? && q.elements <= p.elements && p != q
    ensures Connect(AnyOf, {p, q}) == q
  {
    hide Reduce, Close;
    AllMembersFlat(AnyOf, {p, q});
    PairReduces(p, q);
    CloseSingle(q);
  }

  lemma PairReduces(p: Type, q: Type)
    requires p.Intersection? && q.Intersection? && q.elements <= p.elements && p != q
    ensures Reduce(AnyOf, {p, q}) == {q}
  {
    assert Survives(AnyOf, {p, q}, q) && !Survives(AnyOf, {p, q}, p);
    hide Survives;
  }

  lemma CloseSingle(q: Type)
    ensures Close(AnyOf, {q}) == q
  {
    assert Only({q}) in {q};
  }

  lemma ClassesClash(q: Type)
    requires q.Intersection? && D in q.elements
    ensures Connect(AllOf, {C, q}) == Union({})
  {
    assert C in Members(AllOf, C) && D in Members(AllOf, D) && D in Members(AllOf, q);
    var members := AllMembers(AllOf, {C, q});
    assert C in Reduce(AllOf, members) && D in Reduce(AllOf, members);
  }

  lemma MapPair(f: Type -> Type, k: Connective, a: Type, b: Type)
    ensures MapLeaves(f, Make(k, {a, b})) == Connect(k, {MapLeaves(f, a), MapLeaves(f, b)})
  {
    hide Connect;
    assert Mapped(f, {a, b}) == {MapLeaves(f, a), MapLeaves(f, b)};
    assert MapLeaves(f, Make(k, {a, b})) == Connect(k, Mapped(f, {a, b}));
  }

  lemma MapThree(f: Type -> Type, k: Connective, a: Type, b: Type, c: Type)
    ensures MapLeaves(f, Make(k, {a, b, c})) == Connect(k, {MapLeaves(f, a), MapLeaves(f, b), MapLeaves(f, c)})
  {
    hide Connect;
    assert Mapped(f, {a, b, c}) == {MapLeaves(f, a), MapLeaves(f, b), MapLeaves(f, c)};
    assert MapLeaves(f, Make(k, {a, b, c})) == Connect(k, Mapped(f, {a, b, c}));
  }

  lemma ForgetfulApplied(region: Region)
    ensures Apply(Under, region, FORGETFUL) == Union({})
  {
    hide Connect, ClassConflict;
    var f := Applier(Under, region);
    var mutable, sub, s := Capability(Mutable, Hole), Capability(Subregion, Hole), Capability(Subregion, region);
    SmallSets(D, s, Plain(0));
    OneClass({D, s, Plain(0)});
    OneClass({D, s});
    FlatConnect({D, s, Plain(0)});
    FlatConnect({D, s});
    assert MapLeaves(f, D) == D && MapLeaves(f, C) == C && MapLeaves(f, Plain(0)) == Plain(0);
    assert MapLeaves(f, mutable) == s && MapLeaves(f, sub) == s;
    MapThree(f, AllOf, D, mutable, Plain(0));
    MapPair(f, AllOf, D, sub);
    var a, b := Intersection({D, mutable, Plain(0)}), Intersection({D, sub});
    MapPair(f, AnyOf, a, b);
    MapPair(f, AllOf, C, Union({a, b}));
    var p, q := Intersection({D, s, Plain(0)}), Intersection({D, s});
    assert Plain(0) in p.elements && Plain(0) !in q.elements;
    hide MapLeaves;
    AbsorbedUnion(p, q);
    ClassesClash(q);
  }

  /** An input with a mutable leaf to which all regions apply alike under `Under`. */
  lemma UnderForgetsRegions(r: Region, q: Region)
    ensures Canonical(FORGETFUL) && Every(HoleLeaf, FORGETFUL) && !Every(NotMutable, FORGETFUL)
    ensures Apply(Under, r, FORGETFUL) == Apply(Under, q, FORGETFUL)
  {
    hide Canonical, Every, Apply;
    ForgetfulCanonical();
    ForgetfulApplied(r);
    ForgetfulApplied(q);
  }
}
