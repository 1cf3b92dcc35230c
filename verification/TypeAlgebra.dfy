/**
 Interned types and the canonical form the interner gives to unions and intersections.

 The interner stores one node per distinct type, so a pointer is a value here and pointer
 equality is equality.  The fragment holds the leaf types that the operators below treat as
 units, and the two connectives.  A definition is generic in the connective: `AnyOf` builds
 unions, whose duals are intersections, and `AllOf` builds intersections, whose duals are unions.
 */
module TypeAlgebra {
  import opened Sets

  datatype Region = Hole | NoRegion | Named(name: nat)

  datatype CapabilityKind = Mutable | Subregion | Isolated | Immutable

  /** The modes of `ApplyRegionType`. */
  datatype Mode = Adapt | Extract | Under

  datatype Definition = Definition(name: nat, isClass: bool)

  datatype Type =
    | Entity(definition: Definition, arguments: seq<Type>)
    | Capability(kind: CapabilityKind, region: Region)
    | Parameter(name: nat)
    | ApplyRegion(mode: Mode, region: Region, parameter: nat)
    | EntityOf(parameter: nat)
    | Plain(name: nat)
    | Union(elements: set<Type>)
    | Intersection(elements: set<Type>)

  datatype Connective = AnyOf | AllOf

  function Dual(k: Connective): Connective {
    if k.AnyOf? then AllOf else AnyOf
  }

  function Make(k: Connective, elements: set<Type>): Type {
    if k.AnyOf? then Union(elements) else Intersection(elements)
  }

  predicate Is(k: Connective, t: Type) {
    if k.AnyOf? then t.Union? else t.Intersection?
  }

  predicate Leaf(t: Type) {
    !t.Union? && !t.Intersection?
  }

  /** The unit of the dual connective, which absorbs everything under `k`. */
  function Absorbing(k: Connective): Type {
    Make(Dual(k), {})
  }

  // ----- what mk_connective computes -----

  /** The types below `t` once nested `k`-connectives are opened. */
  function Members(k: Connective, t: Type): set<Type>
    decreases t
  {
    if Is(k, t) then set x, m | x in t.elements && m in Members(k, x) :: m else {t}
  }

  function AllMembers(k: Connective, elements: set<Type>): set<Type> {
    set x, m | x in elements && m in Members(k, x) :: m
  }

  /** A dual survives when it contains no leaf at hand and includes no other dual at hand. */
  predicate Survives(k: Connective, members: set<Type>, d: Type) {
    && Is(Dual(k), d)
    && (forall l :: l in members && Leaf(l) ==> l !in d.elements)
    && (forall e :: e in members && Is(Dual(k), e) && e.elements <= d.elements ==> e == d)
  }

  /** All leaves, and the minimal duals that contain none of them. */
  function Reduce(k: Connective, members: set<Type>): set<Type> {
    set m | m in members && (Leaf(m) || Survives(k, members, m))
  }

  function Flatten(k: Connective, elements: set<Type>): set<Type> {
    Reduce(k, AllMembers(k, elements))
  }

  predicate IsClass(t: Type) {
    t.Entity? && t.definition.isClass
  }

  predicate ClassConflict(elements: set<Type>) {
    exists a, b :: a in elements && b in elements && IsClass(a) && IsClass(b) && a.definition != b.definition
  }

  /** The interned connective of a set of types. */
  ghost function Connect(k: Connective, elements: set<Type>): Type {
    Close(k, Flatten(k, elements))
  }

  ghost function Close(k: Connective, flat: set<Type>): Type {
    if k.AllOf? && ClassConflict(flat) then Union({})
    else if Absorbing(k) in flat then Absorbing(k)
    else if |flat| == 1 then Only(flat)
    else Make(k, flat)
  }

  ghost function Only(s: set<Type>): (x: Type)
    requires |s| == 1
    ensures s == {x}
  {
    var x :| x in s;
    assert |s - {x}| == 0;
    x
  }

  // ----- canonical types -----

  /** The types the interner can hold. */
  ghost predicate Canonical(t: Type)
    decreases t
  {
    Leaf(t) ||
    var k := if t.Union? then AnyOf else AllOf;
    && |t.elements| != 1
    && (forall e :: e in t.elements ==> Canonical(e) && !Is(k, e))
    && Reduce(k, t.elements) == t.elements
    && Absorbing(k) !in t.elements
    && (k.AllOf? ==> !ClassConflict(t.elements))
  }

  ghost predicate AllCanonical(elements: set<Type>) {
    forall e :: e in elements ==> Canonical(e)
  }

  lemma {:induction false} MembersCanonical(k: Connective, t: Type)
    requires Canonical(t)
    ensures Is(k, t) ==> Members(k, t) == t.elements
    ensures forall m :: m in Members(k, t) ==> Canonical(m) && !Is(k, m)
  {
    if Is(k, t) {
      forall x | x in t.elements ensures Members(k, x) == {x} {
        assert Canonical(x) && !Is(k, x);
      }
      OpenedOnce(k, t);
    }
  }

  lemma OpenedOnce(k: Connective, t: Type)
    requires Is(k, t) && forall x :: x in t.elements ==> Members(k, x) == {x}
    ensures Members(k, t) == t.elements
  {
    forall m | m in Members(k, t) ensures m in t.elements {
      var x :| x in t.elements && m in Members(k, x);
    }
    forall x | x in t.elements ensures x in Members(k, t) {
      assert x in Members(k, x);
    }
  }

  lemma AllMembersCanonical(k: Connective, elements: set<Type>)
    requires AllCanonical(elements)
    ensures forall m :: m in AllMembers(k, elements) ==> Canonical(m) && !Is(k, m)
  {
    forall x | x in elements ensures forall m :: m in Members(k, x) ==> Canonical(m) && !Is(k, m) {
      MembersCanonical(k, x);
    }
  }

  /** Where a member of canonical types comes from: it is one of them, or an element of one. */
  lemma MemberSource(k: Connective, elements: set<Type>, m: Type) returns (x: Type)
    requires AllCanonical(elements) && m in AllMembers(k, elements)
    ensures x in elements && if Is(k, x) then m in x.elements else m == x
  {
    x :| x in elements && m in Members(k, x);
    MembersCanonical(k, x);
  }

  /** With no nested connective there is nothing to open. */
  lemma AllMembersFlat(k: Connective, elements: set<Type>)
    requires forall e :: e in elements ==> !Is(k, e)
    ensures AllMembers(k, elements) == elements
  {
    assert forall e :: e in elements ==> Members(k, e) == {e};
  }

  lemma AllMembersOne(k: Connective, t: Type)
    ensures AllMembers(k, {t}) == Members(k, t)
  {
  }

  lemma AllMembersUnion(k: Connective, a: set<Type>, b: set<Type>)
    ensures AllMembers(k, a + b) == AllMembers(k, a) + AllMembers(k, b)
  {
  }

  /** Below every dual there is a minimal one. */
  lemma {:induction false} MinimalDual(k: Connective, members: set<Type>, d: Type) returns (low: Type)
    requires d in members && Is(Dual(k), d)
    ensures low in members && Is(Dual(k), low) && low.elements <= d.elements
    ensures forall e :: e in members && Is(Dual(k), e) && e.elements <= low.elements ==> e == low
    decreases |d.elements|
  {
    if e :| e in members && Is(Dual(k), e) && e.elements <= d.elements && e != d {
      assert e.elements < d.elements;
      SubsetSize(e.elements, d.elements);
      low := MinimalDual(k, members, e);
    } else {
      low := d;
    }
  }

  /** A walk over a set moves one element from what is left to what is done. */
  lemma TakeOne(done: set<Type>, rest: set<Type>, e: Type)
    requires e in rest
    ensures (done + {e}) + (rest - {e}) == done + rest && |rest - {e}| < |rest|
  {
  }

  /** What reduction drops, it drops because something it keeps makes it redundant. */
  lemma Dropped(k: Connective, members: set<Type>, d: Type) returns (low: Type)
    requires d in members && Is(Dual(k), d)
    ensures low in Reduce(k, members)
    ensures (Leaf(low) && low in d.elements) || (Is(Dual(k), low) && low.elements <= d.elements)
  {
    if l :| l in members && Leaf(l) && l in d.elements {
      low := l;
    } else {
      low := MinimalDual(k, members, d);
    }
  }

  /** Reducing early makes no difference. */
  lemma ReduceUnion(k: Connective, a: set<Type>, b: set<Type>)
    requires forall m :: m in a + b ==> !Is(k, m)
    ensures Reduce(k, Reduce(k, a) + b) == Reduce(k, a + b)
  {
    var r := Reduce(k, a);
    forall d | d in r + b && Survives(k, r + b, d) ensures Survives(k, a + b, d) {
      forall e | e in a + b && Is(Dual(k), e) && e.elements <= d.elements ensures e == d {
        if e in a {
          var low := Dropped(k, a, e);
        }
      }
    }
    forall d | d in a + b && Survives(k, a + b, d) ensures d in r + b && Survives(k, r + b, d) {
    }
  }

  lemma ReduceIdempotent(k: Connective, members: set<Type>)
    requires forall m :: m in members ==> !Is(k, m)
    ensures Reduce(k, Reduce(k, members)) == Reduce(k, members)
  {
    ReduceUnion(k, members, {});
    assert Reduce(k, members) + {} == Reduce(k, members);
    assert members + {} == members;
  }

  // ----- the laws of the connectives -----

  /** The interner yields canonical types only. */
  lemma ConnectCanonical(k: Connective, elements: set<Type>)
    requires AllCanonical(elements)
    ensures Canonical(Connect(k, elements))
  {
    var flat := Flatten(k, elements);
    AllMembersCanonical(k, elements);
    ReduceIdempotent(k, AllMembers(k, elements));
  }

  /** A canonical connective is what its own elements connect to. */
  lemma ConnectElements(k: Connective, elements: set<Type>)
    requires Canonical(Make(k, elements))
    ensures Connect(k, elements) == Make(k, elements)
  {
    AllMembersFlat(k, elements);
  }

  lemma CloseOne(k: Connective, t: Type)
    requires !Is(k, t)
    ensures Close(k, Reduce(k, {t})) == t
  {
    assert Leaf(t) || Survives(k, {t}, t);
    assert Reduce(k, {t}) == {t};
    assert Only({t}) in {t};
  }

  /** Connecting one type gives that type. */
  lemma ConnectOne(k: Connective, t: Type)
    requires Canonical(t)
    ensures Connect(k, {t}) == t
  {
    MembersCanonical(k, t);
    AllMembersOne(k, t);
    if Is(k, t) {
      ConnectElements(k, t.elements);
      AllMembersFlat(k, t.elements);
    } else {
      CloseOne(k, t);
    }
  }

  lemma ClosedMembers(k: Connective, flat: set<Type>)
    requires forall m :: m in flat ==> !Is(k, m)
    requires !(k.AllOf? && ClassConflict(flat)) && Absorbing(k) !in flat
    ensures AllMembers(k, {Close(k, flat)}) == flat
  {
    var c := Close(k, flat);
    AllMembersOne(k, c);
    if |flat| != 1 {
      assert Members(k, c) == AllMembers(k, flat);
      AllMembersFlat(k, flat);
    }
  }

  /** An absorbing element survives every reduction. */
  lemma AbsorbingSurvives(k: Connective, members: set<Type>)
    requires Absorbing(k) in members
    ensures Absorbing(k) in Reduce(k, members)
    ensures Close(k, Reduce(k, members)) == Absorbing(k)
  {
    assert Survives(k, members, Absorbing(k));
  }

  /** Connectives are associative up to pointer equality; with sets, commutative and idempotent too. */
  lemma ConnectAssociative(k: Connective, a: set<Type>, b: set<Type>)
    requires AllCanonical(a) && AllCanonical(b)
    ensures Connect(k, {Connect(k, a)} + b) == Connect(k, a + b)
  {
    var ma, mb := AllMembers(k, a), AllMembers(k, b);
    var flat := Reduce(k, ma);
    var c := Connect(k, a);
    AllMembersCanonical(k, a);
    AllMembersCanonical(k, b);
    AllMembersUnion(k, {c}, b);
    AllMembersUnion(k, a, b);
    if k.AllOf? && ClassConflict(flat) {
      assert c == Absorbing(k);
      assert AllMembers(k, {c}) == {c} by { AllMembersFlat(k, {c}); }
      AbsorbingSurvives(k, {c} + mb);
      var x, y :| x in flat && y in flat && IsClass(x) && IsClass(y) && x.definition != y.definition;
      assert x in Reduce(k, ma + mb) && y in Reduce(k, ma + mb);
    } else if Absorbing(k) in flat {
      assert AllMembers(k, {c}) == {c} by { AllMembersFlat(k, {c}); }
      AbsorbingSurvives(k, {c} + mb);
      AbsorbingSurvives(k, ma + mb);
    } else {
      ClosedMembers(k, flat);
      ReduceUnion(k, ma, mb);
    }
  }

  // ----- meaning -----

  /** A set of leaf types that one value can have together: it has at most one class. */
  ghost predicate Consistent(value: set<Type>) {
    !ClassConflict(value)
  }

  /** The value whose leaf types are `value` has type `t`. */
  ghost predicate Holds(t: Type, value: set<Type>)
    decreases t
  {
    match t
    case Union(elements) => exists e :: e in elements && Holds(e, value)
    case Intersection(elements) => forall e :: e in elements ==> Holds(e, value)
    case _ => t in value
  }

  lemma {:induction false} HoldsMembers(k: Connective, t: Type, value: set<Type>)
    ensures Holds(Make(k, Members(k, t)), value) == Holds(t, value)
    decreases t
  {
    if Is(k, t) {
      forall x | x in t.elements ensures Holds(Make(k, Members(k, x)), value) == Holds(x, value) {
        HoldsMembers(k, x, value);
      }
    } else {
      assert Members(k, t) == {t};
    }
  }

  lemma HoldsAllMembers(k: Connective, elements: set<Type>, value: set<Type>)
    ensures Holds(Make(k, AllMembers(k, elements)), value) == Holds(Make(k, elements), value)
  {
    HoldsMembers(k, Make(k, elements), value);
    assert Members(k, Make(k, elements)) == AllMembers(k, elements);
  }

  lemma HoldsReduce(k: Connective, members: set<Type>, value: set<Type>)
    requires forall m :: m in members ==> !Is(k, m)
    ensures Holds(Make(k, Reduce(k, members)), value) == Holds(Make(k, members), value)
  {
    forall m | m in members
      ensures exists low :: low in Reduce(k, members) &&
                (if k.AnyOf? then Holds(m, value) ==> Holds(low, value) else Holds(low, value) ==> Holds(m, value))
    {
      if Leaf(m) {
        assert m in Reduce(k, members);
      } else {
        var low := Dropped(k, members, m);
      }
    }
  }

  /** Interning a connective keeps its meaning for every value of at most one class. */
  lemma ConnectMeans(k: Connective, elements: set<Type>, value: set<Type>)
    requires AllCanonical(elements) && Consistent(value)
    ensures Holds(Connect(k, elements), value) == Holds(Make(k, elements), value)
  {
    var flat := Flatten(k, elements);
    AllMembersCanonical(k, elements);
    HoldsAllMembers(k, elements, value);
    HoldsReduce(k, AllMembers(k, elements), value);
    if k.AllOf? && ClassConflict(flat) {
      var x, y :| x in flat && y in flat && IsClass(x) && IsClass(y) && x.definition != y.definition;
      assert !(x in value && y in value);
    } else if Absorbing(k) in flat {
    } else if |flat| == 1 {
      assert flat == {Only(flat)};
    }
  }
}
