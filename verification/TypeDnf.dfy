/**
 Disjunctive normal form of parsed types: `conjunction`, `disjunction` and `throwtype`.

 A null pointer is `None`.  The source uses it for a result that no value has, and also for an
 operand that is not there; the two readings differ, and the laws below say where.
 */
module TypeDnf {
  import opened Options

  datatype Type =
    | Single(name: nat)
    | Isect(types: seq<Type>)
    | Throw(inner: Type)
    | Union(types: seq<Type>)

  // ----- the functions -----

  function Weight(t: Type): (w: nat)
    ensures w >= 1
  {
    match t
    case Single(_) => 1
    case Throw(inner) => 1 + Weight(inner)
    case Isect(types) => 1 + Weights(types)
    case Union(types) => 1 + Weights(types)
  }

  function Weights(types: seq<Type>): (w: nat)
    ensures forall t :: t in types ==> Weight(t) <= w
  {
    if types == [] then 0 else Weight(types[0]) + Weights(types[1..])
  }

  function Push(types: seq<Type>, t: Option<Type>): seq<Type> {
    match t
    case None => types
    case Some(x) => types + [x]
  }

  function Closed(types: seq<Type>): Option<Type> {
    if types == [] then None else Some(Union(types))
  }

  /** The intersection of two types that are there. */
  function Conj(left: Type, right: Type): Option<Type>
    decreases Weight(left) + Weight(right), 0
  {
    match left
    case Isect(ls) =>
      (match right
       case Isect(rs) => Some(Isect(ls + rs))
       case Throw(_) => None
       case Union(rs) => Closed(Distribute(rs, left))
       case Single(_) => Some(Isect(ls + [right])))
    case Throw(l) =>
      (match right
       case Throw(r) => Some(Throw(Isect([l, r])))
       case Union(rs) => Closed(Distribute(rs, left))
       case _ => None)
    case Union(ls) =>
      (match right
       case Union(rs) => Closed(Cross(ls, rs))
       case _ => Closed(Distribute(ls, right)))
    case Single(_) =>
      (match right
       case Isect(rs) => Some(Isect(rs + [left]))
       case Throw(_) => None
       case Union(rs) => Closed(Distribute(rs, left))
       case Single(_) => Some(Isect([left, right])))
  }

  /** What `union_other` collects: each type of a union with the other operand. */
  function Distribute(types: seq<Type>, other: Type): seq<Type>
    decreases Weights(types) + Weight(other), 1, |types|
  {
    if types == [] then []
    else
      var n := |types| - 1;
      WeightsSplit(types, n);
      Push(Distribute(types[..n], other), Conj(types[n], other))
  }

  /** What `union_union` collects: each type of one union with each of the other. */
  function Cross(ls: seq<Type>, rs: seq<Type>): seq<Type>
    decreases Weights(ls) + Weights(rs), 2, |ls|
  {
    if ls == [] then []
    else
      var n := |ls| - 1;
      WeightsSplit(ls, n);
      Cross(ls[..n], rs) + Distributed(ls[n], rs)
  }

  function Distributed(l: Type, rs: seq<Type>): seq<Type>
    decreases Weight(l) + Weights(rs), 1, |rs|
  {
    if rs == [] then []
    else
      var n := |rs| - 1;
      WeightsSplit(rs, n);
      Push(Distributed(l, rs[..n]), Conj(l, rs[n]))
  }

  lemma {:induction false} WeightsSplit(types: seq<Type>, n: nat)
    requires n < |types|
    ensures Weights(types) >= Weights(types[..n]) + Weight(types[n])
    decreases n
  {
    if n > 0 {
      WeightsSplit(types[1..], n - 1);
      assert types[..n][1..] == types[1..][..n - 1];
    }
  }

  function Conjunction(left: Option<Type>, right: Option<Type>): Option<Type> {
    if left.None? then right else if right.None? then left else Conj(left.value, right.value)
  }

  function Alternatives(t: Type): seq<Type> {
    if t.Union? then t.types else [t]
  }

  function Disjunction(left: Option<Type>, right: Option<Type>): Option<Type> {
    if left.None? then right
    else if right.None? then left
    else Some(Union(Alternatives(left.value) + Alternatives(right.value)))
  }

  function Thrown(t: Type): Type {
    if t.Throw? then t else Throw(t)
  }

  function ThrownAll(types: seq<Type>): (r: seq<Type>)
    ensures |r| == |types| && forall i :: 0 <= i < |types| ==> r[i] == Thrown(types[i])
  {
    if types == [] then [] else ThrownAll(types[..|types| - 1]) + [Thrown(types[|types| - 1])]
  }

  function ThrowType(t: Option<Type>): Option<Type> {
    match t
    case None => None
    case Some(Union(types)) => Some(Union(ThrownAll(types)))
    case Some(x) => Some(Thrown(x))
  }

  // ----- shape -----

  /** A name or an intersection, to any depth, of names: what may stand under `throw`. */
  predicate Plain(t: Type) {
    match t
    case Single(_) => true
    case Isect(types) => types != [] && forall i :: 0 <= i < |types| ==> Plain(types[i])
    case _ => false
  }

  /** An intersection of names, flat as `wellformed` wants it. */
  predicate Flat(t: Type) {
    match t
    case Single(_) => true
    case Isect(types) => types != [] && forall i :: 0 <= i < |types| ==> types[i].Single?
    case _ => false
  }

  /** A disjunct: a flat intersection, or a throw of a plain type. */
  predicate Disjunct(t: Type) {
    Flat(t) || (t.Throw? && Plain(t.inner))
  }

  predicate NormalForm(t: Type) {
    Disjunct(t) || (t.Union? && t.types != [] && forall i :: 0 <= i < |t.types| ==> Disjunct(t.types[i]))
  }

  predicate NormalOption(t: Option<Type>) {
    t.Some? ==> NormalForm(t.value)
  }

  predicate Disjuncts(types: seq<Type>) {
    forall i :: 0 <= i < |types| ==> Disjunct(types[i])
  }

  lemma ConjDisjunct(left: Type, right: Type)
    requires Disjunct(left) && Disjunct(right)
    ensures Conj(left, right).Some? ==> Disjunct(Conj(left, right).value)
  {
  }

  lemma {:induction false} DistributeDisjuncts(types: seq<Type>, other: Type)
    requires Disjuncts(types) && Disjunct(other)
    ensures Disjuncts(Distribute(types, other))
    decreases |types|
  {
    if types != [] {
      DistributeDisjuncts(types[..|types| - 1], other);
      ConjDisjunct(types[|types| - 1], other);
    }
  }

  lemma {:induction false} DistributedDisjuncts(l: Type, rs: seq<Type>)
    requires Disjunct(l) && Disjuncts(rs)
    ensures Disjuncts(Distributed(l, rs))
    decreases |rs|
  {
    if rs != [] {
      DistributedDisjuncts(l, rs[..|rs| - 1]);
      ConjDisjunct(l, rs[|rs| - 1]);
    }
  }

  lemma {:induction false} CrossDisjuncts(ls: seq<Type>, rs: seq<Type>)
    requires Disjuncts(ls) && Disjuncts(rs)
    ensures Disjuncts(Cross(ls, rs))
    decreases |ls|
  {
    if ls != [] {
      CrossDisjuncts(ls[..|ls| - 1], rs);
      DistributedDisjuncts(ls[|ls| - 1], rs);
    }
  }

  /** All three operations stay in normal form, whatever is missing. */
  lemma NormalFormKept(left: Option<Type>, right: Option<Type>)
    requires NormalOption(left) && NormalOption(right)
    ensures NormalOption(Conjunction(left, right))
    ensures NormalOption(Disjunction(left, right))
    ensures NormalOption(ThrowType(left))
  {
    if left.Some? && right.Some? {
      ConjNormal(left.value, right.value);
    }
    if left.Some? && left.value.Union? {
      forall i | 0 <= i < |left.value.types| ensures Disjunct(Thrown(left.value.types[i])) {
        FlatPlain(left.value.types[i]);
      }
    } else if left.Some? {
      FlatPlain(left.value);
    }
  }

  lemma FlatPlain(t: Type)
    ensures Flat(t) ==> Plain(t)
  {
  }

  lemma ConjNormal(left: Type, right: Type)
    requires NormalForm(left) && NormalForm(right)
    ensures NormalOption(Conj(left, right))
  {
    if left.Union? && right.Union? {
      CrossDisjuncts(left.types, right.types);
    } else if left.Union? {
      DistributeDisjuncts(left.types, right);
    } else if right.Union? {
      DistributeDisjuncts(right.types, left);
    } else {
      ConjDisjunct(left, right);
    }
  }

  // ----- meaning -----

  /** A value, by the names it answers to and whether it was thrown. */
  datatype Value = Value(thrown: bool, names: nat -> bool)

  predicate In(t: Type, v: Value) {
    match t
    case Single(name) => !v.thrown && v.names(name)
    case Isect(types) => forall i :: 0 <= i < |types| ==> In(types[i], v)
    case Throw(inner) => v.thrown && In(inner, Value(false, v.names))
    case Union(types) => exists i :: 0 <= i < |types| && In(types[i], v)
  }

  predicate InSome(t: Option<Type>, v: Value) {
    t.Some? && In(t.value, v)
  }

  predicate AnyIn(types: seq<Type>, v: Value) {
    exists i :: 0 <= i < |types| && In(types[i], v)
  }

  lemma {:induction false} PlainNotThrown(t: Type, v: Value)
    requires Plain(t) && v.thrown
    ensures !In(t, v)
    decreases t
  {
    if t.Isect? {
      PlainNotThrown(t.types[0], v);
    }
  }

  lemma ConjDisjunctMeans(left: Type, right: Type, v: Value)
    requires Disjunct(left) && Disjunct(right)
    ensures InSome(Conj(left, right), v) == (In(left, v) && In(right, v))
  {
    FlatPlain(left);
    FlatPlain(right);
    if v.thrown && Flat(left) {
      PlainNotThrown(left, v);
    }
    if v.thrown && Flat(right) {
      PlainNotThrown(right, v);
    }
    if left.Isect? && right.Isect? {
      AllInConcat(left.types, right.types, v);
    } else if left.Isect? && right.Single? {
      AllInConcat(left.types, [right], v);
    } else if left.Single? && right.Isect? {
      AllInConcat(right.types, [left], v);
    } else if left.Throw? && right.Throw? {
      var u := Value(false, v.names);
      assert In(Isect([left.inner, right.inner]), u) == (In(left.inner, u) && In(right.inner, u)) by {
        AllInConcat([left.inner], [right.inner], u);
      }
    } else if left.Single? && right.Single? {
      AllInConcat([left], [right], v);
    }
  }

  lemma AllInConcat(a: seq<Type>, b: seq<Type>, v: Value)
    ensures In(Isect(a + b), v) == (In(Isect(a), v) && In(Isect(b), v))
    ensures |a| == 1 ==> In(Isect(a), v) == In(a[0], v)
    ensures |b| == 1 ==> In(Isect(b), v) == In(b[0], v)
    ensures |a| == 1 && |b| == 1 ==> a + b == [a[0], b[0]]
  {
    var c := a + b;
    assert forall i :: 0 <= i < |a| ==> c[i] == a[i];
    assert forall i :: 0 <= i < |b| ==> c[|a| + i] == b[i];
    if In(Isect(c), v) {
      forall i | 0 <= i < |b| ensures In(b[i], v) {
        assert In(c[|a| + i], v);
      }
    }
  }

  lemma AnyInConcat(a: seq<Type>, b: seq<Type>, v: Value)
    ensures AnyIn(a + b, v) == (AnyIn(a, v) || AnyIn(b, v))
  {
    var c := a + b;
    if i :| 0 <= i < |a| && In(a[i], v) {
      assert In(c[i], v);
    }
    if i :| 0 <= i < |b| && In(b[i], v) {
      assert In(c[|a| + i], v);
    }
  }

  lemma PushMeans(types: seq<Type>, t: Option<Type>, v: Value)
    ensures AnyIn(Push(types, t), v) == (AnyIn(types, v) || InSome(t, v))
  {
    if t.Some? {
      AnyInConcat(types, [t.value], v);
      assert AnyIn([t.value], v) == In(t.value, v) by {
        assert [t.value][0] == t.value;
      }
    }
  }

  lemma AnyInLast(types: seq<Type>, v: Value)
    requires types != []
    ensures AnyIn(types, v) == (AnyIn(types[..|types| - 1], v) || In(types[|types| - 1], v))
  {
    var n := |types| - 1;
    if i :| 0 <= i < n && In(types[i], v) {
      assert In(types[..n][i], v);
    }
    if i :| 0 <= i < n && In(types[..n][i], v) {
      assert In(types[i], v);
    }
  }

  lemma {:induction false} DistributeMeans(types: seq<Type>, other: Type, v: Value)
    requires Disjuncts(types) && Disjunct(other)
    ensures AnyIn(Distribute(types, other), v) == (AnyIn(types, v) && In(other, v))
    decreases |types|
  {
    if types != [] {
      var n := |types| - 1;
      DistributeMeans(types[..n], other, v);
      ConjDisjunctMeans(types[n], other, v);
      PushMeans(Distribute(types[..n], other), Conj(types[n], other), v);
      AnyInLast(types, v);
    }
  }

  lemma {:induction false} DistributedMeans(l: Type, rs: seq<Type>, v: Value)
    requires Disjunct(l) && Disjuncts(rs)
    ensures AnyIn(Distributed(l, rs), v) == (In(l, v) && AnyIn(rs, v))
    decreases |rs|
  {
    if rs != [] {
      var n := |rs| - 1;
      DistributedMeans(l, rs[..n], v);
      ConjDisjunctMeans(l, rs[n], v);
      PushMeans(Distributed(l, rs[..n]), Conj(l, rs[n]), v);
      AnyInLast(rs, v);
    }
  }

  lemma {:induction false} CrossMeans(ls: seq<Type>, rs: seq<Type>, v: Value)
    requires Disjuncts(ls) && Disjuncts(rs)
    ensures AnyIn(Cross(ls, rs), v) == (AnyIn(ls, v) && AnyIn(rs, v))
    decreases |ls|
  {
    if ls != [] {
      var n := |ls| - 1;
      CrossMeans(ls[..n], rs, v);
      DistributedMeans(ls[n], rs, v);
      AnyInConcat(Cross(ls[..n], rs), Distributed(ls[n], rs), v);
      AnyInLast(ls, v);
    }
  }

  /** Conjunction of two types that are there is their intersection; no result means no value. */
  lemma ConjMeans(left: Type, right: Type, v: Value)
    requires NormalForm(left) && NormalForm(right)
    ensures InSome(Conj(left, right), v) == (In(left, v) && In(right, v))
  {
    if left.Union? && right.Union? {
      CrossMeans(left.types, right.types, v);
    } else if left.Union? {
      DistributeMeans(left.types, right, v);
    } else if right.Union? {
      DistributeMeans(right.types, left, v);
    } else {
      ConjDisjunctMeans(left, right, v);
    }
  }

  const EVERYTHING: nat -> bool := _ => true

  lemma {:induction false} PlainInhabited(t: Type)
    requires Plain(t)
    ensures In(t, Value(false, EVERYTHING))
    decreases t
  {
    if t.Isect? {
      forall i | 0 <= i < |t.types| ensures In(t.types[i], Value(false, EVERYTHING)) {
        PlainInhabited(t.types[i]);
      }
    }
  }

  /** No normal form is empty. */
  lemma Inhabited(t: Type) returns (v: Value)
    requires NormalForm(t)
    ensures In(t, v)
  {
    var d := if t.Union? then t.types[0] else t;
    FlatPlain(d);
    if d.Throw? {
      PlainInhabited(d.inner);
      v := Value(true, EVERYTHING);
    } else {
      PlainInhabited(d);
      v := Value(false, EVERYTHING);
    }
    assert In(d, v);
  }

  /**
   Read with null as empty, `conjunction` is intersection exactly when both operands are there or
   neither is: a missing operand is ignored instead of emptying the result.
   */
  lemma ConjunctionMeans(left: Option<Type>, right: Option<Type>)
    requires NormalOption(left) && NormalOption(right)
    ensures left.Some? == right.Some? <==>
      forall v :: InSome(Conjunction(left, right), v) == (InSome(left, v) && InSome(right, v))
  {
    if left.Some? && right.Some? {
      forall v ensures InSome(Conjunction(left, right), v) == (InSome(left, v) && InSome(right, v)) {
        ConjMeans(left.value, right.value, v);
      }
    } else if left.Some? {
      var v := Inhabited(left.value);
      assert InSome(Conjunction(left, right), v) && !InSome(right, v);
    } else if right.Some? {
      var v := Inhabited(right.value);
      assert InSome(Conjunction(left, right), v) && !InSome(left, v);
    }
  }

  // ----- operands joined by `&` -----

  /** The parser joins operands from left to right.  One in parentheses may itself have come to nothing. */
  function Folded(operands: seq<Option<Type>>): Option<Type> {
    if operands == [] then None else Conjunction(Folded(Front(operands)), Last(operands))
  }

  function Front(operands: seq<Option<Type>>): seq<Option<Type>>
    requires operands != []
  {
    operands[..|operands| - 1]
  }

  function Last(operands: seq<Option<Type>>): Option<Type>
    requires operands != []
  {
    operands[|operands| - 1]
  }

  predicate InAll(operands: seq<Option<Type>>, v: Value) {
    forall i :: 0 <= i < |operands| ==> InSome(operands[i], v)
  }

  predicate AllNormal(operands: seq<Option<Type>>) {
    forall i :: 0 <= i < |operands| ==> NormalOption(operands[i])
  }

  predicate AllThere(operands: seq<Option<Type>>) {
    forall i :: 0 <= i < |operands| ==> operands[i].Some?
  }

  /** Some alternative of the type is thrown, or some alternative is not. */
  predicate Offers(t: Option<Type>, thrown: bool) {
    t.Some? && exists i :: 0 <= i < |Alternatives(t.value)| && Alternatives(t.value)[i].Throw? == thrown
  }

  predicate AllOffer(operands: seq<Option<Type>>, thrown: bool) {
    forall i :: 0 <= i < |operands| ==> Offers(operands[i], thrown)
  }

  /** All operands can be thrown, or all need not be. */
  predicate Meet(operands: seq<Option<Type>>) {
    AllOffer(operands, false) || AllOffer(operands, true)
  }

  lemma DisjunctOffers(t: Type, v: Value)
    requires Disjunct(t)
    ensures In(t, v) ==> t.Throw? == v.thrown
    ensures In(t, Value(t.Throw?, EVERYTHING))
  {
    FlatPlain(t);
    if v.thrown && Flat(t) {
      PlainNotThrown(t, v);
    }
    PlainInhabited(if t.Throw? then t.inner else t);
  }

  lemma OffersMeans(t: Option<Type>, v: Value)
    requires NormalOption(t)
    ensures InSome(t, v) ==> Offers(t, v.thrown)
    ensures Offers(t, v.thrown) ==> InSome(t, Value(v.thrown, EVERYTHING))
  {
    if t.Some? {
      var types := Alternatives(t.value);
      AlternativesMean(t.value, v);
      AlternativesMean(t.value, Value(v.thrown, EVERYTHING));
      forall i | 0 <= i < |types|
        ensures (In(types[i], v) ==> types[i].Throw? == v.thrown) && In(types[i], Value(types[i].Throw?, EVERYTHING))
      {
        DisjunctOffers(types[i], v);
      }
    }
  }

  /** Operands have a value in common if and only if they meet. */
  lemma MeetMeans(operands: seq<Option<Type>>)
    requires AllNormal(operands)
    ensures Meet(operands) <==> exists v :: InAll(operands, v)
  {
    hide Offers, InSome, NormalOption;
    if thrown :| AllOffer(operands, thrown) {
      var v := Value(thrown, EVERYTHING);
      forall i | 0 <= i < |operands| ensures InSome(operands[i], v) {
        OffersMeans(operands[i], v);
      }
      assert InAll(operands, v);
    }
    if v :| InAll(operands, v) {
      forall i | 0 <= i < |operands| ensures Offers(operands[i], v.thrown) {
        OffersMeans(operands[i], v);
      }
      assert AllOffer(operands, v.thrown);
    }
  }

  /** The length of the shortest row at the front that does not meet, or 0 where all of it does. */
  function Clash(operands: seq<Option<Type>>): (n: nat)
    ensures n <= |operands| && (n == 0 <==> Meet(operands))
    ensures n > 0 ==> !Meet(operands[..n]) && Meet(operands[..n - 1])
  {
    if operands == [] then 0
    else
      var n := Clash(Front(operands));
      assert n > 0 ==> operands[..n] == Front(operands)[..n] && operands[..n - 1] == Front(operands)[..n - 1];
      assert operands[..|operands|] == operands;
      if n > 0 then n else if Meet(operands) then 0 else |operands|
  }

  /** The row falls into rows that come to nothing one after the other, each with its last operand. */
  predicate Vanishes(operands: seq<Option<Type>>)
    decreases |operands|
  {
    operands == [] || (Clash(operands) > 0 && Vanishes(operands[Clash(operands)..]))
  }

  function Present(operands: seq<Option<Type>>): seq<Option<Type>> {
    if operands == [] then []
    else Present(Front(operands)) + if Last(operands).Some? then [Last(operands)] else []
  }

  lemma {:induction false} FoldedNormal(operands: seq<Option<Type>>)
    requires AllNormal(operands)
    ensures NormalOption(Folded(operands))
    decreases |operands|
  {
    hide NormalForm, Conjunction;
    if operands != [] {
      FoldedNormal(Front(operands));
      NormalFormKept(Folded(Front(operands)), Last(operands));
    }
  }

  lemma {:induction false} PresentFolds(operands: seq<Option<Type>>)
    ensures Folded(Present(operands)) == Folded(operands)
    decreases |operands|
  {
    hide Conj;
    if operands != [] {
      var front, last := Front(operands), Last(operands);
      PresentFolds(front);
      if last.Some? {
        assert Front(Present(operands)) == Present(front) && Last(Present(operands)) == last;
      } else {
        assert Present(operands) == Present(front);
      }
    }
  }

  lemma {:induction false} PresentAll(operands: seq<Option<Type>>)
    ensures forall i :: 0 <= i < |Present(operands)| ==>
      Present(operands)[i].Some? && Present(operands)[i] in operands
    decreases |operands|
  {
    if operands != [] {
      PresentAll(Front(operands));
      assert forall x :: x in Front(operands) ==> x in operands;
    }
  }

  lemma PresentNormal(operands: seq<Option<Type>>)
    requires AllNormal(operands)
    ensures AllThere(Present(operands)) && AllNormal(Present(operands))
  {
    hide NormalOption, Present;
    PresentAll(operands);
  }

  /** After operands that came to nothing, the fold starts again. */
  lemma {:induction false} FoldedAgain(a: seq<Option<Type>>, b: seq<Option<Type>>)
    requires Folded(a).None?
    ensures Folded(a + b) == Folded(b)
    decreases |b|
  {
    if b == [] {
      assert a + b == a;
    } else {
      assert Front(a + b) == a + Front(b);
      FoldedAgain(a, Front(b));
    }
  }

  lemma InAllLast(operands: seq<Option<Type>>, v: Value)
    requires operands != []
    ensures InAll(operands, v) == (InAll(Front(operands), v) && InSome(Last(operands), v))
  {
    hide InSome;
    assert operands == Front(operands) + [Last(operands)];
  }

  /** While the operands before the last meet, nothing is lost. */
  lemma {:induction false} FoldedMeets(operands: seq<Option<Type>>, v: Value)
    requires AllNormal(operands) && AllThere(operands) && operands != [] && Meet(Front(operands))
    ensures InSome(Folded(operands), v) == InAll(operands, v)
    decreases |operands|, 0
  {
    hide NormalOption, InSome, Conjunction, Meet;
    var front, last := Front(operands), Last(operands);
    InAllLast(operands, v);
    if front == [] {
      FoldedOne(operands);
    } else {
      MeetFront(front);
      FoldedMeets(front, v);
      FoldedThere(front);
      FoldedNormal(front);
      ConjunctionIsMeet(Folded(front), last, v);
    }
  }

  lemma FoldedOne(operands: seq<Option<Type>>)
    requires |operands| == 1
    ensures Folded(operands) == operands[0]
  {
    assert Folded(Front(operands)) == None;
  }

  lemma MeetFront(operands: seq<Option<Type>>)
    requires operands != [] && Meet(operands)
    ensures Meet(Front(operands))
  {
  }

  lemma ConjunctionIsMeet(left: Option<Type>, right: Option<Type>, v: Value)
    requires left.Some? && right.Some? && NormalOption(left) && NormalOption(right)
    ensures InSome(Conjunction(left, right), v) == (InSome(left, v) && InSome(right, v))
  {
    ConjMeans(left.value, right.value, v);
  }

  /** Operands that meet leave something. */
  lemma {:induction false} FoldedThere(operands: seq<Option<Type>>)
    requires AllNormal(operands) && AllThere(operands) && operands != [] && Meet(operands)
    ensures Folded(operands).Some?
    decreases |operands|, 1
  {
    hide NormalOption, Meet;
    MeetMeans(operands);
    var v :| InAll(operands, v);
    MeetFront(operands);
    FoldedMeets(operands, v);
  }

  lemma InhabitedOption(t: Option<Type>)
    requires NormalOption(t)
    ensures t.None? <==> forall v :: !InSome(t, v)
  {
    if t.Some? {
      var v := Inhabited(t.value);
      assert InSome(t, v);
    }
  }

  lemma FoldedClash(operands: seq<Option<Type>>)
    requires AllNormal(operands) && AllThere(operands) && operands != []
    requires Meet(Front(operands)) && !Meet(operands)
    ensures Folded(operands).None?
  {
    hide NormalOption, InSome, Folded, Meet;
    MeetMeans(operands);
    FoldedNormal(operands);
    forall v ensures !InSome(Folded(operands), v) {
      FoldedMeets(operands, v);
    }
    InhabitedOption(Folded(operands));
  }

  /** Operands come to nothing if and only if they fall into rows that do. */
  lemma {:induction false} FoldedVanishes(operands: seq<Option<Type>>)
    requires AllNormal(operands) && AllThere(operands)
    ensures Folded(operands).None? <==> Vanishes(operands)
    decreases |operands|
  {
    hide NormalOption, Meet, Clash;
    if operands != [] {
      var n := Clash(operands);
      if n == 0 {
        FoldedThere(operands);
      } else {
        var a, b := operands[..n], operands[n..];
        assert Front(a) == operands[..n - 1];
        FoldedClash(a);
        assert operands == a + b;
        FoldedAgain(a, b);
        FoldedVanishes(b);
      }
    }
  }

  /**
   The exact condition: all operands are there and those before the last have a value in common, or the
   whole row vanishes, as it should.
   */
  predicate FoldsRight(operands: seq<Option<Type>>) {
    && operands != []
    && ((AllThere(operands) && Meet(Front(operands))) || Vanishes(Present(operands)))
  }

  lemma NoCommonValue(operands: seq<Option<Type>>, v: Value)
    requires AllNormal(operands) && operands != []
    requires !AllThere(operands) || !Meet(Front(operands))
    ensures !InAll(operands, v)
  {
    hide NormalOption;
    if AllThere(operands) {
      InAllLast(operands, v);
      MeetMeans(Front(operands));
    }
  }

  /** The fold denotes the intersection of its operands if and only if `FoldsRight`. */
  lemma FoldedMeans(operands: seq<Option<Type>>)
    requires AllNormal(operands)
    ensures (forall v :: InSome(Folded(operands), v) == InAll(operands, v)) <==> FoldsRight(operands)
  {
    hide NormalOption, InSome, InAll, Meet, Vanishes, AllNormal, AllThere, Folded;
    if operands == [] {
      FoldedNothing();
    } else {
      PresentFolds(operands);
      PresentNormal(operands);
      FoldedVanishes(Present(operands));
      FoldedNormal(operands);
      InhabitedOption(Folded(operands));
      if AllThere(operands) && Meet(Front(operands)) {
        forall v ensures InSome(Folded(operands), v) == InAll(operands, v) {
          FoldedMeets(operands, v);
        }
      } else {
        forall v ensures !InAll(operands, v) {
          NoCommonValue(operands, v);
        }
      }
    }
  }

  lemma FoldedNothing()
    ensures exists v :: InSome(Folded([]), v) != InAll([], v)
  {
    var v := Value(false, EVERYTHING);
    assert InSome(Folded([]), v) != InAll([], v);
  }

  /** `A & (throw B) & C` has no value, and is read as `C`. */
  lemma ClashIsForgotten()
    ensures var operands := [Some(Single(0)), Some(Throw(Single(1))), Some(Single(2))];
      Folded(operands) == Some(Single(2)) && AllNormal(operands) && forall v :: !InAll(operands, v)
  {
    var a, b, c := Some(Single(0)), Some(Throw(Single(1))), Some(Single(2));
    assert Front([a, b, c]) == [a, b] && Front([a, b]) == [a] && Front([a]) == [];
    assert Folded([a, b]) == Conjunction(a, b) == None;
    forall v ensures !InAll([a, b, c], v) {
      assert !InSome([a, b, c][0], v) || !InSome([a, b, c][1], v);
    }
  }

  /** `disjunction` is union, with null as empty in every position. */
  lemma DisjunctionMeans(left: Option<Type>, right: Option<Type>, v: Value)
    ensures InSome(Disjunction(left, right), v) == (InSome(left, v) || InSome(right, v))
  {
    if left.Some? && right.Some? {
      AnyInConcat(Alternatives(left.value), Alternatives(right.value), v);
      AlternativesMean(left.value, v);
      AlternativesMean(right.value, v);
    }
  }

  lemma AlternativesMean(t: Type, v: Value)
    ensures AnyIn(Alternatives(t), v) == In(t, v)
  {
    if !t.Union? {
      assert Alternatives(t)[0] == t;
    }
  }

  lemma ThrownMeans(t: Type, v: Value)
    requires Disjunct(t)
    ensures In(Thrown(t), v) == (v.thrown && (In(t, v) || In(t, Value(false, v.names))))
  {
    FlatPlain(t);
    if v.thrown && Flat(t) {
      PlainNotThrown(t, v);
    }
  }

  /** `throwtype` throws every value that its operand lets through either way. */
  lemma ThrowTypeMeans(t: Option<Type>, v: Value)
    requires NormalOption(t)
    ensures InSome(ThrowType(t), v) == (v.thrown && (InSome(t, v) || InSome(t, Value(false, v.names))))
  {
    if t.Some? && t.value.Union? {
      var types := t.value.types;
      forall i | 0 <= i < |types|
        ensures In(ThrownAll(types)[i], v) == (v.thrown && (In(types[i], v) || In(types[i], Value(false, v.names))))
      {
        ThrownMeans(types[i], v);
      }
    } else if t.Some? {
      ThrownMeans(t.value, v);
    }
  }

  // ----- the loops -----

  method UnionOther(types: seq<Type>, other: Type) returns (r: Option<Type>)
    ensures r == Closed(Distribute(types, other))
    decreases Weights(types) + Weight(other), 1
  {
    var out := [];
    for i := 0 to |types|
      invariant out == Distribute(types[..i], other)
    {
      assert types[i] in types;
      var conj := MkConj(types[i], other);
      assert types[..i + 1][..i] == types[..i];
      if conj.Some? {
        out := out + [conj.value];
      }
    }
    assert types[..|types|] == types;
    r := if out == [] then None else Some(Union(out));
  }

  method UnionUnion(ls: seq<Type>, rs: seq<Type>) returns (r: Option<Type>)
    ensures r == Closed(Cross(ls, rs))
    decreases Weights(ls) + Weights(rs), 1
  {
    var out := [];
    for i := 0 to |ls|
      invariant out == Cross(ls[..i], rs)
    {
      assert ls[i] in ls;
      ghost var before := out;
      for j := 0 to |rs|
        invariant out == before + Distributed(ls[i], rs[..j])
      {
        assert rs[j] in rs;
        var conj := MkConj(ls[i], rs[j]);
        assert rs[..j + 1][..j] == rs[..j];
        if conj.Some? {
          out := out + [conj.value];
        }
      }
      assert rs[..|rs|] == rs;
      assert ls[..i + 1][..i] == ls[..i];
    }
    assert ls[..|ls|] == ls;
    r := if out == [] then None else Some(Union(out));
  }

  method MkConj(left: Type, right: Type) returns (r: Option<Type>)
    ensures r == Conj(left, right)
    decreases Weight(left) + Weight(right), 0
  {
    match (left, right) {
      case (Union(ls), Union(rs)) => r := UnionUnion(ls, rs);
      case (Union(ls), _) => r := UnionOther(ls, right);
      case (_, Union(rs)) => r := UnionOther(rs, left);
      case (Throw(l), Throw(t)) => r := Some(Throw(Isect([l, t])));
      case (Throw(_), _) => r := None;
      case (_, Throw(_)) => r := None;
      case (Isect(ls), Isect(rs)) => r := Some(Isect(ls + rs));
      case (Isect(ls), Single(_)) => r := Some(Isect(ls + [right]));
      case (Single(_), Isect(rs)) => r := Some(Isect(rs + [left]));
      case (Single(_), Single(_)) => r := Some(Isect([left, right]));
    }
  }

  /** The loop of `optisecttype`, after its first operand. */
  method Conjoin(operands: seq<Option<Type>>) returns (r: Option<Type>)
    requires operands != []
    ensures r == Folded(operands)
  {
    assert operands[..1] == [operands[0]];
    FoldedOne(operands[..1]);
    r := operands[0];
    for i := 1 to |operands|
      invariant r == Folded(operands[..i])
    {
      assert Front(operands[..i + 1]) == operands[..i];
      var next := operands[i];
      if r.None? {
        r := next;
      } else if next.Some? {
        r := MkConj(r.value, next.value);
      }
    }
    assert operands[..|operands|] == operands;
  }

  method MkThrow(t: Option<Type>) returns (r: Option<Type>)
    ensures r == ThrowType(t)
  {
    match t
    case None => r := None;
    case Some(Union(types)) =>
      var out := [];
      for i := 0 to |types|
        invariant out == ThrownAll(types[..i])
      {
        out := out + [if types[i].Throw? then types[i] else Throw(types[i])];
        assert types[..i + 1][..i] == types[..i];
      }
      assert types[..|types|] == types;
      r := Some(Union(out));
    case Some(x) => r := Some(if x.Throw? then x else Throw(x));
  }
}
