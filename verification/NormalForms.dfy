/**
 Disjunctive normal forms of canonical types, and why each meaning has only one of them.

 Two canonical types in disjunctive normal form that hold for the same consistent values are the
 same type.  A normal form is therefore determined by the type it was computed from, however the
 computation went.
 */
module NormalForms {
  import opened TypeAlgebra

  /** A leaf, or an intersection of leaves. */
  ghost predicate Conjunctive(t: Type) {
    Leaf(t) || (t.Intersection? && forall e :: e in t.elements ==> Leaf(e))
  }

  /** A conjunctive type, or a union of such. */
  ghost predicate Disjunctive(t: Type) {
    Conjunctive(t) || (t.Union? && forall e :: e in t.elements ==> Conjunctive(e))
  }

  ghost predicate Equivalent(t: Type, u: Type) {
    forall value :: Consistent(value) ==> Holds(t, value) == Holds(u, value)
  }

  ghost predicate NormalFormOf(t: Type, r: Type) {
    Canonical(r) && Disjunctive(r) && Equivalent(t, r)
  }

  // ----- uniqueness -----

  /** The leaves a conjunctive type asks for together. */
  ghost function Product(t: Type): set<Type>
    requires Conjunctive(t)
  {
    if Leaf(t) then {t} else t.elements
  }

  ghost function Products(t: Type): set<set<Type>>
    requires Disjunctive(t)
  {
    if t.Union? then set e | e in t.elements :: Product(e) else {Product(t)}
  }

  lemma HoldsProduct(t: Type, value: set<Type>)
    requires Conjunctive(t)
    ensures Holds(t, value) == (Product(t) <= value)
  {
  }

  lemma HoldsProducts(t: Type, value: set<Type>)
    requires Disjunctive(t)
    ensures Holds(t, value) == exists p :: p in Products(t) && p <= value
  {
    if t.Union? {
      forall e | e in t.elements ensures Holds(e, value) == (Product(e) <= value) {
        HoldsProduct(e, value);
      }
      if Holds(t, value) {
        var e :| e in t.elements && Holds(e, value);
        assert Product(e) in Products(t);
      }
    } else {
      HoldsProduct(t, value);
      assert Product(t) in Products(t);
    }
  }

  /** One product per canonical conjunctive type. */
  lemma ProductInjective(t: Type, u: Type)
    requires Conjunctive(t) && Conjunctive(u) && Canonical(t) && Canonical(u) && Product(t) == Product(u)
    ensures t == u
  {
    assert |{t}| == 1 && |{u}| == 1;
    if Leaf(t) && Leaf(u) {
      assert t in Product(u);
    }
  }

  lemma ProductsConsistent(t: Type, p: set<Type>)
    requires Canonical(t) && Disjunctive(t) && p in Products(t)
    ensures Consistent(p)
  {
  }

  /** No product of a canonical normal form includes another. */
  lemma ProductsAntichain(t: Type, p: set<Type>, q: set<Type>)
    requires Canonical(t) && Disjunctive(t) && p in Products(t) && q in Products(t) && p <= q
    ensures p == q
  {
    if t.Union? {
      var d :| d in t.elements && Product(d) == p;
      var e :| e in t.elements && Product(e) == q;
      if Leaf(d) {
        assert d in q;
        assert e in Reduce(AnyOf, t.elements);
      } else if Leaf(e) {
        assert d.elements <= {e} && d.elements != {} && d.elements != {e} by {
          assert |{e}| == 1;
          assert d != Absorbing(AnyOf);
        }
      } else {
        assert e in Reduce(AnyOf, t.elements);
        assert d.elements <= e.elements;
      }
    }
  }

  lemma ProductsDetermine(t: Type, u: Type)
    requires Canonical(t) && Canonical(u) && Disjunctive(t) && Disjunctive(u) && Products(t) <= Products(u)
    requires t.Union? && u.Union?
    ensures t.elements <= u.elements
  {
    forall d | d in t.elements ensures d in u.elements {
      assert Product(d) in Products(t);
      var e :| e in u.elements && Product(e) == Product(d);
      ProductInjective(d, e);
    }
  }

  /** A union that is canonical does not have exactly one product. */
  lemma UnionProducts(t: Type, p: set<Type>)
    requires Canonical(t) && Disjunctive(t) && t.Union?
    ensures Products(t) != {p}
  {
    if Products(t) == {p} {
      assert p in Products(t);
      var d :| d in t.elements && Product(d) == p;
      assert |{d}| == 1 && t.elements != {d};
      var e :| e in t.elements && e != d;
      assert Product(e) in Products(t);
      ProductInjective(d, e);
    }
  }

  lemma SameProducts(t: Type, u: Type)
    requires Canonical(t) && Canonical(u) && Disjunctive(t) && Disjunctive(u) && Products(t) == Products(u)
    ensures t == u
  {
    if t.Union? && u.Union? {
      ProductsDetermine(t, u);
      ProductsDetermine(u, t);
    } else if t.Union? {
      UnionProducts(t, Product(u));
    } else if u.Union? {
      UnionProducts(u, Product(t));
    } else {
      assert Product(t) in Products(u);
      ProductInjective(t, u);
    }
  }

  lemma Between(a: set<Type>, b: set<Type>, c: set<Type>)
    requires a <= b <= c
    ensures a <= c && (a == c ==> b == c)
  {
  }

  /** A smallest product of one normal form is a product of every equivalent one. */
  lemma ProductShared(t: Type, u: Type, p: set<Type>)
    requires Canonical(t) && Canonical(u) && Disjunctive(t) && Disjunctive(u) && p in Products(t)
    requires Equivalent(t, u) && Equivalent(u, t)
    ensures p in Products(u)
  {
    var q := SmallerProduct(t, u, p);
    var p' := SmallerProduct(u, t, q);
    Between(p', q, p);
    ProductsAntichain(t, p', p);
  }

  lemma SmallerProduct(t: Type, u: Type, p: set<Type>) returns (q: set<Type>)
    requires Canonical(t) && Disjunctive(t) && Disjunctive(u) && Equivalent(t, u) && p in Products(t)
    ensures q in Products(u) && q <= p
  {
    ProductsConsistent(t, p);
    HoldsProducts(t, p);
    HoldsProducts(u, p);
    q :| q in Products(u) && q <= p;
  }

  lemma ProductsIncluded(t: Type, u: Type)
    requires Canonical(t) && Canonical(u) && Disjunctive(t) && Disjunctive(u)
    requires Equivalent(t, u) && Equivalent(u, t)
    ensures Products(t) <= Products(u)
  {
    forall p | p in Products(t) ensures p in Products(u) {
      ProductShared(t, u, p);
    }
  }

  /** Canonical normal forms with one meaning are one type. */
  lemma NormalFormUnique(t: Type, u: Type)
    requires Canonical(t) && Canonical(u) && Disjunctive(t) && Disjunctive(u)
    ensures t == u <==> Equivalent(t, u)
  {
    if Equivalent(t, u) {
      assert Equivalent(u, t);
      ProductsIncluded(t, u);
      ProductsIncluded(u, t);
      SameProducts(t, u);
    }
  }

  /** Normalizing decides equivalence: two types share their normal form exactly when they mean the same. */
  lemma NormalFormsDecide(t: Type, u: Type, r: Type, s: Type)
    requires NormalFormOf(t, r) && NormalFormOf(u, s)
    ensures r == s <==> Equivalent(t, u)
  {
    NormalFormUnique(r, s);
  }

  /** A second pass returns the identical type, and so does a pass that makes other choices. */
  lemma SecondPassIdentical(t: Type, r: Type, other: Type, again: Type)
    requires NormalFormOf(t, r) && NormalFormOf(t, other) && NormalFormOf(r, again)
    ensures again == r == other
  {
    NormalFormUnique(r, other);
    NormalFormUnique(r, again);
  }
}
