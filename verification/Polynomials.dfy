/**
 Polynomials over two-element coefficients, and division by x^16 + x^12 + x^5 + 1.

 A polynomial is the set of its exponents, and the sum of two is their symmetric difference.
 */
module Polynomials {

  type Poly = set<nat>

  function Sum(a: Poly, b: Poly): (r: Poly)
    ensures forall e: nat :: e in r <==> (e in a) != (e in b)
  {
    (a - b) + (b - a)
  }

  /** The product with x^k. */
  function Raised(a: Poly, k: nat): (r: Poly)
    ensures forall e: nat :: e in r <==> e >= k && e - k in a
  {
    set e | e in a :: e + k
  }

  /** The product with x^16 + x^12 + x^5 + 1. */
  function Times(q: Poly): Poly {
    Sum(Sum(Raised(q, 16), Raised(q, 12)), Sum(Raised(q, 5), q))
  }

  /** `r` is the remainder of `a` under division by that polynomial. */
  ghost predicate Remainder(a: Poly, r: Poly) {
    (forall e | e in r :: e < 16) && exists q: Poly :: a == Sum(Times(q), r)
  }

  lemma TimesLinear(p: Poly, q: Poly)
    ensures Times(Sum(p, q)) == Sum(Times(p), Times(q))
  {
  }

  lemma RaisedSum(a: Poly, b: Poly, k: nat)
    ensures Raised(Sum(a, b), k) == Sum(Raised(a, k), Raised(b, k))
  {
  }

  lemma RaisedTwice(a: Poly, k: nat, n: nat)
    ensures Raised(Raised(a, k), n) == Raised(a, k + n)
  {
  }

  lemma TimesRaised(q: Poly, k: nat)
    ensures Times(Raised(q, k)) == Raised(Times(q), k)
  {
    RaisedTwice(q, k, 16); RaisedTwice(q, 16, k);
    RaisedTwice(q, k, 12); RaisedTwice(q, 12, k);
    RaisedTwice(q, k, 5); RaisedTwice(q, 5, k);
    RaisedSum(Raised(q, 16), Raised(q, 12), k);
    RaisedSum(Raised(q, 5), q, k);
    RaisedSum(Sum(Raised(q, 16), Raised(q, 12)), Sum(Raised(q, 5), q), k);
  }

  lemma Greatest(d: Poly) returns (e: nat)
    requires d != {}
    ensures e in d && forall f | f in d :: f <= e
  {
    var x :| x in d;
    if d == {x} {
      e := x;
    } else {
      var rest := d - {x};
      var y := Greatest(rest);
      e := if x > y then x else y;
      assert d == rest + {x};
    }
  }

  lemma GreatestStays(d: Poly, e: nat)
    requires e in d && forall f | f in d :: f <= e
    ensures e + 16 in Times(d)
  {
  }

  /** A polynomial has one remainder only. */
  lemma RemainderIsUnique(a: Poly, r: Poly, s: Poly)
    requires Remainder(a, r) && Remainder(a, s)
    ensures r == s
  {
    var p :| a == Sum(Times(p), r);
    var q :| a == Sum(Times(q), s);
    var d := Sum(p, q);
    TimesLinear(p, q);
    assert Times(d) == Sum(r, s);
    if d != {} {
      var e := Greatest(d);
      GreatestStays(d, e);
    }
  }

  // ---------------------------------------------------------------------------
  // Congruence
  // ---------------------------------------------------------------------------

  ghost predicate Congruent(a: Poly, b: Poly) {
    exists q: Poly :: a == Sum(Times(q), b)
  }

  lemma CongruentTrans(a: Poly, b: Poly, c: Poly)
    requires Congruent(a, b) && Congruent(b, c)
    ensures Congruent(a, c)
  {
    var p :| a == Sum(Times(p), b);
    var q :| b == Sum(Times(q), c);
    TimesLinear(p, q);
    SumRegroups(Times(p), Times(q), c);
    assert a == Sum(Times(Sum(p, q)), c);
  }

  lemma CongruentChain(a: Poly, again: Poly, b: Poly, c: Poly)
    requires a == again && Congruent(again, b) && Congruent(b, c)
    ensures Congruent(a, c)
  {
    CongruentTrans(a, b, c);
  }

  lemma SumRegroups(a: Poly, b: Poly, c: Poly)
    ensures Sum(a, Sum(b, c)) == Sum(Sum(a, b), c)
  {
  }

  lemma SumMixes(p: Poly, q: Poly, a: Poly, b: Poly)
    ensures Sum(Sum(p, q), Sum(a, b)) == Sum(Sum(p, a), Sum(q, b))
  {
  }

  lemma CongruentSum(a: Poly, b: Poly, c: Poly)
    requires Congruent(a, b)
    ensures Congruent(Sum(a, c), Sum(b, c))
  {
    var p :| a == Sum(Times(p), b);
    SumRegroups(Times(p), b, c);
  }

  lemma CongruentRaised(a: Poly, b: Poly, k: nat)
    requires Congruent(a, b)
    ensures Congruent(Raised(a, k), Raised(b, k))
  {
    var p :| a == Sum(Times(p), b);
    RaisedSum(Times(p), b, k);
    TimesRaised(p, k);
    assert Raised(a, k) == Sum(Times(Raised(p, k)), Raised(b, k));
  }

  lemma CongruentSelf(a: Poly)
    ensures Congruent(a, a)
  {
    assert Times({}) == {};
    assert a == Sum(Times({}), a);
  }

  lemma RaisedByNothing(a: Poly)
    ensures Raised(a, 0) == a
  {
  }

  /** A turn of division that takes the divisor away. */
  lemma DivisorTaken(a: Poly, low: Poly, r: Poly)
    requires a == Sum({16}, low) && r == Sum(low, {12, 5, 0})
    ensures Congruent(a, r)
  {
    assert Times({0}) == {16, 12, 5, 0};
    assert a == Sum(Times({0}), r);
  }
}
