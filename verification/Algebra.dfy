/**
 Commutative rings as values, so that the transform can be proved over exact
 arithmetic of any kind. Each law is a predicate of its own: a proof mentions the
 instance of the law it uses.
 */
module Algebra {

  datatype Ring<!T> = Ring(add: (T, T) -> T, mul: (T, T) -> T, neg: T -> T, zero: T, one: T)

  ghost predicate AddAssoc<T>(r: Ring<T>, x: T, y: T, z: T) {
    r.add(r.add(x, y), z) == r.add(x, r.add(y, z))
  }

  ghost predicate AddComm<T>(r: Ring<T>, x: T, y: T) {
    r.add(x, y) == r.add(y, x)
  }

  ghost predicate AddUnit<T>(r: Ring<T>, x: T) {
    r.add(x, r.zero) == x && r.add(x, r.neg(x)) == r.zero
  }

  ghost predicate MulAssoc<T>(r: Ring<T>, x: T, y: T, z: T) {
    r.mul(r.mul(x, y), z) == r.mul(x, r.mul(y, z))
  }

  ghost predicate MulComm<T>(r: Ring<T>, x: T, y: T) {
    r.mul(x, y) == r.mul(y, x)
  }

  ghost predicate MulUnit<T>(r: Ring<T>, x: T) {
    r.mul(x, r.one) == x
  }

  ghost predicate Distributes<T>(r: Ring<T>, x: T, y: T, z: T) {
    r.mul(x, r.add(y, z)) == r.add(r.mul(x, y), r.mul(x, z))
  }

  ghost predicate Lawful<T(!new)>(r: Ring<T>) {
    && (forall x, y, z :: AddAssoc(r, x, y, z))
    && (forall x, y :: AddComm(r, x, y))
    && (forall x :: AddUnit(r, x))
    && (forall x, y, z :: MulAssoc(r, x, y, z))
    && (forall x, y :: MulComm(r, x, y))
    && (forall x :: MulUnit(r, x))
    && (forall x, y, z :: Distributes(r, x, y, z))
  }

  function Sub<T>(r: Ring<T>, x: T, y: T): T {
    r.add(x, r.neg(y))
  }

  function Pow<T>(r: Ring<T>, x: T, n: nat): T {
    if n == 0 then r.one else r.mul(Pow(r, x, n - 1), x)
  }

  /** `n` as a ring element: 1 + ... + 1. */
  function FromNat<T>(r: Ring<T>, n: nat): T {
    if n == 0 then r.zero else r.add(FromNat(r, n - 1), r.one)
  }

  // --------------------------------------------------------- derived laws

  /** Only one element can be added to x to give y. */
  lemma {:induction false} CancelLeft<T(!new)>(r: Ring<T>, x: T, y: T, z: T)
    requires Lawful(r) && r.add(x, y) == r.add(x, z)
    ensures y == z
  {
    NegLeft(r, x, y);
    NegLeft(r, x, z);
  }

  lemma {:induction false} NegLeft<T(!new)>(r: Ring<T>, x: T, y: T)
    requires Lawful(r)
    ensures r.add(r.neg(x), r.add(x, y)) == y
  {
    assert AddAssoc(r, r.neg(x), x, y) && AddComm(r, r.neg(x), x) && AddUnit(r, x);
    assert AddComm(r, r.zero, y) && AddUnit(r, y);
  }

  lemma {:induction false} MulZero<T(!new)>(r: Ring<T>, x: T)
    requires Lawful(r)
    ensures r.mul(x, r.zero) == r.zero
  {
    var z := r.mul(x, r.zero);
    assert Distributes(r, x, r.zero, r.zero) && AddUnit(r, r.zero) && AddUnit(r, z);
    CancelLeft(r, z, z, r.zero);
  }

  lemma {:induction false} MulNeg<T(!new)>(r: Ring<T>, x: T, y: T)
    requires Lawful(r)
    ensures r.mul(x, r.neg(y)) == r.neg(r.mul(x, y))
  {
    var p := r.mul(x, y);
    MulZero(r, x);
    assert Distributes(r, x, y, r.neg(y)) && AddUnit(r, y) && AddUnit(r, p);
    CancelLeft(r, p, r.mul(x, r.neg(y)), r.neg(p));
  }

  /** (a + b) + (c + d) == (a + c) + (b + d) */
  lemma {:induction false} AddShuffle<T(!new)>(r: Ring<T>, a: T, b: T, c: T, d: T)
    requires Lawful(r)
    ensures r.add(r.add(a, b), r.add(c, d)) == r.add(r.add(a, c), r.add(b, d))
  {
    assert AddAssoc(r, a, b, r.add(c, d)) && AddAssoc(r, b, c, d) && AddComm(r, b, c);
    assert AddAssoc(r, c, b, d) && AddAssoc(r, a, c, r.add(b, d));
  }

  /** (a b) c == (a c) b */
  lemma {:induction false} MulSwap<T(!new)>(r: Ring<T>, a: T, b: T, c: T)
    requires Lawful(r)
    ensures r.mul(r.mul(a, b), c) == r.mul(r.mul(a, c), b)
  {
    assert MulAssoc(r, a, b, c) && MulComm(r, b, c) && MulAssoc(r, a, c, b);
  }

  lemma {:induction false} PowAdd<T(!new)>(r: Ring<T>, x: T, m: nat, n: nat)
    requires Lawful(r)
    ensures Pow(r, x, m + n) == r.mul(Pow(r, x, m), Pow(r, x, n))
    decreases n
  {
    if n == 0 {
      assert MulUnit(r, Pow(r, x, m));
    } else {
      PowAdd(r, x, m, n - 1);
      assert MulAssoc(r, Pow(r, x, m), Pow(r, x, n - 1), x);
    }
  }

  lemma {:induction false} PowMul<T(!new)>(r: Ring<T>, x: T, y: T, n: nat)
    requires Lawful(r)
    ensures Pow(r, r.mul(x, y), n) == r.mul(Pow(r, x, n), Pow(r, y, n))
    decreases n
  {
    if n == 0 {
      assert MulUnit(r, r.one);
    } else {
      var a, b := Pow(r, x, n - 1), Pow(r, y, n - 1);
      PowMul(r, x, y, n - 1);
      assert MulAssoc(r, r.mul(a, b), x, y);
      MulSwap(r, a, b, x);
      assert MulAssoc(r, r.mul(a, x), b, y);
    }
  }

  lemma {:induction false} PowPow<T(!new)>(r: Ring<T>, x: T, m: nat, n: nat)
    requires Lawful(r)
    ensures Pow(r, Pow(r, x, m), n) == Pow(r, x, m * n)
    decreases n
  {
    if n > 0 {
      PowPow(r, x, m, n - 1);
      PowAdd(r, x, m * (n - 1), m);
      assert m * (n - 1) + m == m * n;
    }
  }

  lemma {:induction false} PowOne<T(!new)>(r: Ring<T>, n: nat)
    requires Lawful(r)
    ensures Pow(r, r.one, n) == r.one
    decreases n
  {
    if n > 0 {
      PowOne(r, n - 1);
      assert MulUnit(r, r.one);
    }
  }

  lemma {:induction false} Pow1<T(!new)>(r: Ring<T>, x: T)
    requires Lawful(r)
    ensures Pow(r, x, 1) == x && Pow(r, x, 2) == r.mul(x, x)
  {
    assert MulComm(r, r.one, x) && MulUnit(r, x);
    assert Pow(r, x, 0) == r.one && Pow(r, x, 1) == r.mul(r.one, x);
  }
}

/** The exact complex numbers are such a ring. */
module Complex {
  import opened Algebra

  datatype Cx = Cx(re: real, im: real)

  function Add(x: Cx, y: Cx): Cx {
    Cx(x.re + y.re, x.im + y.im)
  }

  function Mul(x: Cx, y: Cx): Cx {
    Cx(x.re * y.re - x.im * y.im, x.re * y.im + x.im * y.re)
  }

  const FIELD: Ring<Cx> := Ring(Add, Mul, (x: Cx) => Cx(-x.re, -x.im), Cx(0.0, 0.0), Cx(1.0, 0.0))

  lemma {:induction false} ComplexLawful()
    ensures Lawful(FIELD)
  {
    forall x, y, z ensures MulAssoc(FIELD, x, y, z) { Assoc(x, y, z); }
    forall x, y, z ensures Distributes(FIELD, x, y, z) { Dist(x, y, z); }
  }

  lemma {:induction false} Assoc(x: Cx, y: Cx, z: Cx)
    ensures Mul(Mul(x, y), z) == Mul(x, Mul(y, z))
  {
  }

  lemma {:induction false} Dist(x: Cx, y: Cx, z: Cx)
    ensures Mul(x, Add(y, z)) == Add(Mul(x, y), Mul(x, z))
  {
  }
}
