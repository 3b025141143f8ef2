/**
 The in-place radix-2 transform of tools/gen_filters.py: a bit-reversal loop, then
 butterfly passes with an accumulated twiddle. It is proved equal to the plain
 Fourier sum over any commutative ring, and its inverse to undo it.
 */
module Fft {
  import opened Algebra

  ghost predicate PowerOfTwo(n: nat) {
    n == 1 || (n > 0 && n % 2 == 0 && PowerOfTwo(n / 2))
  }

  /**
   `root(length)` is the step the program computes for a pass of that length: the
   step of the half length is its square, and the step of length 2 is -1.
   */
  ghost predicate Principal<T(!new)>(r: Ring<T>, root: nat -> T, n: nat) {
    if n <= 1 then root(n) == r.one
    else
      && r.mul(root(n), root(n)) == root(n / 2)
      && (n <= 3 ==> root(n) == r.neg(r.one))
      && Principal(r, root, n / 2)
  }

  // -------------------------------------------------------- specification

  function Evens<T>(s: seq<T>): seq<T> {
    seq(|s| / 2, i requires 0 <= i < |s| / 2 => s[2 * i])
  }

  function Odds<T>(s: seq<T>): seq<T> {
    seq(|s| / 2, i requires 0 <= i < |s| / 2 => s[2 * i + 1])
  }

  /** One term and the whole of the sum of x[j] w^(jk) over j < n. */
  function Dft<T>(r: Ring<T>, x: seq<T>, w: T, k: nat, n: nat): T
    requires n <= |x|
  {
    if n == 0 then r.zero
    else r.add(Dft(r, x, w, k, n - 1), r.mul(x[n - 1], Pow(r, w, (n - 1) * k)))
  }

  /** The sequence of all |x| Fourier sums. */
  function Transformed<T>(r: Ring<T>, x: seq<T>, w: T): seq<T> {
    seq(|x|, k requires 0 <= k < |x| => Dft(r, x, w, k, |x|))
  }

  /** Index with its bits (n of them counted as 2^bits) in reverse order. */
  function Rev(i: nat, n: nat): nat
    decreases n
  {
    if n <= 1 then 0 else (if i % 2 == 1 then n / 2 else 0) + Rev(i / 2, n / 2)
  }

  /** One pass over one block: sums in the first half, differences in the second. */
  function Combine<T>(r: Ring<T>, e: seq<T>, o: seq<T>, w: T): (c: seq<T>)
    requires |e| == |o|
    ensures |c| == 2 * |e|
  {
    seq(|e|, k requires 0 <= k < |e| => r.add(e[k], r.mul(o[k], Pow(r, w, k))))
    + seq(|e|, k requires 0 <= k < |e| => Sub(r, e[k], r.mul(o[k], Pow(r, w, k))))
  }

  /** The recursive transform. */
  function Fast<T>(r: Ring<T>, root: nat -> T, x: seq<T>): (y: seq<T>)
    requires PowerOfTwo(|x|)
    ensures |y| == |x|
    decreases |x|
  {
    if |x| == 1 then x
    else Combine(r, Fast(r, root, Evens(x)), Fast(r, root, Odds(x)), root(|x|))
  }

  /** The array between passes: blocks of length `len` are transformed. */
  function Level<T>(r: Ring<T>, root: nat -> T, x: seq<T>, len: nat): (y: seq<T>)
    requires PowerOfTwo(|x|)
    ensures |y| == |x|
    decreases |x|
  {
    if |x| <= len || |x| == 1 then Fast(r, root, x)
    else Level(r, root, Evens(x), len) + Level(r, root, Odds(x), len)
  }

  /** A whole pass over consecutive blocks of two halves each. */
  function Pass<T>(r: Ring<T>, w: T, a: seq<T>, half: nat): (b: seq<T>)
    requires half > 0
    ensures |b| == |a|
    decreases |a|
  {
    if |a| < 2 * half then a
    else Combine(r, a[..half], a[half..2 * half], w) + Pass(r, w, a[2 * half..], half)
  }

  // --------------------------------------- the recursive form is the sum

  /** Value at v of the polynomial with coefficients x, by Horner's rule. */
  function Eval<T>(r: Ring<T>, x: seq<T>, v: T): T {
    if x == [] then r.zero else r.add(x[0], r.mul(v, Eval(r, x[1..], v)))
  }

  lemma {:induction false} EvalSnoc<T(!new)>(r: Ring<T>, x: seq<T>, c: T, v: T)
    requires Lawful(r)
    ensures Eval(r, x + [c], v) == r.add(Eval(r, x, v), r.mul(c, Pow(r, v, |x|)))
    decreases |x|
  {
    if x == [] {
      assert (x + [c])[1..] == [];
      MulZero(r, v);
      assert AddUnit(r, c) && AddComm(r, r.zero, c) && MulUnit(r, c);
    } else {
      assert (x + [c])[1..] == x[1..] + [c];
      EvalSnoc(r, x[1..], c, v);
      var t, p := Eval(r, x[1..], v), Pow(r, v, |x| - 1);
      assert Distributes(r, v, t, r.mul(c, p));
      assert MulComm(r, v, r.mul(c, p)) && MulAssoc(r, c, p, v);
      assert AddAssoc(r, x[0], r.mul(v, t), r.mul(v, r.mul(c, p)));
    }
  }

  lemma {:induction false} EvalIsDft<T(!new)>(r: Ring<T>, x: seq<T>, w: T, k: nat, n: nat)
    requires Lawful(r) && n <= |x|
    ensures Eval(r, x[..n], Pow(r, w, k)) == Dft(r, x, w, k, n)
    decreases n
  {
    if n > 0 {
      EvalIsDft(r, x, w, k, n - 1);
      assert x[..n] == x[..n - 1] + [x[n - 1]];
      EvalSnoc(r, x[..n - 1], x[n - 1], Pow(r, w, k));
      PowPow(r, w, k, n - 1);
      assert k * (n - 1) == (n - 1) * k;
    }
  }

  lemma {:induction false} EvalSplit<T(!new)>(r: Ring<T>, x: seq<T>, v: T)
    requires Lawful(r) && |x| % 2 == 0
    ensures Eval(r, x, v)
         == r.add(Eval(r, Evens(x), r.mul(v, v)), r.mul(Eval(r, Odds(x), r.mul(v, v)), v))
    decreases |x|
  {
    var v2 := r.mul(v, v);
    if x == [] {
      assert MulComm(r, r.zero, v) && AddUnit(r, r.zero);
      MulZero(r, v);
    } else {
      var y := x[2..];
      EvalSplit(r, y, v);
      assert Evens(x)[1..] == Evens(y) && Odds(x)[1..] == Odds(y);
      assert x[1..][1..] == y;
      var e, o := Eval(r, Evens(y), v2), Eval(r, Odds(y), v2);
      SplitStep(r, x[0], x[1], e, o, v);
    }
  }

  lemma {:induction false} SplitStep<T(!new)>(r: Ring<T>, a: T, b: T, e: T, o: T, v: T)
    requires Lawful(r)
    ensures r.add(a, r.mul(v, r.add(b, r.mul(v, r.add(e, r.mul(o, v))))))
         == r.add(r.add(a, r.mul(r.mul(v, v), e)), r.mul(r.add(b, r.mul(r.mul(v, v), o)), v))
  {
    var v2 := r.mul(v, v);
    var q := r.add(e, r.mul(o, v));
    // v (b + v q) = v b + (v2 e + (v2 o) v)
    assert Distributes(r, v, b, r.mul(v, q)) && MulAssoc(r, v, v, q);
    assert Distributes(r, v2, e, r.mul(o, v)) && MulAssoc(r, v2, o, v);
    var f, g := r.mul(v2, e), r.mul(r.mul(v2, o), v);
    // (b + v2 o) v = v b + g
    assert MulComm(r, r.add(b, r.mul(v2, o)), v) && Distributes(r, v, b, r.mul(v2, o));
    assert MulComm(r, v, r.mul(v2, o));
    // a + (v b + (f + g)) = (a + f) + (v b + g)
    assert AddAssoc(r, a, r.mul(v, b), r.add(f, g));
    AddShuffle(r, a, f, r.mul(v, b), g);
  }

  lemma {:induction false} HalfTurn<T(!new)>(r: Ring<T>, root: nat -> T, n: nat)
    requires Lawful(r) && PowerOfTwo(n) && n >= 2 && Principal(r, root, n)
    ensures Pow(r, root(n), n / 2) == r.neg(r.one)
    decreases n
  {
    if n == 2 {
      Pow1(r, root(2));
    } else {
      HalfTurn(r, root, n / 2);
      Pow1(r, root(n));
      PowPow(r, root(n), 2, n / 4);
    }
  }

  /** The k-th value of the recursive transform is the polynomial's value at w^k. */
  lemma {:induction false} FastIsEval<T(!new)>(r: Ring<T>, root: nat -> T, x: seq<T>, k: nat)
    requires Lawful(r) && PowerOfTwo(|x|) && Principal(r, root, |x|) && k < |x|
    ensures Fast(r, root, x)[k] == Eval(r, x, Pow(r, root(|x|), k))
    decreases |x|, 2
  {
    var half := |x| / 2;
    if |x| == 1 {
      SingleFast(r, root, x);
    } else if k < half {
      ButterflyIsEval(r, root, x, k);
    } else {
      ButterflyIsEval(r, root, x, k - half);
      assert k - half + half == k;
    }
  }

  lemma {:induction false} SingleFast<T(!new)>(r: Ring<T>, root: nat -> T, x: seq<T>)
    requires Lawful(r) && |x| == 1
    ensures Fast(r, root, x)[0] == Eval(r, x, Pow(r, root(1), 0))
  {
    SingleEval(r, x[0], Pow(r, root(1), 0));
    assert x == [x[0]];
  }

  /** Both outputs of one butterfly are values of the polynomial. */
  lemma {:induction false} ButterflyIsEval<T(!new)>(r: Ring<T>, root: nat -> T, x: seq<T>, j: nat)
    requires Lawful(r) && PowerOfTwo(|x|) && Principal(r, root, |x|) && j < |x| / 2
    ensures Fast(r, root, x)[j] == Eval(r, x, Pow(r, root(|x|), j))
    ensures Fast(r, root, x)[j + |x| / 2] == Eval(r, x, Pow(r, root(|x|), j + |x| / 2))
    decreases |x|, 1
  {
    HalvesAreEval(r, root, x, j);
    FastAt(r, root, x, j);
    OppositePoint(r, root, |x|, j);
  }

  lemma {:induction false} OppositePoint<T(!new)>(r: Ring<T>, root: nat -> T, n: nat, j: nat)
    requires Lawful(r) && PowerOfTwo(n) && n >= 2 && Principal(r, root, n)
    ensures Pow(r, root(n), j + n / 2) == r.mul(Pow(r, root(n), j), r.neg(r.one))
  {
    HalfTurn(r, root, n);
    PowAdd(r, root(n), j, n / 2);
  }

  lemma {:induction false} SingleEval<T(!new)>(r: Ring<T>, c: T, v: T)
    requires Lawful(r)
    ensures Eval(r, [c], v) == c
  {
    assert [c][1..] == [];
    MulZero(r, v);
    assert AddUnit(r, c);
  }

  lemma {:induction false} HalvesAreEval<T(!new)>(r: Ring<T>, root: nat -> T, x: seq<T>, j: nat)
    requires Lawful(r) && PowerOfTwo(|x|) && Principal(r, root, |x|) && j < |x| / 2
    ensures var p := Pow(r, root(|x|), j);
            && Fast(r, root, Evens(x))[j] == Eval(r, Evens(x), r.mul(p, p))
            && Fast(r, root, Odds(x))[j] == Eval(r, Odds(x), r.mul(p, p))
    decreases |x|, 0
  {
    FastIsEval(r, root, Evens(x), j);
    FastIsEval(r, root, Odds(x), j);
    PowMul(r, root(|x|), root(|x|), j);
  }

  /** Both outputs of one butterfly, given the values of the two half transforms. */
  lemma {:induction false} FastAt<T(!new)>(r: Ring<T>, root: nat -> T, x: seq<T>, j: nat)
    requires Lawful(r) && PowerOfTwo(|x|) && j < |x| / 2
    requires Fast(r, root, Evens(x))[j]
          == Eval(r, Evens(x), r.mul(Pow(r, root(|x|), j), Pow(r, root(|x|), j)))
    requires Fast(r, root, Odds(x))[j]
          == Eval(r, Odds(x), r.mul(Pow(r, root(|x|), j), Pow(r, root(|x|), j)))
    ensures Fast(r, root, x)[j] == Eval(r, x, Pow(r, root(|x|), j))
    ensures Fast(r, root, x)[j + |x| / 2] == Eval(r, x, r.mul(Pow(r, root(|x|), j), r.neg(r.one)))
  {
    CombineAt(r, Fast(r, root, Evens(x)), Fast(r, root, Odds(x)), root(|x|), j);
    EvalSplit(r, x, Pow(r, root(|x|), j));
    NegatedPoint(r, x, Pow(r, root(|x|), j));
    assert MulComm(r, Fast(r, root, Odds(x))[j], Pow(r, root(|x|), j));
  }

  lemma {:induction false} CombineAt<T>(r: Ring<T>, e: seq<T>, o: seq<T>, w: T, j: nat)
    requires |e| == |o| && j < |e|
    ensures Combine(r, e, o, w)[j] == r.add(e[j], r.mul(o[j], Pow(r, w, j)))
    ensures Combine(r, e, o, w)[j + |e|] == Sub(r, e[j], r.mul(o[j], Pow(r, w, j)))
  {
  }

  /** At -v the even part is the same and the odd part changes sign. */
  lemma {:induction false} NegatedPoint<T(!new)>(r: Ring<T>, x: seq<T>, v: T)
    requires Lawful(r) && |x| % 2 == 0
    ensures Eval(r, x, r.mul(v, r.neg(r.one)))
         == Sub(r, Eval(r, Evens(x), r.mul(v, v)), r.mul(Eval(r, Odds(x), r.mul(v, v)), v))
  {
    var m := r.mul(v, r.neg(r.one));
    MulNeg(r, v, r.one);
    assert MulUnit(r, v);
    assert m == r.neg(v);
    MulNeg(r, m, v);
    assert MulComm(r, m, v);
    MulNeg(r, v, v);
    NegNeg(r, r.mul(v, v));
    EvalSplit(r, x, m);
    MulNeg(r, Eval(r, Odds(x), r.mul(v, v)), v);
  }

  lemma {:induction false} NegNeg<T(!new)>(r: Ring<T>, x: T)
    requires Lawful(r)
    ensures r.neg(r.neg(x)) == x
  {
    assert AddUnit(r, x) && AddUnit(r, r.neg(x)) && AddComm(r, x, r.neg(x));
    CancelLeft(r, r.neg(x), r.neg(r.neg(x)), x);
  }

  lemma {:induction false} FastIsTransformed<T(!new)>(r: Ring<T>, root: nat -> T, x: seq<T>)
    requires Lawful(r) && PowerOfTwo(|x|) && Principal(r, root, |x|)
    ensures Fast(r, root, x) == Transformed(r, x, root(|x|))
  {
    forall k | 0 <= k < |x| ensures Fast(r, root, x)[k] == Dft(r, x, root(|x|), k, |x|) {
      FastIsEval(r, root, x, k);
      EvalIsDft(r, x, root(|x|), k, |x|);
      assert x[..|x|] == x;
    }
  }

  // ------------------------------------------------ passes build the levels

  /** n elements are whole blocks of length len. */
  ghost predicate Blocks(n: nat, len: nat)
    requires len > 0
  {
    n == 0 || (n >= len && Blocks(n - len, len))
  }

  lemma {:induction false} PassConcat<T>(r: Ring<T>, w: T, a: seq<T>, b: seq<T>, half: nat)
    requires half > 0 && Blocks(|a|, 2 * half)
    ensures Pass(r, w, a + b, half) == Pass(r, w, a, half) + Pass(r, w, b, half)
    decreases |a|
  {
    if a == [] {
      assert a + b == b;
    } else {
      assert (a + b)[2 * half..] == a[2 * half..] + b;
      assert (a + b)[..half] == a[..half] && (a + b)[half..2 * half] == a[half..2 * half];
      PassConcat(r, w, a[2 * half..], b, half);
    }
  }

  lemma {:induction false} BlocksAdd(m: nat, n: nat, len: nat)
    requires len > 0 && Blocks(m, len) && Blocks(n, len)
    ensures Blocks(m + n, len)
    decreases m
  {
    if m > 0 { BlocksAdd(m - len, n, len); }
  }

  /** One pass with halves of length len takes one level to the next. */
  lemma {:induction false} PassLevel<T>(r: Ring<T>, root: nat -> T, x: seq<T>, len: nat)
    requires PowerOfTwo(|x|) && PowerOfTwo(len) && 2 * len <= |x|
    ensures Blocks(|x|, 2 * len)
    ensures Pass(r, root(2 * len), Level(r, root, x, len), len) == Level(r, root, x, 2 * len)
    decreases |x|
  {
    var a := Level(r, root, x, len);
    if |x| == 2 * len {
      assert Blocks(0, 2 * len) && |Evens(x)| == len && |Odds(x)| == len;
      assert Level(r, root, Evens(x), len) == Fast(r, root, Evens(x));
      assert Level(r, root, Odds(x), len) == Fast(r, root, Odds(x));
      assert a[..len] == Fast(r, root, Evens(x)) && a[len..2 * len] == Fast(r, root, Odds(x));
      assert a[2 * len..] == [];
    } else {
      BetweenPowers(|x| / 2, len);
      PassLevel(r, root, Evens(x), len);
      PassLevel(r, root, Odds(x), len);
      BlocksAdd(|x| / 2, |x| / 2, 2 * len);
      PassConcat(r, root(2 * len), Level(r, root, Evens(x), len), Level(r, root, Odds(x), len), len);
    }
  }

  lemma {:induction false} BetweenPowers(n: nat, m: nat)
    requires PowerOfTwo(n) && PowerOfTwo(m) && m < n
    ensures 2 * m <= n
    decreases n
  {
    if m > 1 {
      BetweenPowers(n / 2, m / 2);
    }
  }

  // --------------------------------------------------------- bit reversal

  lemma {:induction false} RevRange(i: nat, n: nat)
    requires PowerOfTwo(n) && i < n
    ensures Rev(i, n) < n
    decreases n
  {
    if n > 1 { RevRange(i / 2, n / 2); }
  }

  /** The same reversal read from the top bit. */
  lemma {:induction false} RevTop(i: nat, n: nat)
    requires PowerOfTwo(n) && n >= 2 && i < n
    ensures Rev(i, n) == if i < n / 2 then 2 * Rev(i, n / 2) else 2 * Rev(i - n / 2, n / 2) + 1
    decreases n
  {
    var h := n / 2;
    if h == 1 {
      assert Rev(i / 2, 1) == 0;
    } else {
      RevTop(i / 2, h);
      assert h % 2 == 0;
      if i >= h {
        assert (i - h) % 2 == i % 2 && (i - h) / 2 == i / 2 - h / 2;
      }
    }
  }

  lemma {:induction false} RevTwice(i: nat, n: nat)
    requires PowerOfTwo(n) && i < n
    ensures Rev(i, n) < n && Rev(Rev(i, n), n) == i
    decreases n
  {
    RevRange(i, n);
    if n > 1 {
      RevRange(i / 2, n / 2);
      RevTwice(i / 2, n / 2);
      RevTop(Rev(i, n), n);
    }
  }

  /** The bit-reversed input is the level in which only single elements are done. */
  lemma {:induction false} ReversedIsLevel<T>(r: Ring<T>, root: nat -> T, x: seq<T>, i: nat)
    requires PowerOfTwo(|x|) && i < |x|
    ensures Rev(i, |x|) < |x| && Level(r, root, x, 1)[i] == x[Rev(i, |x|)]
    decreases |x|
  {
    RevRange(i, |x|);
    if |x| > 1 {
      var h := |x| / 2;
      RevTop(i, |x|);
      if i < h {
        ReversedIsLevel(r, root, Evens(x), i);
      } else {
        ReversedIsLevel(r, root, Odds(x), i - h);
      }
    }
  }

  // ------------------------------------------------------- the program

  /** Next index in bit-reversed counting: a carry that runs downwards. */
  method NextReversed(ghost i: nat, n: nat, j0: nat) returns (j: nat)
    requires PowerOfTwo(n) && i + 1 < n && j0 == Rev(i, n)
    ensures j == Rev(i + 1, n)
  {
    j := j0;
    var bit := n / 2;
    ghost var q: nat := i;
    while (j / bit) % 2 == 1
      invariant bit >= 1 && PowerOfTwo(bit)
      invariant 0 <= q && q + 1 < 2 * bit && j == Rev(q, 2 * bit)
      invariant Rev(i + 1, n) == Rev(q + 1, 2 * bit)
      decreases bit
    {
      RevLowBit(q, bit);
      j := j - bit;
      bit := bit / 2;
      q := q / 2;
    }
    RevLowBit(q, bit);
    j := j + bit;
  }

  /** The low bit of an index is the top bit of its reversal. */
  lemma {:induction false} RevLowBit(q: nat, bit: nat)
    requires PowerOfTwo(bit) && q + 1 < 2 * bit
    ensures (Rev(q, 2 * bit) / bit) % 2 == q % 2
    ensures Rev(q, 2 * bit) == (if q % 2 == 1 then bit else 0) + Rev(q / 2, bit)
    ensures q % 2 == 1 ==> bit > 1 && q / 2 + 1 < bit && Rev(q + 1, 2 * bit) == Rev(q / 2 + 1, bit)
    ensures q % 2 == 0 ==> Rev(q + 1, 2 * bit) == bit + Rev(q / 2, bit)
  {
    RevRange(q / 2, bit);
    assert (2 * bit) / 2 == bit;
    Quotient(Rev(q, 2 * bit), bit, q % 2);
    assert (q + 1) / 2 == if q % 2 == 1 then q / 2 + 1 else q / 2;
  }

  lemma {:induction false} Quotient(a: nat, b: nat, q: nat)
    requires q == 0 || q == 1
    requires b > 0 && (if q == 1 then b else 0) <= a < (if q == 1 then 2 * b else b)
    ensures a / b == q
  {
    var d := a / b - q;
    assert a == b * (a / b) + a % b;
    assert b * d == a - a % b - (if q == 1 then b else 0);
    NoSmallMultiple(b, d);
  }

  lemma {:induction false} NoSmallMultiple(b: int, d: int)
    requires b > 0 && -b < b * d < b
    ensures d == 0
  {
    assert d >= 1 ==> b * d >= b;
    assert d <= -1 ==> b * d <= -b;
  }

  /** The reversal of every index, as a table; it is its own inverse. */
  ghost function Mirrors(n: nat): (p: seq<nat>)
    requires PowerOfTwo(n)
    ensures |p| == n && SelfInverse(p)
    ensures forall k :: 0 <= k < n ==> p[k] == Rev(k, n)
  {
    assert forall k {:trigger Rev(k, n)} :: 0 <= k < n ==> Rev(k, n) < n && Rev(Rev(k, n), n) == k by {
      forall k | 0 <= k < n ensures Rev(k, n) < n && Rev(Rev(k, n), n) == k { RevTwice(k, n); }
    }
    seq(n, k requires 0 <= k < n => Rev(k, n))
  }

  ghost predicate SelfInverse(p: seq<nat>) {
    forall k :: 0 <= k < |p| ==> p[k] < |p| && p[p[k]] == k
  }

  /** Positions below i, and their mirrors, hold the mirrored element; others are untouched. */
  ghost predicate Mirrored<T>(a: seq<T>, x: seq<T>, p: seq<nat>, i: int)
    requires |a| == |x| == |p| && SelfInverse(p)
  {
    forall k :: 0 <= k < |x| ==> a[k] == if k < i || p[k] < i then x[p[k]] else x[k]
  }

  method Permute<T>(a: array<T>)
    requires PowerOfTwo(a.Length)
    modifies a
    ensures Mirrored(a[..], old(a[..]), Mirrors(a.Length), a.Length)
  {
    var n := a.Length;
    ghost var x, p := a[..], Mirrors(n);
    RevZero(n);
    assert p[0] == 0;
    var j := 0;
    for i := 1 to n
      invariant j == Rev(i - 1, n)
      invariant Mirrored(a[..], x, p, i)
    {
      j := NextReversed(i - 1, n, j);
      assert j == p[i];
      MirrorOne(a[..], x, p, i);
      if i < j {
        ghost var was := a[..];
        a[i], a[j] := a[j], a[i];
        assert a[..] == was[i := was[j]][j := was[i]];
      }
    }
  }

  /** One swap, or none when the mirror has been seen already. */
  lemma {:induction false} MirrorOne<T>(a: seq<T>, x: seq<T>, p: seq<nat>, i: nat)
    requires |a| == |x| == |p| && SelfInverse(p) && i < |p| && Mirrored(a, x, p, i)
    ensures var j := p[i];
            Mirrored(if i < j then a[i := a[j]][j := a[i]] else a, x, p, i + 1)
  {
    var j := p[i];
    var b := if i < j then a[i := a[j]][j := a[i]] else a;
    assert p[j] == i;
    forall k | 0 <= k < |x| ensures b[k] == if k < i + 1 || p[k] < i + 1 then x[p[k]] else x[k] {
      assert p[k] == i ==> k == j by { assert p[p[k]] == k; }
    }
  }

  lemma {:induction false} RevZero(n: nat)
    ensures Rev(0, n) == 0
    decreases n
  {
    if n > 1 { RevZero(n / 2); }
  }

  lemma {:induction false} PermutedIsLevel<T>(r: Ring<T>, root: nat -> T, a: seq<T>, x: seq<T>)
    requires PowerOfTwo(|x|) && |a| == |x| && Mirrored(a, x, Mirrors(|x|), |x|)
    ensures a == Level(r, root, x, 1)
  {
    forall i | 0 <= i < |x| ensures a[i] == Level(r, root, x, 1)[i] {
      ReversedIsLevel(r, root, x, i);
      assert Mirrors(|x|)[i] == Rev(i, |x|);
    }
  }

  /** Cell t of an array whose block at i has had k of its butterflies done. */
  function Cell<T>(r: Ring<T>, b: seq<T>, wlen: T, i: nat, half: nat, k: nat, t: nat): T
    requires i + 2 * half <= |b| && k <= half && t < |b|
  {
    if i <= t < i + k then r.add(b[t], r.mul(b[t + half], Pow(r, wlen, t - i)))
    else if i + half <= t < i + half + k then
      Sub(r, b[t - half], r.mul(b[t], Pow(r, wlen, t - half - i)))
    else b[t]
  }

  /** One block of a pass, in place, with the twiddle accumulated by multiplication. */
  method Butterflies<T>(r: Ring<T>, wlen: T, a: array<T>, i: nat, half: nat)
    requires half > 0 && i + 2 * half <= a.Length
    modifies a
    ensures var b := old(a[..]);
            a[..] == b[..i] + Combine(r, b[i..i + half], b[i + half..i + 2 * half], wlen) + b[i + 2 * half..]
  {
    ghost var b := a[..];
    var w := r.one;
    for k := 0 to half
      invariant w == Pow(r, wlen, k)
      invariant forall t :: 0 <= t < a.Length ==> a[t] == Cell(r, b, wlen, i, half, k, t)
    {
      var u := a[i + k];
      var v := r.mul(a[i + k + half], w);
      a[i + k] := r.add(u, v);
      a[i + k + half] := Sub(r, u, v);
      w := r.mul(w, wlen);
    }
    BlockDone(r, a[..], b, wlen, i, half);
  }

  lemma {:induction false} BlockDone<T>(r: Ring<T>, a: seq<T>, b: seq<T>, wlen: T, i: nat, half: nat)
    requires half > 0 && |a| == |b| && i + 2 * half <= |b|
    requires forall t :: 0 <= t < |a| ==> a[t] == Cell(r, b, wlen, i, half, half, t)
    ensures a == b[..i] + Combine(r, b[i..i + half], b[i + half..i + 2 * half], wlen) + b[i + 2 * half..]
  {
  }

  lemma {:induction false} Slices<T>(done: seq<T>, todo: seq<T>, half: nat)
    requires 2 * half <= |todo|
    ensures var s, i := done + todo, |done|;
            && s[..i] == done && s[i..i + half] == todo[..half]
            && s[i + half..i + 2 * half] == todo[half..2 * half] && s[i + 2 * half..] == todo[2 * half..]
  {
  }

  lemma {:induction false} PassUnfold<T>(r: Ring<T>, w: T, done: seq<T>, todo: seq<T>, half: nat)
    requires half > 0 && 2 * half <= |todo|
    ensures done + Pass(r, w, todo, half)
         == (done + Combine(r, todo[..half], todo[half..2 * half], w)) + Pass(r, w, todo[2 * half..], half)
  {
  }

  /** The block at i, seen as the first block of what is still to do. */
  method NextBlock<T>(r: Ring<T>, wlen: T, a: array<T>, i: nat, half: nat, ghost done: seq<T>, ghost todo: seq<T>)
    requires half > 0 && 2 * half <= |todo| && i == |done| && a[..] == done + todo
    modifies a
    ensures a[..] == (done + Combine(r, todo[..half], todo[half..2 * half], wlen)) + todo[2 * half..]
  {
    Slices(done, todo, half);
    Butterflies(r, wlen, a, i, half);
  }

  method RunPass<T>(r: Ring<T>, wlen: T, a: array<T>, half: nat)
    requires half > 0 && Blocks(a.Length, 2 * half)
    modifies a
    ensures a[..] == Pass(r, wlen, old(a[..]), half)
  {
    ghost var b := a[..];
    ghost var done, todo := [], b;
    var i := 0;
    while i < a.Length
      invariant i == |done| && Blocks(|todo|, 2 * half)
      invariant a[..] == done + todo
      invariant done + Pass(r, wlen, todo, half) == Pass(r, wlen, b, half)
    {
      PassUnfold(r, wlen, done, todo, half);
      NextBlock(r, wlen, a, i, half, done, todo);
      done, todo := done + Combine(r, todo[..half], todo[half..2 * half], wlen), todo[2 * half..];
      i := i + 2 * half;
    }
  }

  lemma {:induction false} DoublePower(n: nat)
    requires PowerOfTwo(n)
    ensures PowerOfTwo(2 * n)
  {
  }

  lemma {:induction false} LastLevel<T>(r: Ring<T>, root: nat -> T, x: seq<T>, len: nat)
    requires PowerOfTwo(|x|) && PowerOfTwo(len) && 2 * len > |x|
    ensures Level(r, root, x, len) == Fast(r, root, x)
  {
    if len < |x| { BetweenPowers(|x|, len); }
  }

  method Scale<T>(r: Ring<T>, a: array<T>, scale: T)
    modifies a
    ensures a[..] == Scaled(r, scale, old(a[..]))
  {
    ghost var y := a[..];
    for i := 0 to a.Length
      invariant forall t :: 0 <= t < i ==> a[t] == r.mul(y[t], scale)
      invariant forall t :: i <= t < a.Length ==> a[t] == y[t]
    {
      a[i] := r.mul(a[i], scale);
    }
  }

  /**
   `_FFT.transform`: the array becomes its recursive transform, scaled by `scale`
   (the program's division by n) when the inverse is asked for.
   */
  method Transform<T>(r: Ring<T>, root: nat -> T, a: array<T>, inverse: bool, scale: T)
    requires PowerOfTwo(a.Length)
    modifies a
    ensures a[..] == if inverse then Scaled(r, scale, Fast(r, root, old(a[..])))
                                else Fast(r, root, old(a[..]))
  {
    var n := a.Length;
    ghost var x := a[..];
    Permute(a);
    PermutedIsLevel(r, root, a[..], x);
    var len := 2;
    ghost var half := 1;
    while len <= n
      invariant half > 0 && len == 2 * half && PowerOfTwo(half)
      invariant a[..] == Level(r, root, x, half)
      decreases n - len
    {
      PassLevel(r, root, x, half);
      RunPass(r, root(len), a, len / 2);
      DoublePower(half);
      half := len;
      len := 2 * len;
    }
    LastLevel(r, root, x, half);
    if inverse {
      Scale(r, a, scale);
    }
  }

  function Scaled<T>(r: Ring<T>, c: T, x: seq<T>): seq<T> {
    seq(|x|, i requires 0 <= i < |x| => r.mul(x[i], c))
  }

  // ----------------------------------------------- the inverse undoes it

  /** 1 + v + ... + v^(n-1) */
  function Geometric<T>(r: Ring<T>, v: T, n: nat): T {
    if n == 0 then r.zero else r.add(Geometric(r, v, n - 1), Pow(r, v, n - 1))
  }

  lemma {:induction false} GeometricSplit<T(!new)>(r: Ring<T>, v: T, m: nat, n: nat)
    requires Lawful(r)
    ensures Geometric(r, v, m + n)
         == r.add(Geometric(r, v, m), r.mul(Pow(r, v, m), Geometric(r, v, n)))
    decreases n
  {
    var p := Pow(r, v, m);
    if n == 0 {
      MulZero(r, p);
      assert AddUnit(r, Geometric(r, v, m));
    } else {
      GeometricSplit(r, v, m, n - 1);
      PowAdd(r, v, m, n - 1);
      var g, q := Geometric(r, v, n - 1), Pow(r, v, n - 1);
      assert Distributes(r, p, g, q);
      assert AddAssoc(r, Geometric(r, v, m), r.mul(p, g), r.mul(p, q));
    }
  }

  /** Doubling the length multiplies by 1 + v^n, so a zero stays and v^n = -1 makes one. */
  lemma {:induction false} GeometricZero<T(!new)>(r: Ring<T>, v: T, h: nat)
    requires Lawful(r)
    requires Geometric(r, v, h) == r.zero || Pow(r, v, h) == r.neg(r.one)
    ensures Geometric(r, v, h + h) == r.zero
  {
    var g := Geometric(r, v, h);
    GeometricSplit(r, v, h, h);
    if g == r.zero {
      MulZero(r, Pow(r, v, h));
      assert AddUnit(r, r.zero);
    } else {
      assert MulComm(r, r.neg(r.one), g);
      MulNeg(r, g, r.one);
      assert MulUnit(r, g) && AddUnit(r, g);
    }
  }

  lemma {:induction false} MinusOnePow<T(!new)>(r: Ring<T>, d: nat)
    requires Lawful(r) && d % 2 == 1
    ensures Pow(r, r.neg(r.one), d) == r.neg(r.one)
  {
    var m := r.neg(r.one);
    MulNeg(r, m, r.one);
    NegNeg(r, r.one);
    assert MulUnit(r, m);
    Pow1(r, m);
    PowPow(r, m, 2, d / 2);
    PowOne(r, d / 2);
    PowAdd(r, m, 2 * (d / 2), 1);
    assert MulComm(r, r.one, m);
  }

  /** The powers of a non-trivial n-th root add up to nothing. */
  lemma {:induction false} RootsCancel<T(!new)>(r: Ring<T>, root: nat -> T, n: nat, d: nat)
    requires Lawful(r) && PowerOfTwo(n) && Principal(r, root, n) && 0 < d < n
    ensures Geometric(r, Pow(r, root(n), d), n) == r.zero
    decreases n
  {
    var h, v := n / 2, Pow(r, root(n), d);
    if d % 2 == 0 {
      RootsCancel(r, root, h, d / 2);
      Pow1(r, root(n));
      PowPow(r, root(n), 2, d / 2);
    } else {
      HalfTurn(r, root, n);
      PowPow(r, root(n), d, h);
      PowPow(r, root(n), h, d);
      assert d * h == h * d;
      MinusOnePow(r, d);
    }
    GeometricZero(r, v, h);
  }

  lemma {:induction false} GeometricOfOne<T(!new)>(r: Ring<T>, n: nat)
    requires Lawful(r)
    ensures Geometric(r, r.one, n) == FromNat(r, n)
  {
    if n > 0 {
      GeometricOfOne(r, n - 1);
      PowOne(r, n - 1);
    }
  }

  /** n values of the polynomial x, at the powers of w. */
  function Spectrum<T>(r: Ring<T>, x: seq<T>, w: T, n: nat): seq<T> {
    seq(n, k requires 0 <= k < n => Eval(r, x, Pow(r, w, k)))
  }

  /** Adding one coefficient c q^k throughout adds c times a geometric sum. */
  lemma {:induction false} EvalLinear<T(!new)>(r: Ring<T>, s: seq<T>, t: seq<T>, c: T, q: T, u: T)
    requires Lawful(r) && |s| == |t|
    requires forall k :: 0 <= k < |s| ==> t[k] == r.add(s[k], r.mul(c, Pow(r, q, k)))
    ensures Eval(r, t, u) == r.add(Eval(r, s, u), r.mul(c, Geometric(r, r.mul(q, u), |s|)))
    decreases |s|
  {
    if s == [] {
      MulZero(r, c);
      assert AddUnit(r, r.zero);
    } else {
      var n := |s| - 1;
      var s', t' := s[..n], t[..n];
      EvalLinear(r, s', t', c, q, u);
      assert s == s' + [s[n]] && t == t' + [t[n]];
      EvalSnoc(r, s', s[n], u);
      EvalSnoc(r, t', t[n], u);
      var p, g := Pow(r, u, n), Geometric(r, r.mul(q, u), n);
      var cq := r.mul(c, Pow(r, q, n));
      // t[n] p = s[n] p + c (q u)^n
      assert MulComm(r, t[n], p) && Distributes(r, p, s[n], cq);
      assert MulComm(r, p, s[n]) && MulComm(r, p, cq);
      PowMul(r, q, u, n);
      assert MulAssoc(r, c, Pow(r, q, n), p);
      AddShuffle(r, Eval(r, s', u), r.mul(c, g), r.mul(s[n], p), r.mul(c, Pow(r, r.mul(q, u), n)));
      assert Distributes(r, c, g, Pow(r, r.mul(q, u), n));
    }
  }

  /** Powers of inverse elements cancel. */
  lemma {:induction false} CancelPowers<T(!new)>(r: Ring<T>, w: T, b: T, p: nat, m: nat)
    requires Lawful(r) && r.mul(w, b) == r.one
    ensures r.mul(Pow(r, w, p), Pow(r, b, m)) == if p >= m then Pow(r, w, p - m) else Pow(r, b, m - p)
  {
    var l := if p < m then p else m;
    PowMul(r, w, b, l);
    PowOne(r, l);
    if p >= m {
      PowAdd(r, w, p - m, m);
      assert MulAssoc(r, Pow(r, w, p - m), Pow(r, w, m), Pow(r, b, m));
      assert MulUnit(r, Pow(r, w, p - m));
    } else {
      PowAdd(r, b, p, m - p);
      assert MulAssoc(r, Pow(r, w, p), Pow(r, b, p), Pow(r, b, m - p));
      assert MulComm(r, r.one, Pow(r, b, m - p)) && MulUnit(r, Pow(r, b, m - p));
    }
  }

  /** w^p times the m-th power of the inverse root: a geometric sum that is n or zero. */
  lemma {:induction false} Orthogonal<T(!new)>(r: Ring<T>, root: nat -> T, back: nat -> T, n: nat, p: nat, m: nat)
    requires Lawful(r) && PowerOfTwo(n) && Principal(r, root, n) && Principal(r, back, n)
    requires r.mul(root(n), back(n)) == r.one && p < n && m < n
    ensures Geometric(r, r.mul(Pow(r, root(n), p), Pow(r, back(n), m)), n)
         == if p == m then FromNat(r, n) else r.zero
  {
    CancelPowers(r, root(n), back(n), p, m);
    if p == m {
      GeometricOfOne(r, n);
    } else if p > m {
      RootsCancel(r, root, n, p - m);
    } else {
      RootsCancel(r, back, n, m - p);
    }
  }

  /** Transforming forth and back multiplies every element by n. */
  lemma {:induction false} ThereAndBack<T(!new)>(r: Ring<T>, root: nat -> T, back: nat -> T, n: nat, x: seq<T>, m: nat)
    requires Lawful(r) && PowerOfTwo(n) && Principal(r, root, n) && Principal(r, back, n)
    requires r.mul(root(n), back(n)) == r.one && |x| <= n && m < n
    ensures Eval(r, Spectrum(r, x, root(n), n), Pow(r, back(n), m))
         == if m < |x| then r.mul(x[m], FromNat(r, n)) else r.zero
    decreases |x|
  {
    var w, u := root(n), Pow(r, back(n), m);
    var t := Spectrum(r, x, w, n);
    if x == [] {
      ZeroEval(r, t, u);
    } else {
      var p := |x| - 1;
      var y, c := x[..p], x[p];
      var s := Spectrum(r, y, w, n);
      ThereAndBack(r, root, back, n, y, m);
      forall k | 0 <= k < n ensures t[k] == r.add(s[k], r.mul(c, Pow(r, Pow(r, w, p), k))) {
        assert x == y + [c];
        EvalSnoc(r, y, c, Pow(r, w, k));
        PowPow(r, w, k, p);
        PowPow(r, w, p, k);
        assert k * p == p * k;
      }
      EvalLinear(r, s, t, c, Pow(r, w, p), u);
      Orthogonal(r, root, back, n, p, m);
      AddedTerm(r, x, Eval(r, s, u), n, m);
    }
  }

  lemma {:induction false} AddedTerm<T(!new)>(r: Ring<T>, x: seq<T>, sofar: T, n: nat, m: nat)
    requires Lawful(r) && x != []
    requires sofar == if m < |x| - 1 then r.mul(x[m], FromNat(r, n)) else r.zero
    ensures r.add(sofar, r.mul(x[|x| - 1], if |x| - 1 == m then FromNat(r, n) else r.zero))
         == if m < |x| then r.mul(x[m], FromNat(r, n)) else r.zero
  {
    MulZero(r, x[|x| - 1]);
    var last := r.mul(x[|x| - 1], FromNat(r, n));
    assert AddUnit(r, sofar) && AddComm(r, r.zero, last) && AddUnit(r, last);
  }

  lemma {:induction false} ZeroEval<T(!new)>(r: Ring<T>, t: seq<T>, u: T)
    requires Lawful(r) && forall k :: 0 <= k < |t| ==> t[k] == r.zero
    ensures Eval(r, t, u) == r.zero
    decreases |t|
  {
    if t != [] {
      ZeroEval(r, t[1..], u);
      MulZero(r, u);
      assert AddUnit(r, r.zero);
    }
  }

  /** The inverse transform, with its division by n, gives back every input. */
  lemma {:induction false} InverseUndoes<T(!new)>(r: Ring<T>, root: nat -> T, back: nat -> T, x: seq<T>, perN: T)
    requires Lawful(r) && PowerOfTwo(|x|) && Principal(r, root, |x|) && Principal(r, back, |x|)
    requires r.mul(root(|x|), back(|x|)) == r.one
    requires r.mul(FromNat(r, |x|), perN) == r.one
    ensures Scaled(r, perN, Fast(r, back, Fast(r, root, x))) == x
  {
    var n := |x|;
    var y := Fast(r, root, x);
    forall k | 0 <= k < n ensures y[k] == Spectrum(r, x, root(n), n)[k] {
      FastIsEval(r, root, x, k);
    }
    assert y == Spectrum(r, x, root(n), n);
    var z := Fast(r, back, y);
    forall m | 0 <= m < n ensures r.mul(z[m], perN) == x[m] {
      FastIsEval(r, back, y, m);
      ThereAndBack(r, root, back, n, x, m);
      assert MulAssoc(r, x[m], FromNat(r, n), perN) && MulUnit(r, x[m]);
    }
  }
}

/**
 The hypotheses of the inverse are met by the exact complex numbers: they are a
 lawful ring, 1/n is the inverse of n, and principal roots exist.
 */
module ComplexFft {
  import opened Algebra
  import opened Complex
  import opened Fft

  lemma {:induction false} FromNatIs(n: nat)
    ensures FromNat(FIELD, n) == Cx(n as real, 0.0)
  {
    if n > 0 {
      FromNatIs(n - 1);
      AddIs(FromNat(FIELD, n - 1), FIELD.one);
    }
  }

  lemma {:induction false} AddIs(x: Cx, y: Cx)
    ensures FIELD.add(x, y) == Add(x, y)
  {
  }

  /** Division by n has an exact inverse, as InverseUndoes asks. */
  lemma {:induction false} DivisionByN(n: nat)
    requires n > 0
    ensures FIELD.mul(FromNat(FIELD, n), Cx(1.0 / n as real, 0.0)) == FIELD.one
  {
    FromNatIs(n);
    assert n as real * (1.0 / n as real) == 1.0;
  }

  /** Such roots exist: a quarter turn either way is principal of order 4. */
  lemma {:induction false} QuarterTurns(root: nat -> Cx)
    requires root(1) == Cx(1.0, 0.0) && root(2) == Cx(-1.0, 0.0)
    requires root(4) == Cx(0.0, -1.0) || root(4) == Cx(0.0, 1.0)
    ensures Principal(FIELD, root, 4)
  {
    assert Principal(FIELD, root, 1);
    assert Principal(FIELD, root, 2);
  }
}
