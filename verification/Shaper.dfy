/**
 The transmit pulse shaper: 40 polyphase coefficient sets of 9 taps, a circular buffer
 of the last 9 symbols, and 3 fortieths of a symbol per sample
 (src/modem/v22bis/v22bis_tx.c). It is proved to be one direct convolution of the
 symbol stream with the prototype filter the coefficient sets were cut from.
 */
module Shaper {
  import opened Bits

  const PHASES := 40
  const PHASE_STEP := 3
  const TAPS := 9

  /** Prototype coefficients and symbols, one component of the complex baseband. */
  type Signal = seq<real>

  // ------------------------------------------------------- specification

  /** The prototype, zero outside the 360 coefficients the table holds. */
  function Prototype(h: Signal, x: int): real
    requires |h| >= PHASES * TAPS
  {
    if 0 <= x < PHASES * TAPS then h[x] else 0.0
  }

  /** Symbols fetched after n samples. */
  function Fetched(n: nat): nat {
    PHASE_STEP * n / PHASES
  }

  /** Sum over the first `upto` symbols of s_m h[399 + 40 m - 3 n]. */
  function Direct(h: Signal, s: Signal, n: nat, upto: nat): real
    requires |h| >= PHASES * TAPS && upto <= |s|
  {
    if upto == 0 then 0.0
    else Direct(h, s, n, upto - 1) + s[upto - 1] * Prototype(h, 399 + 40 * (upto - 1) - 3 * n)
  }

  /** Symbols from far enough away contribute nothing, so more symbols change nothing. */
  lemma {:induction false} LaterSymbolsVanish(h: Signal, s: Signal, n: nat, upto: nat)
    requires |h| >= PHASES * TAPS && Fetched(n) <= upto <= |s|
    ensures Direct(h, s, n, upto) == Direct(h, s, n, Fetched(n))
  {
    if upto > Fetched(n) {
      LaterSymbolsVanish(h, s, n, upto - 1);
    }
  }

  lemma {:induction false} EarlierSymbolsVanish(h: Signal, s: Signal, n: nat, upto: nat)
    requires |h| >= PHASES * TAPS && upto <= |s| && upto + TAPS <= Fetched(n)
    ensures Direct(h, s, n, upto) == 0.0
  {
    if upto > 0 {
      EarlierSymbolsVanish(h, s, n, upto - 1);
    }
  }

  // ------------------------------------------------------------- the table

  /** emit_tx: set j, tap i is prototype coefficient 40 i + j. */
  function Table(h: Signal): (t: seq<Signal>)
    requires |h| >= PHASES * TAPS
    ensures |t| == PHASES && forall j :: 0 <= j < PHASES ==> |t[j]| == TAPS
    ensures forall j, i :: 0 <= j < PHASES && 0 <= i < TAPS ==> t[j][i] == h[PHASES * i + j]
  {
    seq(PHASES, j requires 0 <= j < PHASES =>
      seq(TAPS, i requires 0 <= i < TAPS => h[PHASES * i + j]))
  }

  method EmitTable(h: Signal) returns (t: seq<Signal>)
    requires |h| == PHASES * TAPS + 1
    ensures t == Table(h)
  {
    t := [];
    for j := 0 to PHASES
      invariant |t| == j && forall k :: 0 <= k < j ==> t[k] == Table(h)[k]
    {
      var row: Signal := [];
      for i := 0 to TAPS
        invariant |row| == i && forall k :: 0 <= k < i ==> row[k] == h[PHASES * k + j]
      {
        row := row + [h[PHASES * i + j]];
      }
      t := t + [row];
    }
  }

  // --------------------------------------------------------------- the loop

  /** Dot product of the nine last symbols, oldest first, with a coefficient set. */
  function Dot(window: Signal, coeffs: Signal, n: nat): real
    requires n <= |window| && n <= |coeffs|
  {
    if n == 0 then 0.0 else Dot(window, coeffs, n - 1) + window[n - 1] * coeffs[n - 1]
  }

  /** The last nine of the symbols, with silence before the first. */
  function Window(s: Signal, fetched: nat): (w: Signal)
    requires fetched <= |s|
    ensures |w| == TAPS
  {
    seq(TAPS, i requires 0 <= i < TAPS =>
      var m := fetched - TAPS + i; if 0 <= m then s[m] else 0.0)
  }

  /** The polyphase sum of a window is the direct sum. */
  lemma {:induction false} WindowSum(h: Signal, s: Signal, n: nat, taps: nat)
    requires |h| >= PHASES * TAPS && Fetched(n) <= |s| && taps <= TAPS
    ensures var f := Fetched(n);
            var phase := 3 * n - 40 * f;
            && 0 <= phase < PHASES
            && Dot(Window(s, f), Table(h)[PHASES - 1 - phase], taps)
               == if f - TAPS + taps >= 0 then Direct(h, s, n, f - TAPS + taps) else 0.0
  {
    var f := Fetched(n);
    if taps == 0 {
      if f >= TAPS { EarlierSymbolsVanish(h, s, n, f - TAPS); }
    } else {
      WindowSum(h, s, n, taps - 1);
    }
  }

  /** `v22bis_tx`'s baseband part for one component. */
  class PulseShaper {
    var rrc: array<real>
    var step: nat
    var baudPhase: nat
    ghost var symbols: Signal     // every symbol fetched so far
    ghost var samples: nat        // every sample produced so far

    /** The circular buffer from the oldest symbol on. */
    ghost function Unrolled(): Signal
      requires step <= rrc.Length
      reads this, rrc
    {
      rrc[step..] + rrc[..step]
    }

    ghost predicate Valid()
      reads this, rrc
    {
      && rrc.Length == TAPS && step < TAPS
      && |symbols| == Fetched(samples)
      && baudPhase == PHASE_STEP * samples - PHASES * |symbols|
      && Unrolled() == Window(symbols, |symbols|)
    }

    constructor ()
      ensures Valid() && fresh(rrc) && symbols == [] && samples == 0
    {
      rrc := new real[TAPS](_ => 0.0);
      step, baudPhase := 0, 0;
      symbols, samples := [], 0;
    }

    /** Puts a symbol over the oldest one. */
    method Store(v: real)
      requires rrc.Length == TAPS && step < TAPS && Unrolled() == Window(symbols, |symbols|)
      modifies this`step, this`symbols, rrc
      ensures step < TAPS && symbols == old(symbols) + [v] && Unrolled() == Window(symbols, |symbols|)
    {
      rrc[step] := v;
      step := step + 1;
      if step >= TAPS {
        step := 0;
      }
      symbols := symbols + [v];
      assert Unrolled() == old(Unrolled())[1..] + [v];
    }

    /** The tap loop over the circular buffer. */
    method Filter(coeffs: Signal) returns (x: real)
      requires rrc.Length == TAPS && step < TAPS && |coeffs| == TAPS
      ensures x == Dot(Unrolled(), coeffs, TAPS)
    {
      x := 0.0;
      var at := step;
      for i := 0 to TAPS
        invariant at == if step + i < TAPS then step + i else step + i - TAPS
        invariant x == Dot(Unrolled(), coeffs, i)
      {
        assert Unrolled()[i] == rrc[at];
        x := x + rrc[at] * coeffs[i];
        at := at + 1;
        if at >= TAPS {
          at := 0;
        }
      }
    }

    /** The phase moves on, and fetches `next` when a symbol has passed. */
    method Advance(next: real) returns (fetched: bool)
      requires Valid()
      modifies this, rrc
      ensures Valid() && rrc == old(rrc) && samples == old(samples) + 1
      ensures fetched == (Fetched(samples) > Fetched(old(samples)))
      ensures symbols == if fetched then old(symbols) + [next] else old(symbols)
    {
      baudPhase := baudPhase + PHASE_STEP;
      fetched := baudPhase >= PHASES;
      if fetched {
        baudPhase := baudPhase - PHASES;
        Store(next);
      }
      samples := samples + 1;
    }

    /** One sample: fetch, then shape. */
    method Sample(ghost h: Signal, table: seq<Signal>, next: real) returns (x: real, fetched: bool)
      requires Valid() && |h| >= PHASES * TAPS && table == Table(h)
      modifies this, rrc
      ensures Valid() && rrc == old(rrc) && samples == old(samples) + 1
      ensures fetched == (Fetched(samples) > Fetched(old(samples)))
      ensures symbols == if fetched then old(symbols) + [next] else old(symbols)
      ensures x == Direct(h, symbols, samples, |symbols|)
    {
      fetched := Advance(next);
      x := Filter(table[PHASES - 1 - baudPhase]);
      WindowSum(h, symbols, samples, TAPS);
    }

    /** The next sample of a run that started with `base` fetched and has used `used` more. */
    method Next(ghost h: Signal, table: seq<Signal>, ghost base: Signal, coming: Signal, used: nat)
      returns (x: real, u: nat)
      requires Valid() && |h| >= PHASES * TAPS && table == Table(h)
      requires used <= |coming| && symbols == base + coming[..used]
      requires Fetched(samples + 1) <= |base| + |coming|
      modifies this, rrc
      ensures Valid() && rrc == old(rrc) && samples == old(samples) + 1
      ensures u <= |coming| && symbols == base + coming[..u]
      ensures x == Direct(h, base + coming, samples, |base + coming|)
    {
      var fetched;
      x, fetched := Sample(h, table, if used < |coming| then coming[used] else 0.0);
      u := used;
      if fetched {
        PrefixSnoc(base, coming, used);
        u := used + 1;
      }
      PrefixOfAll(base, coming, u);
      DirectIgnoresLater(h, symbols, base + coming, samples);
    }

    /**
     `len` samples; `coming` are the symbols getbaud is going to deliver. Sample number
     n of the whole run is the direct sum over all symbols, however the run is cut into
     calls.
     */
    method Produce(ghost h: Signal, table: seq<Signal>, coming: Signal, len: nat) returns (out: Signal, used: nat)
      requires Valid() && |h| >= PHASES * TAPS && table == Table(h)
      requires Fetched(samples + len) <= |symbols| + |coming|
      modifies this, rrc
      ensures Valid() && rrc == old(rrc) && samples == old(samples) + len
      ensures used <= |coming| && symbols == old(symbols) + coming[..used]
      ensures out == DirectSamples(h, old(symbols) + coming, old(samples), len)
    {
      ghost var base := symbols;
      out, used := [], 0;
      for k := 0 to len
        invariant Valid() && rrc == old(rrc) && samples == old(samples) + k
        invariant used <= |coming| && symbols == base + coming[..used]
        invariant out == DirectSamples(h, base + coming, old(samples), k)
      {
        FetchedMonotone(samples + 1, old(samples) + len);
        var x;
        x, used := Next(h, table, base, coming, used);
        out := out + [x];
      }
    }
  }

  lemma {:induction false} PrefixSnoc(a: Signal, b: Signal, n: nat)
    requires n < |b|
    ensures a + b[..n] + [b[n]] == a + b[..n + 1]
  {
  }

  lemma {:induction false} PrefixOfAll(a: Signal, b: Signal, n: nat)
    requires n <= |b|
    ensures a + b[..n] <= a + b
  {
  }

  /** Samples n + 1 to n + len of the direct convolution. */
  function DirectSamples(h: Signal, s: Signal, n: nat, len: nat): (out: Signal)
    requires |h| >= PHASES * TAPS
    ensures |out| == len
  {
    if len == 0 then [] else DirectSamples(h, s, n, len - 1) + [Direct(h, s, n + len, |s|)]
  }

  lemma {:induction false} FetchedMonotone(m: nat, n: nat)
    requires m <= n
    ensures Fetched(m) <= Fetched(n)
  {
  }

  /** Symbols not yet sent do not matter to a sample. */
  lemma {:induction false} DirectIgnoresLater(h: Signal, s: Signal, t: Signal, n: nat)
    requires |h| >= PHASES * TAPS && s <= t && Fetched(n) <= |s|
    ensures Direct(h, s, n, |s|) == Direct(h, t, n, |t|)
  {
    LaterSymbolsVanish(h, s, n, |s|);
    LaterSymbolsVanish(h, t, n, |t|);
    DirectPrefix(h, s, t, n, Fetched(n));
  }

  lemma {:induction false} DirectPrefix(h: Signal, s: Signal, t: Signal, n: nat, upto: nat)
    requires |h| >= PHASES * TAPS && s <= t && upto <= |s|
    ensures Direct(h, s, n, upto) == Direct(h, t, n, upto)
  {
    if upto > 0 { DirectPrefix(h, s, t, n, upto - 1); }
  }
}
