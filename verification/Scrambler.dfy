/**
 The self-synchronising scrambler 1 + x^-14 + x^-17 of section 5 of ITU-T
 V.22bis with its 64-ones rule, and the descrambler that undoes it.
 A 32-bit shift register is the sequence of its bits, bit 0 first.
 */
module Scrambler {
  import opened Bits

  type Word = w: seq<Bit> | |w| == 32 witness Zeros(32)

  /** `scramble_reg` and `scrambler_pattern_count` of one direction. */
  datatype Lfsr = Lfsr(reg: Word, ones: nat)

  const RESET := Lfsr(Zeros(32), 0)

  /** `(reg >> 13) ^ (reg >> 16)`, lowest bit. */
  function Taps(reg: Word): Bit {
    Xor(reg[13], reg[16])
  }

  /** `(reg << 1) | b` in 32 bits. */
  function Shift(reg: Word, b: Bit): Word {
    [b] + reg[..31]
  }

  /** What a line bit does to the register and the count of ones. */
  function Record(s: Lfsr, line: Bit): Lfsr {
    var ones := if s.ones >= 64 then 0 else s.ones;
    Lfsr(Shift(s.reg, line), if line == 1 then ones + 1 else 0)
  }

  /** The line bit for a data bit; the 64-ones rule complements the data bit. */
  function LineBit(s: Lfsr, bit: Bit): Bit {
    Xor(if s.ones >= 64 then 1 - bit else bit, Taps(s.reg))
  }

  /** The data bit for a line bit; the 64-ones rule complements the result. */
  function DataBit(s: Lfsr, line: Bit): Bit {
    var plain := Xor(line, Taps(s.reg));
    if s.ones >= 64 then 1 - plain else plain
  }

  /** Line bits sent for a whole input. */
  function Scramble(s: Lfsr, input: seq<Bit>): seq<Bit>
    decreases |input|
  {
    if input == [] then []
    else
      var line := LineBit(s, input[0]);
      [line] + Scramble(Record(s, line), input[1..])
  }

  /** Data bits recovered from line bits. */
  function Descramble(s: Lfsr, line: seq<Bit>): seq<Bit>
    decreases |line|
  {
    if line == [] then [] else [DataBit(s, line[0])] + Descramble(Record(s, line[0]), line[1..])
  }

  /** State after a run of line bits; the same on both sides of the line. */
  function After(s: Lfsr, line: seq<Bit>): Lfsr
    decreases |line|
  {
    if line == [] then s else After(Record(s, line[0]), line[1..])
  }

  /** Both ends hold the same last 17 line bits and the same count of ones. */
  predicate InLock(t: Lfsr, r: Lfsr) {
    t.reg[..17] == r.reg[..17] && t.ones == r.ones
  }

  // ------------------------------------------------------------- lock is kept

  lemma {:induction false} LockedStep(t: Lfsr, r: Lfsr, bit: Bit)
    requires InLock(t, r)
    ensures DataBit(r, LineBit(t, bit)) == bit
    ensures InLock(Record(t, LineBit(t, bit)), Record(r, LineBit(t, bit)))
  {
    SameShift(t.reg, r.reg, 16, LineBit(t, bit));
    assert t.reg[13] == t.reg[..17][13] && r.reg[13] == r.reg[..17][13];
    assert t.reg[16] == t.reg[..17][16] && r.reg[16] == r.reg[..17][16];
  }

  /** Registers with k common low bits have k + 1 after the same line bit. */
  lemma {:induction false} SameShift(a: Word, b: Word, k: nat, line: Bit)
    requires k < 32 && a[..k] == b[..k]
    ensures Shift(a, line)[..k + 1] == Shift(b, line)[..k + 1]
  {
    assert Shift(a, line)[..k + 1] == [line] + a[..k];
    assert Shift(b, line)[..k + 1] == [line] + b[..k];
  }

  /** From lock on every transmitter input comes back exactly, and lock is kept. */
  lemma {:induction false} RoundTrip(t: Lfsr, r: Lfsr, input: seq<Bit>)
    requires InLock(t, r)
    ensures Descramble(r, Scramble(t, input)) == input
    ensures InLock(After(t, Scramble(t, input)), After(r, Scramble(t, input)))
    decreases |input|
  {
    if input != [] {
      var line := LineBit(t, input[0]);
      LockedStep(t, r, input[0]);
      RoundTrip(Record(t, line), Record(r, line), input[1..]);
    }
  }

  // ---------------------------------------------------------- lock is reached

  /** Whatever the two registers were, n common line bits make n low bits common. */
  lemma {:induction false} RegistersAgree(t: Lfsr, r: Lfsr, line: seq<Bit>, k: nat)
    requires k <= 17 && t.reg[..k] == r.reg[..k]
    requires k + |line| >= 17
    ensures After(t, line).reg[..17] == After(r, line).reg[..17]
    decreases |line|
  {
    if line != [] {
      SameShift(t.reg, r.reg, if k == 17 then 16 else k, line[0]);
      RegistersAgree(Record(t, line[0]), Record(r, line[0]), line[1..], if k == 17 then 17 else k + 1);
    }
  }

  /** A common zero makes the two counts of ones equal, and they stay equal. */
  lemma {:induction false} CountsAgree(t: Lfsr, r: Lfsr, line: seq<Bit>)
    requires t.ones == r.ones || 0 in line
    ensures After(t, line).ones == After(r, line).ones
    decreases |line|
  {
    if line != [] {
      CountsAgree(Record(t, line[0]), Record(r, line[0]), line[1..]);
    }
  }

  /**
   Burst recovery: after any errors, from any receiver state, 17 or more correct
   line bits with a zero among them put the receiver in lock, and everything
   sent afterwards is returned exactly.
   */
  lemma {:induction false} BurstRecovery(t: Lfsr, r: Lfsr, input: seq<Bit>, later: seq<Bit>)
    requires |input| >= 17 && 0 in Scramble(t, input)
    ensures var line := Scramble(t, input);
            && InLock(After(t, line), After(r, line))
            && Descramble(After(r, line), Scramble(After(t, line), later)) == later
  {
    var line := Scramble(t, input);
    ScrambleLength(t, input);
    RegistersAgree(t, r, line, 0);
    CountsAgree(t, r, line);
    RoundTrip(After(t, line), After(r, line), later);
  }

  lemma {:induction false} ScrambleLength(t: Lfsr, input: seq<Bit>)
    ensures |Scramble(t, input)| == |input|
    decreases |input|
  {
    if input != [] {
      ScrambleLength(Record(t, LineBit(t, input[0])), input[1..]);
    }
  }

  lemma {:induction false} ScrambleAppend(s: Lfsr, a: seq<Bit>, b: seq<Bit>)
    ensures Scramble(s, a + b) == Scramble(s, a) + Scramble(After(s, Scramble(s, a)), b)
    decreases |a|
  {
    if a == [] {
      assert a + b == b;
    } else {
      assert (a + b)[1..] == a[1..] + b;
      ScrambleAppend(Record(s, LineBit(s, a[0])), a[1..], b);
    }
  }

  lemma {:induction false} AfterAppend(s: Lfsr, x: seq<Bit>, y: seq<Bit>)
    ensures After(s, x + y) == After(After(s, x), y)
    decreases |x|
  {
    if x == [] {
      assert x + y == y;
    } else {
      assert (x + y)[1..] == x[1..] + y;
      AfterAppend(Record(s, x[0]), x[1..], y);
    }
  }

  lemma {:induction false} ScrambleSnoc(s: Lfsr, xs: seq<Bit>, b: Bit)
    ensures Scramble(s, xs + [b]) == Scramble(s, xs) + [LineBit(After(s, Scramble(s, xs)), b)]
  {
    var t := After(s, Scramble(s, xs));
    assert [b][1..] == [] && Scramble(Record(t, LineBit(t, b)), []) == [];
    ScrambleAppend(s, xs, [b]);
  }

  lemma {:induction false} AfterSnoc(s: Lfsr, line: seq<Bit>, b: Bit)
    ensures After(s, line + [b]) == Record(After(s, line), b)
  {
    var t := After(s, line);
    assert [b][1..] == [] && After(Record(t, b), []) == Record(t, b);
    AfterAppend(s, line, [b]);
  }

  // ------------------------------------------------------- the 64-ones rule

  /** The low k register bits (17 at most are ever looked at) are all ones. */
  predicate LowOnes(reg: Word, k: nat) {
    forall j :: 0 <= j < k && j < 17 ==> reg[j] == 1
  }

  /** Holds from reset on: the count never exceeds 64 and those bits were ones. */
  predicate Counted(s: Lfsr) {
    s.ones <= 64 && LowOnes(s.reg, s.ones)
  }

  lemma {:induction false} CountedAlways(s: Lfsr, line: seq<Bit>)
    requires Counted(s)
    ensures Counted(After(s, line))
    decreases |line|
  {
    if line != [] {
      CountedAlways(Record(s, line[0]), line[1..]);
    }
  }

  /**
   After 64 counted ones the next line bit is the complement of the input: the
   run ends if and only if the input bit is a one.
   */
  lemma {:induction false} ComplementAfter64(s: Lfsr, bit: Bit)
    requires Counted(s) && s.ones == 64
    ensures LineBit(s, bit) == 1 - bit
  {
    assert s.reg[13] == 1 && s.reg[16] == 1;
  }

  /** Input that keeps ones on the line, up to 64 counted ones. */
  lemma {:induction false} DriveOnes(s: Lfsr, n: nat) returns (input: seq<Bit>)
    requires s.ones + n <= 64
    ensures After(s, Scramble(s, input)).ones == s.ones + n
    decreases n
  {
    if n == 0 {
      input := [];
    } else {
      var bit: Bit := Xor(1, Taps(s.reg));
      assert LineBit(s, bit) == 1;
      var rest := DriveOnes(Record(s, 1), n - 1);
      input := [bit] + rest;
      assert input[1..] == rest;
    }
  }

  /**
   So the bound of 64 is a bound for constant ones only. There is an input that, from
   reset, leaves 64 ones counted, and then a zero puts a 65th one on the line.
   */
  lemma {:induction false} RunLongerThan64()
    ensures exists input :: var s := After(RESET, Scramble(RESET, input)); s.ones == 64 && LineBit(s, 0) == 1
  {
    var input := DriveOnes(RESET, 64);
    CountedAlways(RESET, Scramble(RESET, input));
    ComplementAfter64(After(RESET, Scramble(RESET, input)), 0);
  }

  /** The count when the i-th bit of an input comes in. */
  function CountAt(input: seq<Bit>, i: nat): nat
    requires i <= |input|
  {
    After(RESET, Scramble(RESET, input[..i])).ones
  }

  predicate OnesAt(line: seq<Bit>, i: int) {
    0 <= i <= |line| - 65 && forall j :: i <= j < i + 65 ==> line[j] == 1
  }

  /** Sixty-five ones in a row. */
  ghost predicate LongRun(line: seq<Bit>) {
    exists i :: OnesAt(line, i)
  }

  /** The counted ones are the last bits of the line. */
  predicate Trailing(line: seq<Bit>, c: nat) {
    c <= |line| && forall j :: |line| - c <= j < |line| ==> line[j] == 1
  }

  lemma {:induction false} CountTrails(input: seq<Bit>)
    ensures Counted(After(RESET, Scramble(RESET, input)))
    ensures Trailing(Scramble(RESET, input), CountAt(input, |input|))
  {
    assert input[..|input|] == input;
    CountedAlways(RESET, Scramble(RESET, input));
    if input != [] {
      var n := |input| - 1;
      CountTrails(input[..n]);
      LastBit(input);
    }
  }

  /** What the last input bit does to line and count. */
  lemma {:induction false} LastBit(input: seq<Bit>)
    requires input != []
    ensures var n := |input| - 1;
            var s := After(RESET, Scramble(RESET, input[..n]));
            var x := LineBit(s, input[n]);
            && Scramble(RESET, input) == Scramble(RESET, input[..n]) + [x]
            && After(RESET, Scramble(RESET, input)) == Record(s, x)
            && CountAt(input, n) == s.ones == CountAt(input[..n], n) && CountAt(input, n + 1) == Record(s, x).ones
  {
    var n := |input| - 1;
    assert input == input[..n] + [input[n]] && input[..n][..n] == input[..n] && input[..n + 1] == input;
    ScrambleSnoc(RESET, input[..n], input[n]);
    AfterSnoc(RESET, Scramble(RESET, input[..n]), LineBit(After(RESET, Scramble(RESET, input[..n])), input[n]));
  }

  /** The input is a one whenever the count stands at 64. */
  predicate Obliges(input: seq<Bit>) {
    forall i :: 0 <= i < |input| && CountAt(input, i) == 64 ==> input[i] == 1
  }

  lemma {:induction false} ObligesPrefix(input: seq<Bit>)
    requires input != [] && Obliges(input)
    ensures Obliges(input[..|input| - 1])
  {
    var n := |input| - 1;
    assert forall i :: 0 <= i < n ==> input[..n][..i] == input[..i];
    assert forall i :: 0 <= i < n ==> CountAt(input[..n], i) == CountAt(input, i);
  }

  /** No run has got long, and a zero stands before the counted ones. */
  ghost predicate ShortRuns(line: seq<Bit>, c: nat) {
    !LongRun(line) && c <= 64 && c <= |line| && (c < |line| ==> line[|line| - 1 - c] == 0)
  }

  lemma {:induction false} ObligingRuns(input: seq<Bit>)
    requires Obliges(input)
    ensures ShortRuns(Scramble(RESET, input), CountAt(input, |input|))
  {
    if input == [] {
      assert input[..0] == [];
    } else {
      var n := |input| - 1;
      ObligesPrefix(input);
      ObligingRuns(input[..n]);
      LastBit(input);
      CountTrails(input[..n]);
      OneMoreBit(Scramble(RESET, input[..n]), After(RESET, Scramble(RESET, input[..n])), input[n]);
    }
  }

  lemma {:induction false} OneMoreBit(line: seq<Bit>, s: Lfsr, bit: Bit)
    requires Counted(s) && ShortRuns(line, s.ones) && (s.ones == 64 ==> bit == 1)
    ensures var x := LineBit(s, bit); ShortRuns(line + [x], Record(s, x).ones)
  {
    var x := LineBit(s, bit);
    if s.ones == 64 { ComplementAfter64(s, bit); }
    RunGrows(line, x, s.ones);
    if x == 1 && s.ones < |line| { assert (line + [x])[|line| - 1 - s.ones] == 0; }
  }

  lemma {:induction false} RunGrows(line: seq<Bit>, x: Bit, c: nat)
    requires ShortRuns(line, c) && (c == 64 ==> x == 0)
    ensures !LongRun(line + [x])
  {
    forall i ensures !OnesAt(line + [x], i) { WindowBroken(line, x, c, i); }
  }

  /** A window of 65 that the new bit completes holds that bit or the zero before the count. */
  lemma {:induction false} WindowBroken(line: seq<Bit>, x: Bit, c: nat, i: int)
    requires ShortRuns(line, c) && (c == 64 ==> x == 0)
    ensures !OnesAt(line + [x], i)
  {
    var all := line + [x];
    assert all[|line|] == x && (c < |line| ==> all[|line| - 1 - c] == 0);
    assert forall j :: 0 <= j < |line| ==> line[j] == all[j];
    assert !OnesAt(line, i);
  }

  /**
   Over every input from reset: 65 ones in a row never stand on the line if and only if
   the input is a one whenever 64 ones have been counted.
   */
  lemma {:induction false} NoLongRunExactly(input: seq<Bit>)
    ensures !LongRun(Scramble(RESET, input)) <==> Obliges(input)
  {
    if Obliges(input) {
      ObligingRuns(input);
    } else {
      var i :| 0 <= i < |input| && CountAt(input, i) == 64 && input[i] == 0;
      assert input[..i + 1][..i] == input[..i];
      ZeroAt64(input[..i + 1]);
      ScrambleAppend(RESET, input[..i + 1], input[i + 1..]);
      assert input[..i + 1] + input[i + 1..] == input;
      LongerLine(Scramble(RESET, input[..i + 1]), Scramble(RESET, input));
    }
  }

  lemma {:induction false} ZeroAt64(input: seq<Bit>)
    requires input != [] && CountAt(input, |input| - 1) == 64 && input[|input| - 1] == 0
    ensures LongRun(Scramble(RESET, input))
  {
    var n := |input| - 1;
    LastBit(input);
    CountTrails(input[..n]);
    ComplementAfter64(After(RESET, Scramble(RESET, input[..n])), 0);
    var line := Scramble(RESET, input);
    assert OnesAt(line, |line| - 65);
  }

  lemma {:induction false} LongerLine(a: seq<Bit>, b: seq<Bit>)
    requires a <= b && LongRun(a)
    ensures LongRun(b)
  {
    var i :| OnesAt(a, i);
    assert OnesAt(b, i);
  }

  /** The position of the first zero on the line under constant ones. */
  lemma {:induction false} ZeroWithin65(s: Lfsr)
    requires Counted(s)
    ensures 0 in Scramble(s, Ones(65 - s.ones))
    decreases 64 - s.ones
  {
    var input := Ones(65 - s.ones);
    var line := LineBit(s, 1);
    assert Scramble(s, input)[0] == line;
    if s.ones == 64 {
      ComplementAfter64(s, 1);
    } else if line == 1 {
      assert input[1..] == Ones(64 - s.ones);
      ZeroWithin65(Record(s, 1));
      assert Scramble(s, input)[1..] == Scramble(Record(s, 1), input[1..]);
    }
  }

  // -------------------------------------- constant ones from reset: 17 bits do

  /** Not the all-ones state in which constant ones would repeat themselves. */
  predicate Free(s: Lfsr) {
    !LowOnes(s.reg, 17) && Counted(s)
  }

  lemma {:induction false} FreeStep(s: Lfsr)
    requires Free(s)
    ensures s.ones < 17 && Free(Record(s, LineBit(s, 1)))
  {
    var n := Record(s, LineBit(s, 1)).reg;
    var j :| 0 <= j < 17 && s.reg[j] == 0;
    if j < 16 {
      assert n[j + 1] == 0;
    } else if s.reg[13] == 0 {
      assert n[14] == 0;
    } else {
      assert n[0] == 0;
    }
  }

  lemma {:induction false} FreeAlways(s: Lfsr, n: nat)
    requires Free(s)
    ensures Free(After(s, Scramble(s, Ones(n))))
    decreases n
  {
    if n > 0 {
      FreeStep(s);
      assert Ones(n)[1..] == Ones(n - 1);
      FreeAlways(Record(s, LineBit(s, 1)), n - 1);
    }
  }

  /** From reset constant ones never put more than 16 ones in a row on the line. */
  lemma {:induction false} RunsFromReset(n: nat)
    ensures Free(After(RESET, Scramble(RESET, Ones(n))))
    ensures After(RESET, Scramble(RESET, Ones(n))).ones <= 16
  {
    assert !LowOnes(RESET.reg, 17) by { assert RESET.reg[0] == 0; }
    FreeAlways(RESET, n);
    FreeStep(After(RESET, Scramble(RESET, Ones(n))));
  }

  /** k ones in a row on the line are k ones in the register. */
  lemma {:induction false} OnesFillRegister(s: Lfsr, line: seq<Bit>, k: nat)
    requires LowOnes(s.reg, k) && 0 !in line
    ensures LowOnes(After(s, line).reg, k + |line|)
    decreases |line|
  {
    if line != [] {
      assert line[0] == 1;
      OnesFillRegister(Record(s, 1), line[1..], k + 1);
    }
  }

  lemma {:induction false} FreeZero(s: Lfsr, n: nat)
    requires Free(s) && n >= 17
    ensures 0 in Scramble(s, Ones(n))
  {
    var line := Scramble(s, Ones(n));
    ScrambleLength(s, Ones(n));
    FreeAlways(s, n);
    if 0 !in line {
      OnesFillRegister(s, line, 0);
    }
  }

  /**
   Acquisition. While the far scrambler runs on constant ones from reset, every
   17 line bits contain a zero, so from any receiver state whatever 17 correct
   line bits give lock, and from then on every transmitter input is returned.
   (The 64 of the standard is met with room to spare.)
   */
  lemma {:induction false} Acquisition(r: Lfsr, before: nat, later: seq<Bit>)
    ensures var t := After(RESET, Scramble(RESET, Ones(before)));
            var line := Scramble(t, Ones(17));
            && InLock(After(t, line), After(r, line))
            && Descramble(After(r, line), Scramble(After(t, line), later)) == later
  {
    RunsFromReset(before);
    var t := After(RESET, Scramble(RESET, Ones(before)));
    FreeZero(t, 17);
    BurstRecovery(t, r, Ones(17), later);
  }

  /**
   The same from any reachable transmitter state, for instance when scrambled
   ones start again after user data: 65 correct line bits always suffice.
   */
  lemma {:induction false} AcquisitionFromAnyState(t: Lfsr, r: Lfsr, later: seq<Bit>)
    requires Counted(t)
    ensures var line := Scramble(t, Ones(65));
            && InLock(After(t, line), After(r, line))
            && Descramble(After(r, line), Scramble(After(t, line), later)) == later
  {
    ZeroWithin65(t);
    ScrambleAppend(t, Ones(65 - t.ones), Ones(t.ones));
    assert Ones(65 - t.ones) + Ones(t.ones) == Ones(65);
    BurstRecovery(t, r, Ones(65), later);
  }

  // ------------------------------------------------ by position on the line

  /** A bit of the line, zeros standing before its start. */
  function At(line: seq<Bit>, k: int): Bit
    requires k < |line|
  {
    if k < 0 then 0 else line[k]
  }

  /** How many ones stand in a row just before position n. */
  function OnesBefore(line: seq<Bit>, n: nat): nat
    requires n <= |line|
  {
    if n == 0 || line[n - 1] == 0 then 0 else 1 + OnesBefore(line, n - 1)
  }

  /** The 64-ones rule acts behind every 64th one of a run. */
  predicate Ruled(line: seq<Bit>, n: nat)
    requires n <= |line|
  {
    OnesBefore(line, n) > 0 && OnesBefore(line, n) % 64 == 0
  }

  /** A counter that starts again behind every 64th. */
  function Wrapped(r: nat): nat {
    if r == 0 then 0 else (r - 1) % 64 + 1
  }

  lemma {:induction false} WrappedNext(r: nat)
    ensures Wrapped(r + 1) == (if Wrapped(r) >= 64 then 0 else Wrapped(r)) + 1
    ensures Wrapped(r) >= 64 <==> r > 0 && r % 64 == 0
  {
    if r > 0 {
      assert r % 64 == if (r - 1) % 64 == 63 then 0 else (r - 1) % 64 + 1;
    }
  }

  /** What the register and the counter hold is read off the line. */
  predicate Mirrors(s: Lfsr, line: seq<Bit>) {
    && (forall k :: 0 <= k < 32 ==> s.reg[k] == At(line, |line| - 1 - k))
    && s.ones == Wrapped(OnesBefore(line, |line|))
  }

  lemma {:induction false} OnesBeforeLocal(a: seq<Bit>, b: seq<Bit>, n: nat)
    requires n <= |a| && n <= |b| && a[..n] == b[..n]
    ensures OnesBefore(a, n) == OnesBefore(b, n)
  {
    if n > 0 {
      assert a[n - 1] == a[..n][n - 1] == b[..n][n - 1] == b[n - 1];
      assert a[..n - 1] == a[..n][..n - 1] && b[..n - 1] == b[..n][..n - 1];
      OnesBeforeLocal(a, b, n - 1);
    }
  }

  lemma {:induction false} MirrorsNext(s: Lfsr, line: seq<Bit>, x: Bit)
    requires Mirrors(s, line)
    ensures Mirrors(Record(s, x), line + [x])
  {
    var all, s' := line + [x], Record(s, x);
    forall k | 0 <= k < 32 ensures s'.reg[k] == At(all, |all| - 1 - k) {
      if k > 0 { assert s'.reg[k] == s.reg[k - 1] == At(line, |line| - k); }
    }
    assert all[..|line|] == line[..|line|];
    OnesBeforeLocal(all, line, |line|);
    WrappedNext(OnesBefore(line, |line|));
  }

  lemma {:induction false} LineMirrored(line: seq<Bit>)
    ensures Mirrors(After(RESET, line), line)
    decreases |line|
  {
    if line == [] {
      assert forall k :: 0 <= k < 32 ==> RESET.reg[k] == 0;
    } else {
      var n := |line| - 1;
      LineMirrored(line[..n]);
      MirrorsNext(After(RESET, line[..n]), line[..n], line[n]);
      AfterSnoc(RESET, line[..n], line[n]);
      assert line == line[..n] + [line[n]];
    }
  }

  /** A line bit or data bit by the polynomial 1 + x^-14 + x^-17 and the 64-ones rule. */
  function ByRule(bit: Bit, line: seq<Bit>, n: nat): Bit
    requires n <= |line|
  {
    var sum := Xor(bit, Xor(At(line, n - 14), At(line, n - 17)));
    if Ruled(line, n) then 1 - sum else sum
  }

  lemma {:induction false} ByRuleLocal(bit: Bit, a: seq<Bit>, b: seq<Bit>, n: nat)
    requires n <= |a| && n <= |b| && a[..n] == b[..n]
    ensures ByRule(bit, a, n) == ByRule(bit, b, n)
  {
    OnesBeforeLocal(a, b, n);
    assert forall k :: 0 <= k < n ==> a[k] == a[..n][k] == b[..n][k] == b[k];
  }

  lemma {:induction false} RuleIs(line: seq<Bit>, bit: Bit)
    ensures LineBit(After(RESET, line), bit) == ByRule(bit, line, |line|) == DataBit(After(RESET, line), bit)
  {
    LineMirrored(line);
    WrappedNext(OnesBefore(line, |line|));
    var s := After(RESET, line);
    assert s.reg[13] == At(line, |line| - 14) && s.reg[16] == At(line, |line| - 17);
  }

  /**
   Every bit on the line is the data bit plus the line bits 14 and 17 places before it,
   complemented behind every 64th one of a run.
   */
  lemma {:induction false} LineRecurrence(input: seq<Bit>, n: nat)
    requires n < |input|
    ensures var line := Scramble(RESET, input);
            |line| == |input| && line[n] == ByRule(input[n], line, n)
  {
    ScrambleLength(RESET, input);
    var head, tail := input[..n + 1], input[n + 1..];
    assert head + tail == input && head == input[..n] + [input[n]];
    ScrambleAppend(RESET, head, tail);
    ScrambleSnoc(RESET, input[..n], input[n]);
    var before, line := Scramble(RESET, input[..n]), Scramble(RESET, input);
    ScrambleLength(RESET, input[..n]);
    RuleIs(before, input[n]);
    assert line[..n] == before == before[..n];
    ByRuleLocal(input[n], line, before, n);
  }

  lemma {:induction false} DescrambleAt(s: Lfsr, line: seq<Bit>, n: nat)
    requires n < |line|
    ensures |Descramble(s, line)| == |line|
    ensures Descramble(s, line)[n] == DataBit(After(s, line[..n]), line[n])
    decreases |line|
  {
    if n == 0 {
      assert line[..0] == [];
      DescrambleLength(s, line);
    } else {
      DescrambleAt(Record(s, line[0]), line[1..], n - 1);
      assert line[..n][1..] == line[1..][..n - 1];
    }
  }

  lemma {:induction false} DescrambleLength(s: Lfsr, line: seq<Bit>)
    ensures |Descramble(s, line)| == |line|
    decreases |line|
  {
    if line != [] { DescrambleLength(Record(s, line[0]), line[1..]); }
  }

  /** And every data bit recovered is the same sum over the line received. */
  lemma {:induction false} DataRecurrence(line: seq<Bit>, n: nat)
    requires n < |line|
    ensures |Descramble(RESET, line)| == |line|
    ensures Descramble(RESET, line)[n] == ByRule(line[n], line, n)
  {
    DescrambleAt(RESET, line, n);
    RuleIs(line[..n], line[n]);
    assert line[..n][..n] == line[..n];
    ByRuleLocal(line[n], line[..n], line, n);
  }
}
