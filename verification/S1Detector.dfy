/**
 The search for S1, the unscrambled double dibit 00 11 that asks for 2400 bit/s:
 a sliding window over the last 32 raw dibits, kept as a 64-bit history.
 */
module S1Detector {
  import opened Bits
  import opened Constellation
  import opened V22bis

  /** The history after more raw dibits, newest first. */
  function Pushed(h: History, ds: seq<Dibit>): History {
    if ds == [] then h
    else
      var n := |ds| - 1;
      [ds[n]] + Pushed(h, ds[..n])[..31]
  }

  /** It always holds the last 32 dibits. */
  lemma {:induction false} HistoryIsLast32(h: History, ds: seq<Dibit>, k: nat)
    requires k < 32
    ensures Pushed(h, ds)[k] == Newest(h, ds, k)
    decreases |ds|
  {
    if ds != [] {
      var before := ds[..|ds| - 1];
      PushedOne(h, ds, before, k);
      if k > 0 {
        HistoryIsLast32(h, before, k - 1);
        NewestOfRest(h, ds, before, k);
      }
    }
  }

  /** The k-th newest dibit: one of ds, or when they run out one of those held before. */
  function Newest(h: History, ds: seq<Dibit>, k: nat): Dibit
    requires k < 32
  {
    if k < |ds| then ds[|ds| - 1 - k] else h[k - |ds|]
  }

  lemma {:induction false} NewestOfRest(h: History, ds: seq<Dibit>, before: seq<Dibit>, k: nat)
    requires ds != [] && before == ds[..|ds| - 1] && 0 < k < 32
    ensures Newest(h, before, k - 1) == Newest(h, ds, k)
  {
  }

  lemma {:induction false} PushedOne(h: History, ds: seq<Dibit>, before: seq<Dibit>, k: nat)
    requires ds != [] && before == ds[..|ds| - 1] && k < 32
    ensures Pushed(h, ds)[k] == if k == 0 then ds[|ds| - 1] else Pushed(h, before)[k - 1]
  {
  }

  /** The alternating pattern, starting with 00 or with 11. */
  function Ideal(phase: nat, k: nat): Dibit {
    if (phase + k) % 2 == 0 then 0 else 3
  }

  /** Positions among the first n at which h departs from the pattern. */
  function Wrong(h: seq<Dibit>, phase: nat, n: nat): nat
    requires n <= |h|
  {
    if n == 0 then 0 else Wrong(h, phase, n - 1) + if h[n - 1] == Ideal(phase, n - 1) then 0 else 1
  }

  /** A wrong dibit spoils at most its two pairs. */
  lemma {:induction false} WrongSpoilsTwo(h: History, phase: nat, n: nat)
    requires n <= 31
    ensures Alternations(h, n) + 2 * Wrong(h, phase, n + 1)
         >= n + if h[n] == Ideal(phase, n) then 0 else 1
  {
    if n > 0 { WrongSpoilsTwo(h, phase, n - 1); }
  }

  /** Reading the window backwards changes only the phase. */
  lemma {:induction false} WrongReversed(h: History, ds: seq<Dibit>, phase: nat, n: nat)
    requires |ds| == 32 && n <= 32 && forall k :: 0 <= k < 32 ==> h[k] == ds[31 - k]
    ensures Wrong(h, phase + 31, n) + Wrong(ds, phase, 32 - n) == Wrong(ds, phase, 32)
  {
    if n > 0 {
      WrongReversed(h, ds, phase, n - 1);
      assert Ideal(phase + 31, n - 1) == Ideal(phase, 32 - n);
    }
  }

  /**
   Any 32 dibits of the pattern with at most 4 of them wrong leave at least 23
   alternations in the history, whatever came before.
   */
  lemma {:induction false} WindowAlternates(h: History, ds: seq<Dibit>, phase: nat)
    requires |ds| == 32 && Wrong(ds, phase, 32) <= 4
    ensures Alternations(Pushed(h, ds), 31) >= 23
  {
    var h' := Pushed(h, ds);
    forall k | 0 <= k < 32 ensures h'[k] == ds[31 - k] {
      HistoryIsLast32(h, ds, k);
    }
    WrongReversed(h', ds, phase, 32);
    WrongSpoilsTwo(h', phase + 31, 31);
  }

  /** Two neighbours that are 00 and 11, or 01 and 10. */
  predicate Opposite(ds: seq<Dibit>, k: int) {
    0 <= k < |ds| - 1 && ds[k] == 3 - ds[k + 1]
  }

  ghost function Pairs(ds: seq<Dibit>, from: int, to: int): set<int> {
    set k | from <= k < to && Opposite(ds, k)
  }

  ghost function SpoiltPairs(ds: seq<Dibit>, from: int, to: int): set<int> {
    set k | from <= k < to && !Opposite(ds, k)
  }

  /** The detector counts just the complementary neighbours. */
  lemma {:induction false} AlternationsCount(h: History, n: nat)
    requires n <= 31
    ensures Alternations(h, n) == |Pairs(h, 0, n)|
  {
    if n == 0 {
      assert Pairs(h, 0, 0) == {};
    } else {
      AlternationsCount(h, n - 1);
      assert Pairs(h, 0, n) == Pairs(h, 0, n - 1) + if Opposite(h, n - 1) then {n - 1} else {};
    }
  }

  /** And so for a window in the order it came. */
  lemma {:induction false} WindowCount(h: History, ds: seq<Dibit>, n: nat)
    requires |ds| == 32 && n <= 31 && forall k :: 0 <= k < 32 ==> h[k] == ds[31 - k]
    ensures Alternations(h, n) == |Pairs(ds, 31 - n, 31)|
  {
    if n == 0 {
      assert Pairs(ds, 31, 31) == {};
    } else {
      WindowCount(h, ds, n - 1);
      var k := 31 - n;
      assert h[n - 1] == ds[k + 1] && h[n] == ds[k];
      assert Pairs(ds, k, 31) == Pairs(ds, k + 1, 31) + if Opposite(ds, k) then {k} else {};
    }
  }

  // ------------------------------------------------- inside the receiver

  function Hear(m: Modem, nears: seq<Index>): Modem {
    if nears == [] then m
    else RxDecision(Hear(m, nears[..|nears| - 1]), nears[|nears| - 1]).modem
  }

  /** Raw dibits of a run of decisions. */
  function RawDibits(last: Index, nears: seq<Index>): (ds: seq<Dibit>)
    ensures |ds| == |nears|
  {
    if nears == [] then []
    else
      var n := |nears| - 1;
      RawDibits(last, nears[..n]) + [RawDibit(if n == 0 then last else nears[n - 1], nears[n])]
  }

  predicate Detects(m: Modem, nears: seq<Index>, i: nat)
    requires i < |nears|
  {
    RxDecision(Hear(m, nears[..i]), nears[i]).s1
  }

  lemma {:induction false} SearchStep(m: Modem, nearest: Index)
    requires Searching(m) && m.rx.count + 1 < Symbols(400) && !RxDecision(m, nearest).s1
    ensures var m', raw := RxDecision(m, nearest).modem, RawDibit(m.rx.state, nearest);
            && Searching(m') && m'.rx.count == m.rx.count + 1
            && m'.rx.history == [raw] + m.rx.history[..31] && m'.rx.histCount == m.rx.histCount + 1
            && m'.rx.last == raw && m'.rx.state == nearest
  {
  }

  /** m' is m after hearing `nears` without detection or time-out. */
  predicate Follows(m: Modem, nears: seq<Index>, m': Modem) {
    var n, ds := |nears|, RawDibits(m.rx.state, nears);
    && Searching(m') && m'.rx.count == m.rx.count + n && m'.rx.histCount == m.rx.histCount + n
    && m'.rx.history == Pushed(m.rx.history, ds)
    && m'.rx.last == (if n == 0 then m.rx.last else ds[n - 1])
    && m'.rx.state == (if n == 0 then m.rx.state else nears[n - 1])
  }

  lemma {:induction false} FollowsOn(m: Modem, nears: seq<Index>, m1: Modem, m2: Modem)
    requires nears != [] && Follows(m, nears[..|nears| - 1], m1)
    requires var raw := RawDibit(m1.rx.state, nears[|nears| - 1]);
            && Searching(m2) && m2.rx.count == m1.rx.count + 1
            && m2.rx.history == [raw] + m1.rx.history[..31] && m2.rx.histCount == m1.rx.histCount + 1
            && m2.rx.last == raw && m2.rx.state == nears[|nears| - 1]
    ensures Follows(m, nears, m2)
  {
    var n, ds := |nears| - 1, RawDibits(m.rx.state, nears);
    assert ds[..n] == RawDibits(m.rx.state, nears[..n]);
  }

  /** Until it detects S1 or times out the receiver's history follows the raw dibits. */
  lemma {:induction false} SearchFollows(m: Modem, nears: seq<Index>)
    requires Searching(m) && m.rx.count + |nears| < Symbols(400)
    requires forall i :: 0 <= i < |nears| ==> !Detects(m, nears, i)
    ensures Follows(m, nears, Hear(m, nears))
  {
    if nears != [] {
      var n := |nears| - 1;
      forall i | 0 <= i < n ensures !Detects(m, nears[..n], i) {
        assert nears[..n][..i] == nears[..i];
        assert !Detects(m, nears, i);
      }
      SearchFollows(m, nears[..n]);
      assert !Detects(m, nears, n);
      var m1 := Hear(m, nears[..n]);
      SearchStep(m1, nears[n]);
      FollowsOn(m, nears, m1, RxDecision(m1, nears[n]).modem);
    }
  }

  /**
   A receiver that still has time for 31 more symbols detects S1 within any 32
   symbols that show the pattern with at most 4 errors and a correct last-but-one.
   */
  lemma {:induction false} DetectsWithin32(m: Modem, nears: seq<Index>, phase: nat)
    requires Searching(m) && |nears| == 32 && m.rx.count + 31 < Symbols(400)
    requires var ds := RawDibits(m.rx.state, nears);
             Wrong(ds, phase, 32) <= 4 && ds[30] == Ideal(phase, 30)
    ensures exists i :: 0 <= i < 32 && Detects(m, nears, i)
  {
    if forall i :: 0 <= i < 31 ==> !Detects(m, nears, i) {
      var ds := RawDibits(m.rx.state, nears);
      forall i | 0 <= i < 31 ensures !Detects(m, nears[..31], i) {
        assert nears[..31][..i] == nears[..i];
        assert !Detects(m, nears, i);
      }
      SearchFollows(m, nears[..31]);
      WindowAlternates(m.rx.history, ds, phase);
      assert ds[..31] == RawDibits(m.rx.state, nears[..31]);
      SearchDetects(Hear(m, nears[..31]), nears[31], [ds[31]] + Hear(m, nears[..31]).rx.history[..31]);
      assert Detects(m, nears, 31);
    }
  }

  lemma {:induction false} SearchDetects(m: Modem, nearest: Index, h: History)
    requires Searching(m) && m.rx.histCount >= 15 && h == [RawDibit(m.rx.state, nearest)] + m.rx.history[..31]
    ensures RxDecision(m, nearest).s1 <==> Alternations(h, 31) >= 23 && Extreme(m.rx.last)
  {
    assert RxDecision(m, nearest) == HearScrambled(m, nearest);
  }

  /** Before 16 dibits have been looked at, no repeats are counted. */
  predicate Fresh(m: Modem) {
    Searching(m) && m.rx.histCount < 16 ==> m.rx.repeats == 0
  }

  lemma {:induction false} HearingStaysFresh(m: Modem, nearest: Index)
    requires Fresh(m)
    ensures Fresh(RxDecision(m, nearest).modem)
  {
    match m.rx.mode {
      case ScrambledOnes1200 => SearchStaysFresh(m, nearest);
      case _ =>
    }
  }

  lemma {:induction false} SearchStaysFresh(m: Modem, nearest: Index)
    requires Fresh(m) && m.rx.mode.ScrambledOnes1200?
    ensures Fresh(HearScrambled(m, nearest).modem)
  {
  }

  lemma {:induction false} AlwaysFresh(calling: bool, bitRate: nat, es: seq<Event>)
    requires forall e :: e in es ==> Proper(e)
    ensures Fresh(Run(Restart(calling, bitRate), es))
  {
    if es != [] {
      var n := |es| - 1;
      AlwaysFresh(calling, bitRate, es[..n]);
      assert es[n] in es;
      if es[n].Decision? { HearingStaysFresh(Run(Restart(calling, bitRate), es[..n]), es[n].nearest); }
    }
  }

  lemma {:induction false} DetectedOn(m: Modem, nearest: Index)
    requires Fresh(m)
    ensures RxDecision(m, nearest).s1 <==>
            && Searching(m) && m.rx.histCount >= 15 && Extreme(m.rx.last)
            && Alternations([RawDibit(m.rx.state, nearest)] + m.rx.history[..31], 31) >= 23
    ensures RxDecision(m, nearest).s1 ==> (m.bitRate == 2400 <==> RxDecision(m, nearest).modem.rate == 2400)
  {
    if m.rx.mode.ScrambledOnes1200? { assert RxDecision(m, nearest) == HearScrambled(m, nearest); }
  }

  /**
   What a detection takes, in every modem that has come any way from its start: the search
   is on, 16 dibits at least have been looked at, the last one was 00 or 11, and of the 31
   newest pairs of neighbours 23 at least are complementary. Nothing else is detected.
   */
  lemma {:induction false} DetectionMeans(calling: bool, bitRate: nat, es: seq<Event>, nearest: Index)
    requires forall e :: e in es ==> Proper(e)
    ensures var m := Run(Restart(calling, bitRate), es);
            var window := [RawDibit(m.rx.state, nearest)] + m.rx.history[..31];
            && (RxDecision(m, nearest).s1 <==>
                Searching(m) && m.rx.histCount >= 15 && m.rx.last in {0, 3} && |Pairs(window, 0, 31)| >= 23)
            && (RxDecision(m, nearest).s1 ==> (m.bitRate == 2400 <==> RxDecision(m, nearest).modem.rate == 2400))
  {
    AlwaysFresh(calling, bitRate, es);
    var m := Run(Restart(calling, bitRate), es);
    DetectedOn(m, nearest);
    AlternationsCount([RawDibit(m.rx.state, nearest)] + m.rx.history[..31], 31);
  }

  /**
   What a detection leads to: the search starts its count again, at 2400 bit/s if that is
   configured, and only then does the answerer start to send S1 itself.
   */
  lemma {:induction false} DetectionLeads(m: Modem, nearest: Index)
    requires RxDecision(m, nearest).s1
    ensures var m' := RxDecision(m, nearest).modem;
            && m'.rx.mode.ScrambledOnes1200? && m'.rx.count == 0 && m'.rx.histCount == 0 && m'.rx.repeats == 0
            && m'.rate == (if m.bitRate == 2400 then 2400 else 1200) && m'.bitRate == m.bitRate
            && m'.tx == if m.bitRate == 2400 && !m.calling then m.tx.(mode := U0011, count := 0) else m.tx
  {
    assert m.rx.mode.ScrambledOnes1200?;
    assert RxDecision(m, nearest) == HearScrambled(m, nearest);
  }

  /** A window in which 9 or more of the 31 pairs are not complementary is never detected. */
  lemma {:induction false} SpoiltUndetected(calling: bool, bitRate: nat, es: seq<Event>, nearest: Index)
    requires forall e :: e in es ==> Proper(e)
    requires var m := Run(Restart(calling, bitRate), es);
             |SpoiltPairs([RawDibit(m.rx.state, nearest)] + m.rx.history[..31], 0, 31)| >= 9
    ensures !RxDecision(Run(Restart(calling, bitRate), es), nearest).s1
  {
    var m := Run(Restart(calling, bitRate), es);
    var window: History := [RawDibit(m.rx.state, nearest)] + m.rx.history[..31];
    DetectionMeans(calling, bitRate, es, nearest);
    SpoiltOrPaired(window, 31);
  }

  lemma {:induction false} SpoiltOrPaired(ds: seq<Dibit>, n: nat)
    ensures |Pairs(ds, 0, n)| + |SpoiltPairs(ds, 0, n)| == n
  {
    if n == 0 {
      assert Pairs(ds, 0, 0) == {} && SpoiltPairs(ds, 0, 0) == {};
    } else {
      SpoiltOrPaired(ds, n - 1);
      if Opposite(ds, n - 1) {
        assert Pairs(ds, 0, n) == Pairs(ds, 0, n - 1) + {n - 1};
        assert SpoiltPairs(ds, 0, n) == SpoiltPairs(ds, 0, n - 1);
      } else {
        assert Pairs(ds, 0, n) == Pairs(ds, 0, n - 1);
        assert SpoiltPairs(ds, 0, n) == SpoiltPairs(ds, 0, n - 1) + {n - 1};
      }
    }
  }

  /** The last 32 raw dibits of a run, in the order they came. */
  function LastWindow(last: Index, nears: seq<Index>): (w: seq<Dibit>)
    requires |nears| >= 32
    ensures |w| == 32
  {
    RawDibits(last, nears)[|nears| - 32..]
  }

  /**
   In a search that has been on for 32 symbols, with nothing detected and time left, the
   newest symbol completes S1 exactly when 23 pairs of its window are complementary and the
   last dibit but one is 00 or 11.
   */
  lemma {:induction false} DetectsExactly(m: Modem, nears: seq<Index>)
    requires Searching(m) && |nears| >= 32 && m.rx.count + |nears| <= Symbols(400)
    requires forall i :: 0 <= i < |nears| - 1 ==> !Detects(m, nears, i)
    ensures var w := LastWindow(m.rx.state, nears);
            Detects(m, nears, |nears| - 1) <==> |Pairs(w, 0, 31)| >= 23 && w[30] in {0, 3}
  {
    var n, ds := |nears| - 1, RawDibits(m.rx.state, nears);
    forall i | 0 <= i < n ensures !Detects(m, nears[..n], i) {
      assert nears[..n][..i] == nears[..i];
      assert !Detects(m, nears, i);
    }
    SearchFollows(m, nears[..n]);
    assert ds[..n] == RawDibits(m.rx.state, nears[..n]);
    WindowOf(m.rx.history, ds);
    WindowCount(Pushed(m.rx.history, ds), LastWindow(m.rx.state, nears), 31);
    SearchDetects(Hear(m, nears[..n]), nears[n], Pushed(m.rx.history, ds));
  }

  lemma {:induction false} WindowOf(h: History, ds: seq<Dibit>)
    requires |ds| >= 32
    ensures forall k :: 0 <= k < 32 ==> Pushed(h, ds)[k] == ds[|ds| - 32..][31 - k]
  {
    forall k | 0 <= k < 32 ensures Pushed(h, ds)[k] == ds[|ds| - 32..][31 - k] {
      HistoryIsLast32(h, ds, k);
    }
  }

  /** The transmitter's S1 is the pattern: its symbol number k carries 00 or 11 in turn. */
  lemma {:induction false} S1Alternates(t: Tx, calling: bool, rate: nat, before: Index)
    requires t.mode.U0011? && before / 4 == t.quadrant
    ensures var s := TrainingBaud(t, calling, rate);
            && s.symbol.Some? && s.symbol.value / 4 == s.tx.quadrant
            && RawDibit(before, s.symbol.value) == Ideal(0, t.count)
  {
    var d: Dibit := 3 * (t.count % 2);
    var s := TrainingBaud(t, calling, rate);
    QuadrantRoundTrip(t.quadrant, d, before, s.symbol.value);
  }
}
