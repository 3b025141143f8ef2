/**
 The receiver's way through training, symbol by symbol: how many decisions each state takes
 and on what evidence it ends (src/modem/v22bis/v22bis_rx.c:278-519), and how a transmission
 begins and ends (src/modem/v22bis/v22bis_tx.c:57-185). Evidence is stated by the position of
 dibits and bits in what was received.
 */
module Timeline {
  import opened Bits
  import opened Scrambler
  import opened Constellation
  import opened V22bis
  import opened S1Detector

  // ---------------------------------------------------------------- streaks

  /** How many marks in a row stand at the end. */
  function Streak(marks: seq<bool>): (n: nat)
    ensures n <= |marks|
  {
    if marks == [] || !marks[|marks| - 1] then 0 else 1 + Streak(marks[..|marks| - 1])
  }

  /** c marks in a row, the first at i. */
  predicate MarkedFrom(marks: seq<bool>, i: int, c: nat) {
    0 <= i <= |marks| - c && forall k :: i <= k < i + c ==> marks[k]
  }

  lemma {:induction false} StreakMeans(marks: seq<bool>, c: nat)
    ensures Streak(marks) >= c <==> MarkedFrom(marks, |marks| - c, c)
  {
    if c > 0 && marks != [] {
      var n := |marks| - 1;
      StreakMeans(marks[..n], c - 1);
      assert forall k :: 0 <= k < n ==> marks[..n][k] == marks[k];
    }
  }

  /** Some streak has been c long. */
  predicate HasStreak(marks: seq<bool>, c: nat) {
    marks != [] && (HasStreak(marks[..|marks| - 1], c) || Streak(marks) >= c)
  }

  lemma {:induction false} MarkedShort(marks: seq<bool>, i: int, c: nat)
    requires marks != [] && i + c < |marks|
    ensures MarkedFrom(marks, i, c) <==> MarkedFrom(marks[..|marks| - 1], i, c)
  {
    assert forall k :: 0 <= k < |marks| - 1 ==> marks[..|marks| - 1][k] == marks[k];
  }

  lemma {:induction false} HasStreakMeans(marks: seq<bool>, c: nat)
    requires c > 0
    ensures HasStreak(marks, c) <==> exists i :: MarkedFrom(marks, i, c)
  {
    if marks != [] {
      var head := marks[..|marks| - 1];
      HasStreakMeans(head, c);
      StreakMeans(marks, c);
      if i :| MarkedFrom(head, i, c) {
        MarkedShort(marks, i, c);
      }
      if i :| MarkedFrom(marks, i, c) && i + c < |marks| {
        MarkedShort(marks, i, c);
      }
    }
  }

  // ------------------------------------------------- the answerer at 1200 bit/s

  lemma {:induction false} SustainHears(m: Modem, nearest: Index)
    requires m.rx.mode.ScrambledOnes1200Sustaining? && m.rx.count <= 621
    ensures var r := RxDecision(m, nearest).modem.rx;
            if m.rx.count < 621 then r.mode.ScrambledOnes1200Sustaining? && r.count == m.rx.count + 1
            else r.mode.RxNormal?
  {
  }

  lemma {:induction false} NormalGoesOn(m: Modem, nearest: Index)
    requires m.rx.mode.RxNormal? && !RxDecision(m, nearest).retrain
    ensures RxDecision(m, nearest).modem.rx.mode.RxNormal?
  {
  }

  lemma {:induction false} Sustains(m: Modem, es: seq<Event>)
    requires forall e :: e in es ==> Proper(e)
    requires m.rx.mode.ScrambledOnes1200Sustaining? && m.rx.count <= 621 && Calm(m, es)
    ensures var r, n := Run(m, es).rx, m.rx.count + DecisionCount(es);
            if n < 622 then r.mode.ScrambledOnes1200Sustaining? && r.count == n else r.mode.RxNormal?
  {
    if es != [] {
      var n := |es| - 1;
      assert es[n] in es;
      Sustains(m, es[..n]);
      if es[n].Decision? {
        var at := Run(m, es[..n]);
        if at.rx.mode.RxNormal? { NormalGoesOn(at, es[n].nearest); } else { SustainHears(at, es[n].nearest); }
      }
    }
  }

  /**
   Over every calm run an answerer that has committed to 1200 bit/s receives data if and only
   if its count of symbols has come to 622, whatever it hears and sends meanwhile.
   */
  lemma {:induction false} ReceivesAt1200(m: Modem, es: seq<Event>)
    requires forall e :: e in es ==> Proper(e)
    requires m.rx.mode.ScrambledOnes1200Sustaining? && m.rx.count <= 621 && Calm(m, es)
    ensures Run(m, es).rx.mode.RxNormal? <==> m.rx.count + DecisionCount(es) >= 622
  {
    Sustains(m, es);
  }

  lemma {:induction false} SearchTimesOut(m: Modem, nearest: Index)
    requires Searching(m) && !RxDecision(m, nearest).s1 && m.rx.count + 1 == Symbols(400)
    ensures var r := RxDecision(m, nearest).modem.rx;
            if m.calling then r.mode.RxNormal? else r.mode.ScrambledOnes1200Sustaining? && r.count == 240
  {
  }

  lemma {:induction false} NormalRun(m: Modem, es: seq<Event>)
    requires forall e :: e in es ==> Proper(e)
    requires m.rx.mode.RxNormal? && Calm(m, es)
    ensures Run(m, es).rx.mode.RxNormal?
  {
    if es != [] {
      var n := |es| - 1;
      assert es[n] in es;
      NormalRun(m, es[..n]);
      if es[n].Decision? { NormalGoesOn(Run(m, es[..n]), es[n].nearest); }
    }
  }

  lemma {:induction false} KeepsCalling(m: Modem, es: seq<Event>)
    requires forall e :: e in es ==> Proper(e)
    requires Searching(m) && Calm(m, es) && Unasked(m, es) && m.rx.count + DecisionCount(es) < Symbols(400)
    ensures Run(m, es).calling == m.calling
  {
    if es != [] {
      var n := |es| - 1;
      assert es[n] in es;
      KeepsCalling(m, es[..n]);
      SearchGoesOn(m, es[..n]);
      if es[n].Decision? { SearchKeepsCalling(Run(m, es[..n]), es[n].nearest); }
    }
  }

  lemma {:induction false} SearchKeepsCalling(m: Modem, nearest: Index)
    requires Searching(m)
    ensures RxDecision(m, nearest).modem.calling == m.calling
  {
  }

  /**
   So when a search hears no S1, the caller receives data from its 240th decision on, and
   the answerer 382 decisions later.
   */
  lemma {:induction false} SearchReceives(m: Modem, es: seq<Event>, fs: seq<Event>)
    requires forall e :: e in es || e in fs ==> Proper(e)
    requires Searching(m) && Calm(m, es) && Unasked(m, es)
    requires es != [] && es[|es| - 1].Decision? && m.rx.count + DecisionCount(es) == Symbols(400)
    requires Calm(Run(m, es), fs)
    ensures Run(Run(m, es), fs).rx.mode.RxNormal? <==> m.calling || DecisionCount(fs) >= 382
  {
    var n := |es| - 1;
    assert es[n] in es;
    SearchGoesOn(m, es[..n]);
    KeepsCalling(m, es[..n]);
    SearchTimesOut(Run(m, es[..n]), es[n].nearest);
    if m.calling { NormalRun(Run(m, es), fs); } else { ReceivesAt1200(Run(m, es), fs); }
  }

  // --------------------------------------------------------- towards 2400 bit/s

  /** Decisions of scrambled ones at 1200 before the receiver turns to sixteen points. */
  function HearsBefore(calling: bool): nat {
    if calling then 330 else 270
  }

  lemma {:induction false} TurningHears(m: Modem, nearest: Index)
    requires m.rx.mode.ScrambledOnes1200? && m.rate == 2400 && m.rx.count < HearsBefore(m.calling)
    ensures var m', n := RxDecision(m, nearest).modem, m.rx.count + 1;
            && m'.rate == 2400 && m'.calling == m.calling
            && if n < HearsBefore(m.calling) then m'.rx.mode.ScrambledOnes1200? && m'.rx.count == n
               else m'.rx.mode.WaitForOnes2400? && m'.rx.sixteen && m'.rx.repeats == 0
  {
  }

  /**
   With 2400 bit/s agreed the receiver turns to sixteen points after exactly 270 decisions
   of the answerer's, or 330 of the caller's, and starts to look for ones.
   */
  lemma {:induction false} TurnsAfter(m: Modem, es: seq<Event>)
    requires forall e :: e in es ==> Proper(e)
    requires m.rx.mode.ScrambledOnes1200? && m.rate == 2400 && m.rx.count < HearsBefore(m.calling) && Calm(m, es)
    requires m.rx.count + DecisionCount(es) <= HearsBefore(m.calling)
    ensures var m', n := Run(m, es), m.rx.count + DecisionCount(es);
            && m'.rate == 2400 && m'.calling == m.calling
            && if n < HearsBefore(m.calling) then m'.rx.mode.ScrambledOnes1200? && m'.rx.count == n
               else m'.rx.mode.WaitForOnes2400? && m'.rx.sixteen && m'.rx.repeats == 0
  {
    if es != [] {
      var n := |es| - 1;
      assert es[n] in es;
      TurnsAfter(m, es[..n]);
      if es[n].Decision? { TurningHears(Run(m, es[..n]), es[n].nearest); }
    }
  }

  /** The decision that an event brings, if it brings one. */
  function DecidedBy(e: Event): seq<Index> {
    if e.Decision? then [e.nearest] else []
  }

  /** The decisions of a run. */
  function Decided(es: seq<Event>): seq<Index> {
    if es == [] then []
    else
      var n := |es| - 1;
      Decided(es[..n]) + DecidedBy(es[n])
  }

  function LastOf(state: Index, nears: seq<Index>): Index {
    if nears == [] then state else nears[|nears| - 1]
  }

  /** The line bits that some decisions carry. */
  function RawLine(sixteen: bool, state: Index, nears: seq<Index>): (line: seq<Bit>)
    ensures |line| == (if sixteen then 4 else 2) * |nears|
  {
    if nears == [] then []
    else
      var n := |nears| - 1;
      RawLine(sixteen, state, nears[..n]) + RawBits(sixteen, LastOf(state, nears[..n]), nears[n])
  }

  /** The k-th symbol of a descrambled line is four ones. */
  predicate FourOnes(bits: seq<Bit>, k: int) {
    0 <= k && 4 * k + 4 <= |bits|
    && bits[4 * k] == 1 && bits[4 * k + 1] == 1 && bits[4 * k + 2] == 1 && bits[4 * k + 3] == 1
  }

  function Fours(bits: seq<Bit>, n: nat): seq<bool> {
    seq(n, k requires 0 <= k < n => FourOnes(bits, k))
  }

  lemma {:induction false} DescrambleConcat(s: Lfsr, a: seq<Bit>, b: seq<Bit>)
    ensures Descramble(s, a + b) == Descramble(s, a) + Descramble(After(s, a), b)
    decreases |a|
  {
    if a == [] {
      assert a + b == b;
    } else {
      assert (a + b)[1..] == a[1..] + b;
      DescrambleConcat(Record(s, a[0]), a[1..], b);
    }
  }

  lemma {:induction false} FoursGrow(bits: seq<Bit>, more: seq<Bit>, n: nat)
    requires |bits| == 4 * n && |more| == 4
    ensures Fours(bits + more, n + 1) == Fours(bits, n) + [more == [1, 1, 1, 1]]
  {
    var all := bits + more;
    assert forall k :: 0 <= k < n ==> (FourOnes(all, k) <==> FourOnes(bits, k));
    assert all[4 * n] == more[0] && all[4 * n + 1] == more[1] && all[4 * n + 2] == more[2] && all[4 * n + 3] == more[3];
  }

  /** The data bits that a receiver waiting for ones makes of some decisions. */
  function Listened(m: Modem, nears: seq<Index>): (bits: seq<Bit>)
    ensures |bits| == 4 * |nears|
  {
    DescrambleLength(m.rx.scr, RawLine(true, m.rx.state, nears));
    Descramble(m.rx.scr, RawLine(true, m.rx.state, nears))
  }

  function ListenedFours(m: Modem, nears: seq<Index>): seq<bool> {
    Fours(Listened(m, nears), |nears|)
  }

  lemma {:induction false} ListenedGrows(m: Modem, nears: seq<Index>, nearest: Index)
    ensures var raw := RawBits(true, LastOf(m.rx.state, nears), nearest);
            var scr := After(m.rx.scr, RawLine(true, m.rx.state, nears));
            && RawLine(true, m.rx.state, nears + [nearest]) == RawLine(true, m.rx.state, nears) + raw
            && ListenedFours(m, nears + [nearest])
            == ListenedFours(m, nears) + [Descramble(scr, raw) == [1, 1, 1, 1]]
  {
    var line, raw := RawLine(true, m.rx.state, nears), RawBits(true, LastOf(m.rx.state, nears), nearest);
    assert (nears + [nearest])[..|nears|] == nears;
    DescrambleConcat(m.rx.scr, line, raw);
    DescrambleLength(After(m.rx.scr, line), raw);
    FoursGrow(Listened(m, nears), Descramble(After(m.rx.scr, line), raw), |nears|);
  }

  /** Where a receiver stands that has waited for ones through some decisions. */
  predicate Waiting(m: Modem, nears: seq<Index>, m': Modem) {
    if HasStreak(ListenedFours(m, nears), 9) then m'.rx.mode.RxNormal?
    else
      && m'.rx.mode.WaitForOnes2400? && m'.rx.sixteen && m'.rx.state == LastOf(m.rx.state, nears)
      && m'.rx.scr == After(m.rx.scr, RawLine(true, m.rx.state, nears))
      && m'.rx.repeats == Streak(ListenedFours(m, nears)) < 9
  }

  lemma {:induction false} WaitHears(m: Modem, nearest: Index)
    requires m.rx.mode.WaitForOnes2400? && m.rx.sixteen
    ensures var raw := RawBits(true, m.rx.state, nearest);
            var ones := Descramble(m.rx.scr, raw) == [1, 1, 1, 1];
            var r := RxDecision(m, nearest).modem.rx;
            && r.sixteen && r.state == nearest && r.scr == After(m.rx.scr, raw)
            && r.repeats == (if ones then m.rx.repeats + 1 else 0)
            && r.mode == if r.repeats >= 9 then RxNormal else WaitForOnes2400
  {
  }

  lemma {:induction false} StreakGrows(marks: seq<bool>, mark: bool)
    ensures Streak(marks + [mark]) == if mark then Streak(marks) + 1 else 0
    ensures HasStreak(marks + [mark], 9) <==> HasStreak(marks, 9) || Streak(marks + [mark]) >= 9
  {
    assert (marks + [mark])[..|marks|] == marks;
  }

  lemma {:induction false} WaitingOn(m: Modem, nears: seq<Index>, m1: Modem, nearest: Index)
    requires Waiting(m, nears, m1) && !RxDecision(m1, nearest).retrain
    ensures Waiting(m, nears + [nearest], RxDecision(m1, nearest).modem)
  {
    var marks := ListenedFours(m, nears);
    ListenedGrows(m, nears, nearest);
    if HasStreak(marks, 9) {
      NormalGoesOn(m1, nearest);
      StreakGrows(marks, ListenedFours(m, nears + [nearest])[|nears|]);
    } else {
      WaitHears(m1, nearest);
      AfterAppend(m.rx.scr, RawLine(true, m.rx.state, nears), RawBits(true, m1.rx.state, nearest));
      StreakGrows(marks, m1.rx.repeats + 1 == RxDecision(m1, nearest).modem.rx.repeats);
    }
  }

  lemma {:induction false} WaitingStarts(m: Modem)
    requires m.rx.mode.WaitForOnes2400? && m.rx.sixteen && m.rx.repeats == 0
    ensures Waiting(m, [], m)
  {
    assert ListenedFours(m, []) == [];
    assert RawLine(true, m.rx.state, []) == [] && After(m.rx.scr, []) == m.rx.scr;
  }

  lemma {:induction false} WaitingReacts(m: Modem, nears: seq<Index>, m1: Modem, e: Event)
    requires Waiting(m, nears, m1) && Proper(e)
    requires e.Baud? || (e.Decision? && !RxDecision(m1, e.nearest).retrain)
    ensures Waiting(m, nears + DecidedBy(e), React(m1, e))
  {
    if e.Decision? {
      WaitingOn(m, nears, m1, e.nearest);
    } else {
      assert nears + DecidedBy(e) == nears;
    }
  }

  lemma {:induction false} WaitsOn(m: Modem, es: seq<Event>)
    requires forall e :: e in es ==> Proper(e)
    requires m.rx.mode.WaitForOnes2400? && m.rx.sixteen && m.rx.repeats == 0 && Calm(m, es)
    ensures Waiting(m, Decided(es), Run(m, es))
  {
    if es == [] {
      WaitingStarts(m);
    } else {
      var n := |es| - 1;
      assert es[n] in es;
      WaitsOn(m, es[..n]);
      WaitingReacts(m, Decided(es[..n]), Run(m, es[..n]), es[n]);
    }
  }

  /** Nine symbols of four ones in a row, the first at i. */
  predicate NineFours(bits: seq<Bit>, i: int) {
    0 <= i && 4 * i + 36 <= |bits| && forall k :: i <= k < i + 9 ==> FourOnes(bits, k)
  }

  ghost predicate NineInARow(bits: seq<Bit>) {
    exists i :: NineFours(bits, i)
  }

  lemma {:induction false} NineMarked(bits: seq<Bit>, n: nat, i: int)
    requires |bits| == 4 * n
    ensures NineFours(bits, i) <==> MarkedFrom(Fours(bits, n), i, 9)
  {
    var marks := Fours(bits, n);
    assert forall k :: 0 <= k < n ==> (marks[k] <==> FourOnes(bits, k));
    if MarkedFrom(marks, i, 9) {
      forall k | i <= k < i + 9 ensures FourOnes(bits, k) { assert marks[k]; }
    }
  }

  lemma {:induction false} NineMeans(bits: seq<Bit>, n: nat)
    requires |bits| == 4 * n
    ensures HasStreak(Fours(bits, n), 9) <==> NineInARow(bits)
  {
    var marks := Fours(bits, n);
    HasStreakMeans(marks, 9);
    if i :| MarkedFrom(marks, i, 9) {
      NineMarked(bits, n, i);
      assert NineFours(bits, i);
    }
    if i :| NineFours(bits, i) {
      NineMarked(bits, n, i);
      assert MarkedFrom(marks, i, 9);
    }
  }

  lemma {:induction false} WaitingMeans(m: Modem, nears: seq<Index>, m': Modem)
    requires Waiting(m, nears, m')
    ensures m'.rx.mode.RxNormal? <==> NineInARow(Listened(m, nears))
  {
    NineMeans(Listened(m, nears), |nears|);
  }

  /**
   Over every calm run a receiver that waits for ones at 2400 bit/s receives data if and
   only if nine symbols in a row have been four ones each.
   */
  lemma {:induction false} ReceivesAt2400(m: Modem, es: seq<Event>)
    requires forall e :: e in es ==> Proper(e)
    requires m.rx.mode.WaitForOnes2400? && m.rx.sixteen && m.rx.repeats == 0 && Calm(m, es)
    ensures Run(m, es).rx.mode.RxNormal? <==> NineInARow(Listened(m, Decided(es)))
  {
    WaitsOn(m, es);
    WaitingMeans(m, Decided(es), Run(m, es));
  }

  // -------------------------------------------------- carrier, and the caller's ones

  lemma {:induction false} AcquireHears(m: Modem, nearest: Index)
    requires m.rx.mode.SymbolAcquisition? && m.rx.count < 40
    ensures var m', n := RxDecision(m, nearest).modem, m.rx.count + 1;
            && m'.calling == m.calling && m'.rx.count == n && m'.rx.last == 0 && m'.rx.state == m.rx.state
            && if n < 40 then m'.rx.mode.SymbolAcquisition?
               else m'.rate == 1200 && m'.rx.repeats == 0
                    && m'.rx.mode == if m.calling then UnscrambledOnes else ScrambledOnes1200
  {
  }

  /**
   Forty decisions after a carrier has come the rate is 1200 bit/s, the caller looks for
   unscrambled ones and the answerer for S1.
   */
  lemma {:induction false} AcquiresIn40(m: Modem, es: seq<Event>)
    requires forall e :: e in es ==> Proper(e)
    requires m.rx.mode.SymbolAcquisition? && m.rx.count < 40 && Calm(m, es)
    requires m.rx.count + DecisionCount(es) <= 40
    ensures var m', n := Run(m, es), m.rx.count + DecisionCount(es);
            && m'.calling == m.calling && m'.rx.count == n && m'.rx.state == m.rx.state
            && if n < 40 then m'.rx.mode.SymbolAcquisition?
               else m'.rate == 1200 && m'.rx.repeats == 0 && m'.rx.last == 0
                    && m'.rx.mode == if m.calling then UnscrambledOnes else ScrambledOnes1200
  {
    if es != [] {
      var n := |es| - 1;
      assert es[n] in es;
      AcquiresIn40(m, es[..n]);
      if es[n].Decision? { AcquireHears(Run(m, es[..n]), es[n].nearest); }
    }
  }

  lemma {:induction false} HearGrows(m: Modem, nears: seq<Index>, nearest: Index)
    ensures Hear(m, nears + [nearest]) == RxDecision(Hear(m, nears), nearest).modem
  {
    assert (nears + [nearest])[..|nears|] == nears;
  }

  /** That is counted from where a carrier loss or a restart has left the receiver. */
  lemma {:induction false} AcquiresAfterLoss(m: Modem, es: seq<Event>)
    requires forall e :: e in es ==> Proper(e)
    requires Calm(React(m, CarrierLost), es) && DecisionCount(es) <= 40
    ensures Run(React(m, CarrierLost), es).rx.mode.SymbolAcquisition? <==> DecisionCount(es) < 40
  {
    AcquiresIn40(React(m, CarrierLost), es);
  }

  lemma {:induction false} AcquiresAfterRestart(calling: bool, bitRate: nat, es: seq<Event>)
    requires forall e :: e in es ==> Proper(e)
    requires Calm(Restart(calling, bitRate), es) && DecisionCount(es) <= 40
    ensures Run(Restart(calling, bitRate), es).rx.mode.SymbolAcquisition? <==> DecisionCount(es) < 40
  {
    AcquiresIn40(Restart(calling, bitRate), es);
  }

  /** Which dibits of a run are the same as the one before. */
  function Same(last: Dibit, ds: seq<Dibit>): seq<bool> {
    seq(|ds|, k requires 0 <= k < |ds| => ds[k] == if k == 0 then last else ds[k - 1])
  }

  lemma {:induction false} SameGrows(last: Dibit, ds: seq<Dibit>, d: Dibit)
    ensures Same(last, ds + [d]) == Same(last, ds) + [d == if ds == [] then last else ds[|ds| - 1]]
  {
  }

  lemma {:induction false} RawDibitsGrow(state: Index, nears: seq<Index>, nearest: Index)
    ensures RawDibits(state, nears + [nearest])
         == RawDibits(state, nears) + [RawDibit(LastOf(state, nears), nearest)]
  {
    assert (nears + [nearest])[..|nears|] == nears;
  }

  lemma {:induction false} UnscrambledHears(m: Modem, nearest: Index)
    requires m.rx.mode.UnscrambledOnes? && m.rx.count < 365
    ensures var m', raw := RxDecision(m, nearest).modem, RawDibit(m.rx.state, nearest);
            && m'.rx.mode.UnscrambledOnes? && m'.rx.count == m.rx.count + 1 && m'.rx.state == nearest
            && m'.rx.last == raw && m'.rx.repeats == (if raw == m.rx.last then m.rx.repeats + 1 else 0)
            && m'.tx == m.tx && m'.bitRate == m.bitRate
  {
  }

  /** Where the caller stands that has heard so many decisions in search of ones. */
  predicate Hearing(m: Modem, nears: seq<Index>, m': Modem) {
    var ds := RawDibits(m.rx.state, nears);
    && m'.rx.mode.UnscrambledOnes? && m'.rx.count == m.rx.count + |nears|
    && m'.rx.state == LastOf(m.rx.state, nears)
    && m'.rx.last == (if ds == [] then m.rx.last else ds[|ds| - 1])
    && m'.rx.repeats == Streak(Same(m.rx.last, ds)) && m'.tx == m.tx && m'.bitRate == m.bitRate
  }

  lemma {:induction false} HearingOn(m: Modem, nears: seq<Index>, m1: Modem, nearest: Index)
    requires Hearing(m, nears, m1) && m1.rx.count < 365
    ensures Hearing(m, nears + [nearest], RxDecision(m1, nearest).modem)
  {
    UnscrambledHears(m1, nearest);
    var ds, raw := RawDibits(m.rx.state, nears), RawDibit(m1.rx.state, nearest);
    RawDibitsGrow(m.rx.state, nears, nearest);
    SameGrows(m.rx.last, ds, raw);
    var marks := Same(m.rx.last, ds);
    assert (marks + [raw == m1.rx.last])[..|marks|] == marks;
  }

  lemma {:induction false} HearsUnscrambled(m: Modem, nears: seq<Index>)
    requires m.rx.mode.UnscrambledOnes? && m.rx.repeats == 0 && m.rx.count + |nears| <= 365
    ensures Hearing(m, nears, Hear(m, nears))
    decreases |nears|
  {
    if nears == [] {
      assert Same(m.rx.last, RawDibits(m.rx.state, [])) == [];
    } else {
      var n := |nears| - 1;
      HearsUnscrambled(m, nears[..n]);
      HearingOn(m, nears[..n], Hear(m, nears[..n]), nears[n]);
      assert nears == nears[..n] + [nears[n]];
    }
  }

  /** The last 274 dibits are all 00 or all 11. */
  predicate SteadyOnes(ds: seq<Dibit>) {
    && |ds| >= 274 && ds[|ds| - 1] in {0, 3}
    && forall k :: |ds| - 274 <= k < |ds| ==> ds[k] == ds[|ds| - 1]
  }

  lemma {:induction false} SteadyMeans(last: Dibit, ds: seq<Dibit>)
    requires |ds| >= 274
    ensures SteadyOnes(ds) <==> ds[|ds| - 1] in {0, 3} && Streak(Same(last, ds)) >= 273
  {
    var marks := Same(last, ds);
    StreakMeans(marks, 273);
    if Streak(marks) >= 273 {
      SameAll(last, ds, |ds| - 1);
    }
    if SteadyOnes(ds) {
      forall k | |ds| - 273 <= k < |ds| ensures marks[k] {
        assert ds[k] == ds[k - 1];
      }
    }
  }

  /** Equal neighbours all the way are equal dibits. */
  lemma {:induction false} SameAll(last: Dibit, ds: seq<Dibit>, k: nat)
    requires |ds| >= 274 && MarkedFrom(Same(last, ds), |ds| - 273, 273) && |ds| - 274 <= k < |ds|
    ensures forall i :: |ds| - 274 <= i <= k ==> ds[i] == ds[k]
    decreases k
  {
    if k > |ds| - 274 {
      assert Same(last, ds)[k];
      SameAll(last, ds, k - 1);
    }
  }

  lemma {:induction false} UnscrambledEnds(m: Modem, nearest: Index)
    requires m.rx.mode.UnscrambledOnes? && m.rx.count == 365
    ensures var m', raw := RxDecision(m, nearest).modem, RawDibit(m.rx.state, nearest);
            && m'.rx.mode.UnscrambledOnesSustaining? && m'.rx.last == raw && m'.rx.state == nearest
            && m'.tx == if raw == m.rx.last && raw in {0, 3} && m.rx.repeats + 1 >= 273
                        then m.tx.(mode := if m.bitRate == 2400 then U0011 else S11, count := 0)
                        else m.tx
  {
  }

  /**
   The caller listens for unscrambled ones up to its 366th decision. It then begins to
   send, S1 if it is configured for 2400 bit/s and scrambled ones if not, exactly when the
   last 274 dibits were all 00 or all 11.
   */
  lemma {:induction false} AnswersOnes(m: Modem, nears: seq<Index>)
    requires m.rx.mode.UnscrambledOnes? && m.rx.repeats == 0
    requires |nears| >= 274 && m.rx.count + |nears| == 366
    ensures var m', ds := Hear(m, nears), RawDibits(m.rx.state, nears);
            && m'.rx.mode.UnscrambledOnesSustaining? && m'.rx.last == ds[|ds| - 1]
            && m'.tx == if SteadyOnes(ds) then m.tx.(mode := if m.bitRate == 2400 then U0011 else S11, count := 0)
                        else m.tx
  {
    var n := |nears| - 1;
    var at, ds := Hear(m, nears[..n]), RawDibits(m.rx.state, nears[..n]);
    var raw := RawDibit(at.rx.state, nears[n]);
    HearsUnscrambled(m, nears[..n]);
    UnscrambledEnds(at, nears[n]);
    assert nears == nears[..n] + [nears[n]];
    RawDibitsGrow(m.rx.state, nears[..n], nears[n]);
    SameGrows(m.rx.last, ds, raw);
    var marks := Same(m.rx.last, ds);
    assert (marks + [raw == at.rx.last])[..|marks|] == marks;
    SteadyMeans(m.rx.last, ds + [raw]);
  }

  lemma {:induction false} SustainedOnesHear(m: Modem, nearest: Index)
    requires m.rx.mode.UnscrambledOnesSustaining?
    ensures var m', raw := RxDecision(m, nearest).modem, RawDibit(m.rx.state, nearest);
            && m'.rx.state == nearest
            && if raw == m.rx.last then
                 && m'.rx.mode.UnscrambledOnesSustaining? && m'.rx.last == m.rx.last && m'.tx == m.tx
               else && m'.rx.mode.ScrambledOnes1200? && m'.rx.count == 0
                    && m'.tx == m.tx.(mode := TimedS11, count := 0)
  {
  }

  lemma {:induction false} OnesGoOn(m: Modem, nears: seq<Index>)
    requires m.rx.mode.UnscrambledOnesSustaining?
    requires forall d :: d in RawDibits(m.rx.state, nears) ==> d == m.rx.last
    ensures var m' := Hear(m, nears);
            && m'.rx.mode.UnscrambledOnesSustaining? && m'.rx.last == m.rx.last && m'.tx == m.tx
            && m'.rx.state == LastOf(m.rx.state, nears)
    decreases |nears|
  {
    if nears != [] {
      var n := |nears| - 1;
      var ds := RawDibits(m.rx.state, nears);
      assert nears == nears[..n] + [nears[n]];
      RawDibitsGrow(m.rx.state, nears[..n], nears[n]);
      assert ds[n] in ds && forall d :: d in ds[..n] ==> d in ds;
      assert ds[..n] == RawDibits(m.rx.state, nears[..n]);
      OnesGoOn(m, nears[..n]);
      SustainedOnesHear(Hear(m, nears[..n]), nears[n]);
    }
  }

  /** The ones are over at the first dibit that differs; scrambled ones are sent from then on. */
  lemma {:induction false} OnesEnd(m: Modem, nears: seq<Index>, nearest: Index)
    requires m.rx.mode.UnscrambledOnesSustaining?
    requires forall d :: d in RawDibits(m.rx.state, nears) ==> d == m.rx.last
    requires RawDibit(LastOf(m.rx.state, nears), nearest) != m.rx.last
    ensures var m' := Hear(m, nears + [nearest]);
            m'.rx.mode.ScrambledOnes1200? && m'.rx.count == 0 && m'.tx == m.tx.(mode := TimedS11, count := 0)
  {
    OnesGoOn(m, nears);
    SustainedOnesHear(Hear(m, nears), nearest);
    HearGrows(m, nears, nearest);
  }

  // ------------------------------------------------------------ retrain requests

  /** Which dibits of a run are the complement of the one before. */
  function Turning(last: Dibit, ds: seq<Dibit>): seq<bool> {
    seq(|ds|, k requires 0 <= k < |ds| => Complementary(if k == 0 then last else ds[k - 1], ds[k]))
  }

  lemma {:induction false} TurningGrows(last: Dibit, ds: seq<Dibit>, d: Dibit)
    ensures Turning(last, ds + [d])
         == Turning(last, ds) + [Complementary(if ds == [] then last else ds[|ds| - 1], d)]
  {
  }

  /** A receiver in normal operation after decisions without a retrain. */
  predicate InData(m: Modem, nears: seq<Index>, m': Modem) {
    var ds := RawDibits(m.rx.state, nears);
    var marks := Turning(m.rx.last, ds);
    && m'.rx.mode.RxNormal? && m'.rx.state == LastOf(m.rx.state, nears)
    && m'.rx.last == (if ds == [] then m.rx.last else ds[|ds| - 1])
    && m'.rx.repeats == Repeats(marks, m.rx.repeats)
  }

  /** Marks in a row at the end, with c more before the first. */
  function Repeats(marks: seq<bool>, c: nat): nat {
    if Streak(marks) < |marks| then Streak(marks) else c + |marks|
  }

  lemma {:induction false} RepeatsGrow(marks: seq<bool>, mark: bool, c: nat)
    ensures Repeats(marks + [mark], c) == if mark then Repeats(marks, c) + 1 else 0
  {
    assert (marks + [mark])[..|marks|] == marks;
  }

  lemma {:induction false} DataHears(m: Modem, nearest: Index)
    requires m.rx.mode.RxNormal?
    ensures var d, raw := RxDecision(m, nearest), RawDibit(m.rx.state, nearest);
            && (d.retrain <==> !Complementary(m.rx.last, raw) && m.rx.last in {0, 3} && m.rx.repeats >= 50)
            && (!d.retrain ==>
                  && d.modem.rx.mode.RxNormal? && d.modem.rx.state == nearest && d.modem.rx.last == raw
                  && d.modem.rx.repeats == if Complementary(m.rx.last, raw) then m.rx.repeats + 1 else 0)
  {
  }

  lemma {:induction false} InDataOn(m: Modem, nears: seq<Index>, m1: Modem, nearest: Index)
    requires InData(m, nears, m1) && !RxDecision(m1, nearest).retrain
    ensures InData(m, nears + [nearest], RxDecision(m1, nearest).modem)
  {
    DataHears(m1, nearest);
    var ds, raw := RawDibits(m.rx.state, nears), RawDibit(m1.rx.state, nearest);
    RawDibitsGrow(m.rx.state, nears, nearest);
    TurningGrows(m.rx.last, ds, raw);
    RepeatsGrow(Turning(m.rx.last, ds), Complementary(m1.rx.last, raw), m.rx.repeats);
  }

  predicate Undisturbed(m: Modem, nears: seq<Index>) {
    nears == [] ||
    var n := |nears| - 1;
    Undisturbed(m, nears[..n]) && !RxDecision(Hear(m, nears[..n]), nears[n]).retrain
  }

  lemma {:induction false} StartsInData(m: Modem)
    requires m.rx.mode.RxNormal?
    ensures InData(m, [], m)
  {
    assert RawDibits(m.rx.state, []) == [] && Turning(m.rx.last, []) == [];
  }

  lemma {:induction false} StaysInData(m: Modem, nears: seq<Index>)
    requires m.rx.mode.RxNormal? && Undisturbed(m, nears)
    ensures InData(m, nears, Hear(m, nears))
    decreases |nears|
  {
    if nears == [] {
      StartsInData(m);
    } else {
      var n := |nears| - 1;
      StaysInData(m, nears[..n]);
      InDataOn(m, nears[..n], Hear(m, nears[..n]), nears[n]);
      assert nears == nears[..n] + [nears[n]];
    }
  }

  /** Fifty complementary neighbours in a row, and then a 00 or 11 that is not followed by its complement. */
  predicate AsksRetrain(ds: seq<Dibit>) {
    var n := |ds| - 2;
    && n >= 50 && !Opposite(ds, n) && ds[n] in {0, 3}
    && forall k :: n - 50 <= k < n ==> Opposite(ds, k)
  }

  lemma {:induction false} TurningPair(last: Dibit, ds: seq<Dibit>, d: Dibit, k: nat)
    requires k < |ds|
    ensures Turning(last, ds)[k] <==> Opposite([last] + ds + [d], k)
  {
    var all := [last] + ds + [d];
    assert all[k + 1] == ds[k] && all[k] == if k == 0 then last else ds[k - 1];
  }

  lemma {:induction false} TurningMeans(last: Dibit, ds: seq<Dibit>, d: Dibit)
    requires |ds| >= 50
    ensures AsksRetrain([last] + ds + [d]) <==>
            !Complementary(ds[|ds| - 1], d) && ds[|ds| - 1] in {0, 3} && Streak(Turning(last, ds)) >= 50
  {
    var all, marks := [last] + ds + [d], Turning(last, ds);
    assert all[|ds|] == ds[|ds| - 1] && all[|ds| + 1] == d;
    forall k: nat | k < |marks| ensures marks[k] <==> Opposite(all, k) {
      TurningPair(last, ds, d, k);
    }
    AsksMeans(all, marks);
  }

  lemma {:induction false} AsksMeans(all: seq<Dibit>, marks: seq<bool>)
    requires |all| == |marks| + 2 && |marks| >= 50
    requires forall k: nat :: k < |marks| ==> (marks[k] <==> Opposite(all, k))
    ensures AsksRetrain(all) <==>
            !Opposite(all, |marks|) && all[|marks|] in {0, 3} && Streak(marks) >= 50
  {
    StreakMeans(marks, 50);
    FiftyPairs(all, marks);
  }

  lemma {:induction false} FiftyPairs(all: seq<Dibit>, marks: seq<bool>)
    requires |all| == |marks| + 2 && |marks| >= 50
    requires forall k: nat :: k < |marks| ==> (marks[k] <==> Opposite(all, k))
    ensures MarkedFrom(marks, |marks| - 50, 50) <==> forall k :: |marks| - 50 <= k < |marks| ==> Opposite(all, k)
  {
  }

  /**
   In data mode, with 50 decisions or more behind it, a receiver takes a decision for a
   retrain request exactly when the last 50 pairs of dibits were complementary, the one it
   completes is not, and that begins with 00 or 11.
   */
  lemma {:induction false} RetrainsExactly(m: Modem, nears: seq<Index>, nearest: Index)
    requires m.rx.mode.RxNormal? && |nears| >= 50 && Undisturbed(m, nears)
    ensures RxDecision(Hear(m, nears), nearest).retrain <==>
            AsksRetrain([m.rx.last] + RawDibits(m.rx.state, nears) + [RawDibit(LastOf(m.rx.state, nears), nearest)])
  {
    StaysInData(m, nears);
    DataHears(Hear(m, nears), nearest);
    TurningMeans(m.rx.last, RawDibits(m.rx.state, nears), RawDibit(LastOf(m.rx.state, nears), nearest));
  }

  // ------------------------------------- how a transmission begins and ends

  /** Bauds and decisions, none of which moves the transmitter. */
  predicate Unmoved(m: Modem, es: seq<Event>)
    requires forall e :: e in es ==> Proper(e)
  {
    es == [] ||
    var n := |es| - 1;
    var at := Run(m, es[..n]);
    && Unmoved(m, es[..n])
    && (es[n].Baud? || (es[n].Decision? && RxDecision(at, es[n].nearest).modem.tx == at.tx))
  }

  predicate Opened(t: Tx, n: nat) {
    if n < 45 then t.mode.TimedSilence? && t.count == n && t.quadrant == 0
    else t.mode.U11? && t.quadrant == 3 * (n - 45) % 4
  }

  /** The symbol number k of an answerer that has just started. */
  function Opening(k: nat): Option<Index> {
    if k < 45 then None else Some(4 * (3 * (k - 44) % 4) + 1)
  }

  lemma {:induction false} OpeningBaud(t: Tx, calling: bool, rate: nat, n: nat)
    requires Opened(t, n)
    ensures var s := TrainingBaud(t, calling, rate); s.symbol == Opening(n) && Opened(s.tx, n + 1)
  {
    if n >= 45 {
      assert (3 * (n - 45) % 4 + 3) % 4 == 3 * (n - 44) % 4;
    }
  }

  /**
   An answerer is silent for 45 symbols and then sends unscrambled ones, turning the carrier
   by 270 degrees each time, until the receiver has it send something else.
   */
  lemma {:induction false} AnswererOpens(bitRate: nat, es: seq<Event>)
    requires forall e :: e in es ==> Proper(e)
    requires Unmoved(Restart(false, bitRate), es)
    ensures var out := Output(Restart(false, bitRate), es);
            && Opened(Run(Restart(false, bitRate), es).tx, |out|)
            && forall k :: 0 <= k < |out| ==> out[k] == Opening(k)
  {
    if es != [] {
      var n := |es| - 1;
      var start := Restart(false, bitRate);
      var at := Run(start, es[..n]);
      assert es[n] in es;
      AnswererOpens(bitRate, es[..n]);
      if es[n].Baud? { OpeningBaud(at.tx, at.calling, at.rate, |Output(start, es[..n])|); }
    }
  }

  /** A caller is silent until its receiver has it send. */
  lemma {:induction false} CallerWaits(bitRate: nat, es: seq<Event>)
    requires forall e :: e in es ==> Proper(e)
    requires Unmoved(Restart(true, bitRate), es)
    ensures Run(Restart(true, bitRate), es).tx.mode.InitialSilence?
    ensures forall s :: s in Output(Restart(true, bitRate), es) ==> s.None?
  {
    if es != [] {
      var n := |es| - 1;
      assert es[n] in es;
      CallerWaits(bitRate, es[..n]);
    }
  }

  predicate Given(offered: seq<Option<Bit>>, n: nat)
    requires n <= |offered|
  {
    forall j :: 0 <= j < n ==> offered[j].Some?
  }

  /** The bits on offer up to the end of data, and ones from there on. */
  function ThenOnes(offered: seq<Option<Bit>>): seq<Bit> {
    seq(|offered|, i requires 0 <= i < |offered| => if Given(offered, i + 1) then offered[i].value else 1)
  }

  lemma {:induction false} ThenOnesGrow(offered: seq<Option<Bit>>)
    requires offered != []
    ensures var n := |offered| - 1;
            && (Given(offered, n) <==> Given(offered[..n], n))
            && ThenOnes(offered) == ThenOnes(offered[..n]) + [ThenOnes(offered)[n]]
  {
    var n := |offered| - 1;
    forall i | 0 <= i < n ensures ThenOnes(offered[..n])[i] == ThenOnes(offered)[i] {
      assert Given(offered[..n], i + 1) == Given(offered, i + 1);
    }
  }

  /** Data are sent scrambled up to their end and ones after it; the end starts the shutdown. */
  lemma {:induction false} DataThenOnes(t: Tx, offered: seq<Option<Bit>>)
    requires t.user && t.shutdown == 0
    ensures var (line, t') := PullBits(t, offered);
            && line == Scramble(t.scr, ThenOnes(offered)) && t'.scr == After(t.scr, line)
            && t'.user == Given(offered, |offered|) && t'.shutdown == (if t'.user then 0 else 1)
    decreases |offered|
  {
    if offered == [] {
      assert ThenOnes([]) == [];
    } else {
      var n := |offered| - 1;
      DataThenOnes(t, offered[..n]);
      ThenOnesGrow(offered);
      var bits, bit := ThenOnes(offered[..n]), ThenOnes(offered)[n];
      ScrambleSnoc(t.scr, bits, bit);
      AfterSnoc(t.scr, Scramble(t.scr, bits), LineBit(After(t.scr, Scramble(t.scr, bits)), bit));
    }
  }

  lemma {:induction false} ClosingBaud(m: Modem, offered: seq<Option<Bit>>)
    requires m.tx.mode.TxNormal? && m.tx.shutdown > 0 && |offered| == 4
    ensures var s := TxBaud(m.tx, m.calling, m.rate, offered);
            && s.tx.mode.TxNormal? && (s.symbol.Some? <==> m.tx.shutdown < 10)
            && (!m.tx.user ==> !s.tx.user && s.tx.shutdown == m.tx.shutdown + 1)
  {
    PullBitsKeeps(m.tx.(shutdown := m.tx.shutdown + 1), if m.rate == 1200 then offered[..2] else offered);
  }

  /** After the symbol in which data end, nine more are sent, and then none. */
  lemma {:induction false} DataEnd(m: Modem, es: seq<Event>)
    requires forall e :: e in es ==> Proper(e)
    requires m.tx.mode.TxNormal? && !m.tx.user && m.tx.shutdown == 1 && Unmoved(m, es)
    ensures var out, t := Output(m, es), Run(m, es).tx;
            && t.mode.TxNormal? && !t.user && t.shutdown == 1 + |out|
            && forall k :: 0 <= k < |out| ==> (out[k].Some? <==> k < 9)
  {
    if es != [] {
      var n := |es| - 1;
      assert es[n] in es;
      DataEnd(m, es[..n]);
      if es[n].Baud? { ClosingBaud(Run(m, es[..n]), es[n].offered); }
    }
  }
}
