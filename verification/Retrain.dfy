/**
 Which modems come back to data mode after a retrain, and which do not
 (src/modem/v22bis/v22bis_rx.c:284-318 with the training switch that follows).
 */
module Retrain {
  import opened Bits
  import opened Scrambler
  import opened Constellation
  import opened V22bis
  import opened S1Detector

  // ----------------------------------------- the caller at 2400 bit/s

  predicate Stranded(m: Modem) {
    && m.calling && m.rate == 2400
    && (m.tx.mode.U0011? || m.tx.mode.S11?)
    && (m.rx.mode.ScrambledOnes1200? || m.rx.mode.WaitForOnes2400? || m.rx.mode.RxNormal?)
  }

  /**
   For the calling side the schedule does not hold. Its S11 state is left only by
   receiver transitions that a retrain at 2400 bit/s no longer passes through:
   without a carrier loss or restart it sends S1 and scrambled ones for ever.
   */
  lemma {:induction false} CallerStranded(m: Modem, es: seq<Event>)
    requires m.calling && m.rate == 2400 && m.rx.mode.RxNormal?
    requires forall e :: e in es ==> Proper(e) && (e.Baud? || e.Decision?)
    requires es != [] && es[0].Decision? && RxDecision(m, es[0].nearest).retrain
    ensures Stranded(Run(m, es)) && !Run(m, es).tx.mode.TxNormal?
  {
    var n := |es| - 1;
    if n == 0 {
      assert Run(m, es[..0]) == m;
    } else {
      CallerStranded(m, es[..n]);
      var at := Run(m, es[..n]);
      assert es[n] in es;
      match es[n] {
        case Baud(offered) => StrandedSends(at, offered);
        case Decision(nearest) => StrandedHears(at, nearest);
      }
    }
  }

  lemma {:induction false} StrandedSends(m: Modem, offered: seq<Option<Bit>>)
    requires Stranded(m) && |offered| == 4
    ensures Stranded(m.(tx := TxBaud(m.tx, m.calling, m.rate, offered).tx))
  {
  }

  lemma {:induction false} StrandedHears(m: Modem, nearest: Index)
    requires Stranded(m)
    ensures Stranded(RxDecision(m, nearest).modem)
  {
  }

  // ------------------------------------------- exactly who recovers at 2400

  lemma {:induction false} RunAppend(m: Modem, es: seq<Event>, fs: seq<Event>)
    requires forall e :: e in es || e in fs ==> Proper(e)
    ensures forall e :: e in es + fs ==> Proper(e)
    ensures Run(m, es + fs) == Run(Run(m, es), fs)
  {
    if fs == [] {
      assert es + fs == es;
    } else {
      var n := |fs| - 1;
      RunAppend(m, es, fs[..n]);
      RunSnoc(m, es + fs[..n], fs[n]);
      assert es + fs == (es + fs[..n]) + [fs[n]];
    }
  }

  lemma {:induction false} RunSnoc(m: Modem, es: seq<Event>, e: Event)
    requires Proper(e) && forall x :: x in es ==> Proper(x)
    ensures forall x :: x in es + [e] ==> Proper(x)
    ensures Run(m, es + [e]) == React(Run(m, es), e)
  {
    assert (es + [e])[..|es|] == es;
  }

  /** Bauds with no data on offer. */
  function Silence(n: nat): (es: seq<Event>)
    ensures |es| == n
  {
    seq(n, _ => Baud([None, None, None, None]))
  }

  lemma {:induction false} SilenceIsCalm(m: Modem, n: nat)
    ensures (forall e :: e in Silence(n) ==> Proper(e)) && Calm(m, Silence(n)) && BaudCount(Silence(n)) == n
  {
    if n > 0 {
      SilenceIsCalm(m, n - 1);
      assert Silence(n)[..n - 1] == Silence(n - 1);
    }
  }

  /** A run of bauds and decisions that starts with the decision asking for a retrain. */
  ghost predicate StartsWith(es: seq<Event>, nearest: Index) {
    && es != [] && es[0] == Decision(nearest)
    && forall e :: e in es ==> Proper(e) && (e.Baud? || e.Decision?)
  }

  lemma {:induction false} AnswererRecovers(m: Modem, nearest: Index) returns (es: seq<Event>)
    requires !m.calling && m.rate == 2400 && RxDecision(m, nearest).retrain
    ensures StartsWith(es, nearest) && Run(m, es).tx.mode.TxNormal?
  {
    var m' := RxDecision(m, nearest).modem;
    RetrainRestartsSchedule(m, nearest);
    var ask: seq<Event> := [Decision(nearest)];
    assert ask[..0] == [] && Run(m, ask) == m';
    SilenceIsCalm(m', 480);
    RunAppend(m, ask, Silence(480));
    ReachesNormal(m', Silence(480));
    es := ask + Silence(480);
  }

  /**
   A modem in 2400 bit/s data that sees a retrain request can come back to data mode by
   bauds and decisions if and only if it is the answering one.
   */
  lemma {:induction false} RecoversExactly(m: Modem, nearest: Index)
    requires m.rate == 2400 && m.rx.mode.RxNormal? && RxDecision(m, nearest).retrain
    ensures (exists es :: StartsWith(es, nearest) && Run(m, es).tx.mode.TxNormal?) <==> !m.calling
  {
    if m.calling {
      forall es | StartsWith(es, nearest) ensures !Run(m, es).tx.mode.TxNormal? {
        CallerStranded(m, es);
      }
    } else {
      var es := AnswererRecovers(m, nearest);
    }
  }

  // -------------------------------------------------------- at 1200 bit/s

  /**
   At 1200 bit/s a retrain goes back to the search for S1, on either side. Every run in
   which the search hears none reaches data mode, 240 decisions and 453 symbols later.
   */
  lemma {:induction false} RecoversAt1200(m: Modem, nearest: Index, es: seq<Event>, fs: seq<Event>)
    requires forall e :: e in es || e in fs ==> Proper(e)
    requires m.rate == 1200 && m.rx.mode.RxNormal? && RxDecision(m, nearest).retrain
    requires var m' := RxDecision(m, nearest).modem;
             && Calm(m', es) && Unasked(m', es) && Calm(Run(m', es), fs)
             && es != [] && es[|es| - 1].Decision? && DecisionCount(es) == 240
    ensures var m' := RxDecision(m, nearest).modem;
            Run(Run(m', es), fs).tx.mode.TxNormal? <==> BaudCount(fs) >= 453
  {
    SearchEnds(RxDecision(m, nearest).modem, es, fs);
  }

  /** But a caller configured for 2400 that hears S1 in that search is stranded like the others. */
  lemma {:induction false} AskedStrands(m: Modem, nearest: Index)
    requires m.calling && m.bitRate == 2400 && Searching(m) && (m.tx.mode.U0011? || m.tx.mode.S11?)
    requires RxDecision(m, nearest).s1
    ensures Stranded(RxDecision(m, nearest).modem)
  {
  }

  // --------------------------------------- such a caller is really reached

  /** A calling modem configured for 2400 reached from its start. */
  ghost predicate Reached(m: Modem) {
    m.calling && m.bitRate == 2400
    && exists es :: (forall e :: e in es ==> Proper(e)) && Run(Restart(true, 2400), es) == m
  }

  lemma {:induction false} ReachedStart()
    ensures Reached(Restart(true, 2400))
  {
    assert Run(Restart(true, 2400), []) == Restart(true, 2400);
  }

  lemma {:induction false} KeepsSide(m: Modem, nearest: Index)
    ensures var m' := RxDecision(m, nearest).modem; m'.calling == m.calling && m'.bitRate == m.bitRate
  {
    match m.rx.mode {
      case RxNormal => assert DataDecision(m, nearest).modem.bitRate == m.bitRate;
      case ScrambledOnes1200 => SearchKeepsSide(m, nearest);
      case _ =>
    }
  }

  lemma {:induction false} SearchKeepsSide(m: Modem, nearest: Index)
    ensures var m' := HearScrambled(m, nearest).modem; m'.calling == m.calling && m'.bitRate == m.bitRate
  {
  }

  lemma {:induction false} ReachedOn(m: Modem, nearest: Index)
    requires Reached(m)
    ensures Reached(RxDecision(m, nearest).modem)
  {
    KeepsSide(m, nearest);
    var start := Restart(true, 2400);
    var es :| (forall e :: e in es ==> Proper(e)) && Run(start, es) == m;
    var on: seq<Event> := [Decision(nearest)];
    assert on[..0] == [];
    RunAppend(start, es, on);
    assert Run(m, on) == RxDecision(m, nearest).modem;
  }

  /** A decision that decodes as this raw dibit. */
  function NearestFor(state: Index, raw: Dibit): (nearest: Index)
    ensures RawDibit(state, nearest) == raw
  {
    QuadrantRoundTrip(state / 4, raw, state, 4 * Advance(state / 4, raw));
    4 * Advance(state / 4, raw)
  }

  lemma {:induction false} Acquires(m: Modem) returns (m': Modem)
    requires Reached(m) && m.rx.mode.SymbolAcquisition? && m.rx.count < 40
    ensures Reached(m') && m'.rx.mode.UnscrambledOnes? && m'.rx.count == 40 && m'.rate == 1200
    decreases 40 - m.rx.count
  {
    ReachedOn(m, 0);
    m' := RxDecision(m, 0).modem;
    if m'.rx.mode.SymbolAcquisition? { m' := Acquires(m'); }
  }

  lemma {:induction false} HearsOnes(m: Modem) returns (m': Modem)
    requires Reached(m) && m.rx.mode.UnscrambledOnes? && m.rx.count < 366 && m.rate == 1200
    ensures Reached(m') && m'.rx.mode.UnscrambledOnesSustaining? && m'.rate == 1200
    decreases 366 - m.rx.count
  {
    ReachedOn(m, 0);
    m' := RxDecision(m, 0).modem;
    if m'.rx.mode.UnscrambledOnes? { m' := HearsOnes(m'); }
  }

  lemma {:induction false} OnesEnd(m: Modem) returns (m': Modem)
    requires Reached(m) && m.rx.mode.UnscrambledOnesSustaining? && m.rate == 1200
    ensures Reached(m') && Searching(m') && m'.rx.count == 0
  {
    var other: Dibit := if m.rx.last == 0 then 1 else 0;
    var nearest := NearestFor(m.rx.state, other);
    ReachedOn(m, nearest);
    m' := RxDecision(m, nearest).modem;
  }

  /** Decisions that decode as the S1 pattern. */
  function Pattern(last: Index, n: nat): (nears: seq<Index>)
    ensures |nears| == n
  {
    if n == 0 then []
    else
      var before := Pattern(last, n - 1);
      before + [NearestFor(if n == 1 then last else before[n - 2], Ideal(0, n - 1))]
  }

  lemma {:induction false} PatternNewest(last: Index, n: nat)
    requires n > 0
    ensures var ds := RawDibits(last, Pattern(last, n));
            ds == RawDibits(last, Pattern(last, n - 1)) + [Ideal(0, n - 1)]
  {
    var before, nears := Pattern(last, n - 1), Pattern(last, n);
    assert nears[..n - 1] == before;
    assert n > 1 ==> nears[n - 2] == before[n - 2];
  }

  lemma {:induction false} PatternDecodes(last: Index, n: nat)
    ensures var ds := RawDibits(last, Pattern(last, n));
            Wrong(ds, 0, n) == 0 && forall k :: 0 <= k < n ==> ds[k] == Ideal(0, k)
  {
    if n > 0 {
      PatternDecodes(last, n - 1);
      PatternNewest(last, n);
      PatternGrows(RawDibits(last, Pattern(last, n - 1)), RawDibits(last, Pattern(last, n)));
    }
  }

  lemma {:induction false} PatternGrows(before: seq<Dibit>, ds: seq<Dibit>)
    requires ds == before + [Ideal(0, |before|)] && Wrong(before, 0, |before|) == 0
    requires forall k :: 0 <= k < |before| ==> before[k] == Ideal(0, k)
    ensures Wrong(ds, 0, |ds|) == 0 && forall k :: 0 <= k < |ds| ==> ds[k] == Ideal(0, k)
  {
    assert ds[..|before|] == before[..|before|];
    SamePrefixWrong(ds, before, |before|);
  }

  lemma {:induction false} SamePrefixWrong(a: seq<Dibit>, b: seq<Dibit>, n: nat)
    requires n <= |a| && n <= |b| && a[..n] == b[..n]
    ensures Wrong(a, 0, n) == Wrong(b, 0, n)
  {
    if n > 0 {
      assert a[n - 1] == a[..n][n - 1] == b[..n][n - 1] == b[n - 1];
      assert a[..n - 1] == a[..n][..n - 1] && b[..n - 1] == b[..n][..n - 1];
      SamePrefixWrong(a, b, n - 1);
    }
  }

  lemma {:induction false} ReachedHearing(m: Modem, nears: seq<Index>)
    requires Reached(m)
    ensures Reached(Hear(m, nears))
  {
    if nears != [] {
      ReachedHearing(m, nears[..|nears| - 1]);
      ReachedOn(Hear(m, nears[..|nears| - 1]), nears[|nears| - 1]);
    }
  }

  lemma {:induction false} S1Means2400(m: Modem, nearest: Index)
    requires RxDecision(m, nearest).s1 && m.bitRate == 2400
    ensures var m' := RxDecision(m, nearest).modem;
            m'.rx.mode.ScrambledOnes1200? && m'.rate == 2400 && m'.rx.count == 0
  {
    assert m.rx.mode.ScrambledOnes1200?;
    assert RxDecision(m, nearest) == HearScrambled(m, nearest);
  }

  lemma {:induction false} FindsS1(m: Modem) returns (m': Modem)
    requires Reached(m) && Searching(m) && m.rx.count == 0
    ensures Reached(m') && m'.rx.mode.ScrambledOnes1200? && m'.rate == 2400 && m'.rx.count == 0
  {
    var nears := Pattern(m.rx.state, 32);
    PatternDecodes(m.rx.state, 32);
    DetectsWithin32(m, nears, 0);
    var i :| 0 <= i < 32 && Detects(m, nears, i);
    var at := Hear(m, nears[..i]);
    ReachedHearing(m, nears[..i]);
    ReachedOn(at, nears[i]);
    S1Means2400(at, nears[i]);
    m' := RxDecision(at, nears[i]).modem;
  }

  lemma {:induction false} TurnsSixteen(m: Modem) returns (m': Modem)
    requires Reached(m) && m.rx.mode.ScrambledOnes1200? && m.rate == 2400 && m.rx.count < 330
    ensures Reached(m') && m'.rx.mode.WaitForOnes2400? && m'.rate == 2400 && m'.rx.sixteen && m'.rx.repeats == 0
    decreases 330 - m.rx.count
  {
    ReachedOn(m, 0);
    m' := RxDecision(m, 0).modem;
    if m'.rx.mode.ScrambledOnes1200? { m' := TurnsSixteen(m'); }
  }

  /** The decision for four ones scrambled with the receiver's own register. */
  lemma {:induction false} HearsFour(m: Modem) returns (nearest: Index)
    requires m.rx.mode.WaitForOnes2400? && m.rx.sixteen
    ensures Descramble(m.rx.scr, RawBits(true, m.rx.state, nearest)) == [1, 1, 1, 1]
  {
    var line := Scramble(m.rx.scr, [1, 1, 1, 1]);
    ScrambleLength(m.rx.scr, [1, 1, 1, 1]);
    RoundTrip(m.rx.scr, m.rx.scr, [1, 1, 1, 1]);
    nearest := SymbolFor(m.rx.state / 4, line);
    SymbolBits(m.rx.state, line);
  }

  lemma {:induction false} HearsFours(m: Modem) returns (m': Modem)
    requires Reached(m) && m.rx.mode.WaitForOnes2400? && m.rate == 2400 && m.rx.sixteen && m.rx.repeats < 9
    ensures Reached(m') && m'.rx.mode.RxNormal? && m'.rate == 2400 && m'.rx.last == 0
    decreases 9 - m.rx.repeats
  {
    var nearest := HearsFour(m);
    ReachedOn(m, nearest);
    m' := RxDecision(m, nearest).modem;
    if m'.rx.mode.WaitForOnes2400? { m' := HearsFours(m'); }
  }

  lemma {:induction false} HearsPattern(m: Modem) returns (m': Modem)
    requires Reached(m) && m.rx.mode.RxNormal? && m.rate == 2400 && Extreme(m.rx.last)
    ensures Reached(m') && m'.rx.mode.RxNormal? && m'.rate == 2400 && Extreme(m'.rx.last) && m'.rx.repeats >= 50
    decreases 50 - m.rx.repeats
  {
    if m.rx.repeats >= 50 {
      m' := m;
    } else {
      var nearest := NearestFor(m.rx.state, 3 - m.rx.last);
      ReachedOn(m, nearest);
      m' := HearsPattern(RxDecision(m, nearest).modem);
    }
  }

  /** A calling modem in 2400 bit/s data that is asked to retrain is reached from the start. */
  lemma {:induction false} RetrainReached() returns (m: Modem, nearest: Index)
    ensures Reached(m) && m.calling && m.rate == 2400 && m.rx.mode.RxNormal? && RxDecision(m, nearest).retrain
  {
    ReachedStart();
    m := Acquires(Restart(true, 2400));
    m := HearsOnes(m);
    m := OnesEnd(m);
    m := FindsS1(m);
    m := TurnsSixteen(m);
    m := HearsFours(m);
    m := HearsPattern(m);
    nearest := NearestFor(m.rx.state, m.rx.last);
  }
}
