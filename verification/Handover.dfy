/**
 From training to data: a modem that hears the other's scrambled ones correctly is in the
 state the link between them starts from (src/modem/v22bis/v22bis_tx.c:114-151 against
 src/modem/v22bis/v22bis_rx.c:376-512).
 */
module Handover {
  import opened Bits
  import opened Scrambler
  import opened Constellation
  import opened V22bis
  import opened Async
  import L = Link

  /** A sending and a receiving modem. */
  datatype Ends = Ends(t: Modem, r: Modem)

  /** A baud of training that is decided as it was sent. */
  function Exchange(p: Ends): Ends {
    var s := TrainingBaud(p.t.tx, p.t.calling, p.t.rate);
    Ends(p.t.(tx := s.tx), if s.symbol.Some? then RxDecision(p.r, s.symbol.value).modem else p.r)
  }

  function Exchanges(p: Ends, n: nat): Ends {
    Repeated(Exchange, p, n)
  }

  function Repeated<T>(step: T -> T, x: T, n: nat): T {
    if n == 0 then x else Repeated(step, step(x), n - 1)
  }

  /** The receiver runs its descrambler. */
  predicate Following(mode: RxMode) {
    mode.ScrambledOnes1200? || mode.ScrambledOnes1200Sustaining? || mode.WaitForOnes2400? || mode.RxNormal?
  }

  /** Scrambled ones are sent, and taken as symbols of as many bits. */
  predicate Matched(p: Ends) {
    && Following(p.r.rx.mode)
    && (p.t.tx.mode.S1111? || p.t.tx.mode.S11? || p.t.tx.mode.TimedS11?)
    && (p.t.tx.mode.S1111? <==> p.r.rx.sixteen)
  }

  predicate AllMatched(p: Ends, n: nat) {
    Throughout(Exchange, Matched, p, n)
  }

  predicate Throughout<T>(step: T -> T, good: T -> bool, x: T, n: nat) {
    n == 0 || (good(x) && Throughout(step, good, step(x), n - 1))
  }

  function BitsOf(mode: TxMode): nat {
    if mode.S1111? then 4 else 2
  }

  lemma {:induction false} OnesDibit(t: Tx)
    ensures var line := Scramble(t.scr, Ones(2));
            |line| == 2 && Ones2(t) == (Pair(line[0], line[1]), t.(scr := After(t.scr, line)))
  {
    var a := LineBit(t.scr, 1);
    var s := Record(t.scr, a);
    var b := LineBit(s, 1);
    assert Ones(2)[1..] == Ones(1) && Ones(1)[1..] == [];
    assert Scramble(s, Ones(1)) == [b];
    assert Scramble(t.scr, Ones(2)) == [a, b];
    assert [a, b][1..] == [b] && [b][1..] == [];
    assert After(s, [b]) == Record(s, b);
  }

  /** The symbol of some scrambled bits, and the sender after it. */
  predicate Carries(t: Tx, s: Sent, line: seq<Bit>) {
    && (|line| == 2 || |line| == 4) && s.symbol == Some(SymbolFor(t.quadrant, line))
    && s.tx.scr == After(t.scr, line) && s.tx.quadrant == SymbolFor(t.quadrant, line) / 4
  }

  lemma {:induction false} PskSent(t: Tx)
    ensures Carries(t, PskOnes(t), Scramble(t.scr, Ones(2)))
  {
    OnesDibit(t);
    SymbolQuadrant(t.quadrant, Scramble(t.scr, Ones(2)));
  }

  lemma {:induction false} FourOnes(s: Lfsr)
    ensures var first := Scramble(s, Ones(2));
            var s' := After(s, first);
            && Scramble(s, Ones(4)) == first + Scramble(s', Ones(2))
            && After(s, Scramble(s, Ones(4))) == After(s', Scramble(s', Ones(2)))
  {
    assert Ones(2) + Ones(2) == Ones(4);
    ScrambleAppend(s, Ones(2), Ones(2));
    var first := Scramble(s, Ones(2));
    AfterAppend(s, first, Scramble(After(s, first), Ones(2)));
  }

  lemma {:induction false} QamSent(t: Tx)
    ensures Carries(t, QamOnes(t), Scramble(t.scr, Ones(4)))
  {
    var (d, t') := Ones2(t);
    var u := t'.(quadrant := Advance(t.quadrant, d));
    OnesDibit(t);
    OnesDibit(u);
    FourOnes(t.scr);
    QamCarries(t, Scramble(t.scr, Ones(2)), Scramble(u.scr, Ones(2)));
  }

  lemma {:induction false} QamCarries(t: Tx, a: seq<Bit>, b: seq<Bit>)
    requires |a| == 2 && |b| == 2
    requires var (d, t') := Ones2(t);
             && d == Pair(a[0], a[1])
             && Ones2(t'.(quadrant := Advance(t.quadrant, d))).0 == Pair(b[0], b[1])
    requires QamOnes(t).tx.scr == After(t.scr, a + b)
    ensures Carries(t, QamOnes(t), a + b)
  {
    SymbolQuadrant(t.quadrant, a + b);
  }

  /** What a baud of scrambled ones sends: the symbol of the scrambled bits. */
  lemma {:induction false} OnesSent(t: Tx, calling: bool, rate: nat)
    requires t.mode.S1111? || t.mode.S11? || t.mode.TimedS11?
    ensures Carries(t, TrainingBaud(t, calling, rate), Scramble(t.scr, Ones(BitsOf(t.mode))))
  {
    if t.mode.S1111? {
      QamSent(t);
    } else {
      PskSent(if t.mode.S11? then t else CountS11(t, rate));
    }
  }

  /** What a decision does to the receiver's descrambler. */
  lemma {:induction false} Follows(m: Modem, nearest: Index)
    requires Following(m.rx.mode)
    ensures var r := RxDecision(m, nearest).modem.rx;
            r.state == nearest && r.scr == After(m.rx.scr, RawBits(m.rx.sixteen, m.rx.state, nearest))
  {
    match m.rx.mode {
      case ScrambledOnes1200 => SearchFollows(m, nearest);
      case _ =>
    }
  }

  lemma {:induction false} SearchFollows(m: Modem, nearest: Index)
    ensures var r := HearScrambled(m, nearest).modem.rx;
            r.state == nearest && r.scr == After(m.rx.scr, RawBits(m.rx.sixteen, m.rx.state, nearest))
  {
  }

  /** After k common line bits, in agreement on the quadrant. */
  predicate Common(p: Ends, p': Ends, line: seq<Bit>) {
    && p'.t.tx.scr == After(p.t.tx.scr, line) && p'.r.rx.scr == After(p.r.rx.scr, line)
    && p'.r.rx.state / 4 == p'.t.tx.quadrant
  }

  lemma {:induction false} ExchangeCommon(p: Ends)
    requires Matched(p) && p.r.rx.state / 4 == p.t.tx.quadrant
    ensures Common(p, Exchange(p), Scramble(p.t.tx.scr, Ones(BitsOf(p.t.tx.mode))))
  {
    OnesSent(p.t.tx, p.t.calling, p.t.rate);
    var line := Scramble(p.t.tx.scr, Ones(BitsOf(p.t.tx.mode)));
    ScrambleLength(p.t.tx.scr, Ones(BitsOf(p.t.tx.mode)));
    SymbolBits(p.r.rx.state, line);
    Follows(p.r, SymbolFor(p.t.tx.quadrant, line));
  }

  lemma {:induction false} CommonAdds(p: Ends, q: Ends, q': Ends, j: nat, b: nat)
    requires Common(p, q, Scramble(p.t.tx.scr, Ones(j))) && Common(q, q', Scramble(q.t.tx.scr, Ones(b)))
    ensures Common(p, q', Scramble(p.t.tx.scr, Ones(j + b)))
  {
    var s, r := p.t.tx.scr, p.r.rx.scr;
    var x, y := Scramble(s, Ones(j)), Scramble(q.t.tx.scr, Ones(b));
    ScrambleAppend(s, Ones(j), Ones(b));
    assert Ones(j) + Ones(b) == Ones(j + b);
    AfterAppend(s, x, y);
    AfterAppend(r, x, y);
  }

  lemma {:induction false} NothingShared(p: Ends)
    requires p.r.rx.state / 4 == p.t.tx.quadrant
    ensures Shared(p, p, 0)
  {
    assert Ones(0) == [] && Scramble(p.t.tx.scr, []) == [];
  }

  /** Both registers have taken k common line bits since p. */
  predicate Shared(p: Ends, q: Ends, k: nat) {
    Common(p, q, Scramble(p.t.tx.scr, Ones(k)))
  }

  lemma {:induction false} ExchangeShares(p: Ends, q: Ends, q': Ends, j: nat, k: nat)
    requires Shared(p, q, j) && Matched(q) && q' == Exchange(q) && k == j + BitsOf(q.t.tx.mode)
    ensures Shared(p, q', k)
  {
    ExchangeCommon(q);
    CommonAdds(p, q, q', j, BitsOf(q.t.tx.mode));
  }

  /** What every good step adds its width to, a run of them adds all their widths to. */
  lemma {:induction false} AddsUp<T>(step: T -> T, good: T -> bool, width: T -> nat, shared: (T, nat) -> bool,
                                     x: T, j: nat, n: nat) returns (k: nat)
    requires forall u: T, i: nat :: shared(u, i) && good(u) ==> width(u) >= 2 && shared(step(u), i + width(u))
    requires Throughout(step, good, x, n) && shared(x, j)
    ensures k >= j + 2 * n && shared(Repeated(step, x, n), k)
    decreases n
  {
    if n == 0 {
      k := j;
    } else {
      k := AddsUp(step, good, width, shared, step(x), j + width(x), n - 1);
    }
  }

  lemma {:induction false} ExchangesShare(p: Ends, n: nat) returns (k: nat)
    requires AllMatched(p, n) && p.r.rx.state / 4 == p.t.tx.quadrant
    ensures k >= 2 * n && Shared(p, Exchanges(p, n), k)
  {
    var shared := (q: Ends, j: nat) => Shared(p, q, j);
    var width := (q: Ends) => BitsOf(q.t.tx.mode);
    NothingShared(p);
    forall u: Ends, i: nat | shared(u, i) && Matched(u)
      ensures width(u) >= 2 && shared(Exchange(u), i + width(u))
    {
      ExchangeShares(p, u, Exchange(u), i, i + width(u));
    }
    k := AddsUp(Exchange, Matched, width, shared, p, 0, n);
  }

  /**
   Nine symbols of scrambled ones decided correctly, at either rate, put the receiver in
   lock with the sender and in agreement on the quadrant, whatever its descrambler held.
   */
  lemma {:induction false} TrainingLocks(p: Ends, n: nat)
    requires AllMatched(p, n) && n >= 9 && p.r.rx.state / 4 == p.t.tx.quadrant && Free(p.t.tx.scr)
    ensures var p' := Exchanges(p, n);
            InLock(p'.t.tx.scr, p'.r.rx.scr) && p'.r.rx.state / 4 == p'.t.tx.quadrant
  {
    var k := ExchangesShare(p, n);
    FreeZero(p.t.tx.scr, k);
    BurstRecovery(p.t.tx.scr, p.r.rx.scr, Ones(k), []);
  }

  /** One correct decision is enough to agree on the quadrant. */
  lemma {:induction false} QuadrantAgrees(p: Ends)
    requires Matched(p)
    ensures var p' := Exchange(p); p'.r.rx.state / 4 == p'.t.tx.quadrant
  {
    OnesSent(p.t.tx, p.t.calling, p.t.rate);
    Follows(p.r, TrainingBaud(p.t.tx, p.t.calling, p.t.rate).symbol.value);
  }

  /** All of training keeps the sender's scrambler out of the state in which ones repeat. */
  lemma {:induction false} TrainingKeepsFree(t: Tx, calling: bool, rate: nat)
    requires Free(t.scr)
    ensures Free(TrainingBaud(t, calling, rate).tx.scr)
  {
    if t.mode.S1111? || t.mode.S11? || t.mode.TimedS11? {
      OnesSent(t, calling, rate);
      FreeAlways(t.scr, BitsOf(t.mode));
    }
  }

  lemma {:induction false} DecisionKeepsScrambler(m: Modem, nearest: Index)
    ensures RxDecision(m, nearest).modem.tx.scr == m.tx.scr
  {
    match m.rx.mode {
      case RxNormal => assert DataDecision(m, nearest).modem.tx.scr == m.tx.scr;
      case ScrambledOnes1200 => SearchKeepsScrambler(m, nearest);
      case _ =>
    }
  }

  lemma {:induction false} SearchKeepsScrambler(m: Modem, nearest: Index)
    ensures HearScrambled(m, nearest).modem.tx.scr == m.tx.scr
  {
  }

  /** No state of the run sends user data. */
  predicate BeforeData(m: Modem, es: seq<Event>)
    requires forall e :: e in es ==> Proper(e)
  {
    !Run(m, es).tx.mode.TxNormal? && (es == [] || BeforeData(m, es[..|es| - 1]))
  }

  lemma {:induction false} EventKeepsFree(m: Modem, e: Event)
    requires Proper(e) && Free(m.tx.scr) && !m.tx.mode.TxNormal?
    ensures Free(React(m, e).tx.scr)
  {
    ResetIsFree();
    match e {
      case Baud(offered) => TrainingKeepsFree(m.tx, m.calling, m.rate);
      case Decision(nearest) => DecisionKeepsScrambler(m, nearest);
      case CarrierLost =>
      case SetBitRate(_) =>
    }
  }

  lemma {:induction false} ResetIsFree()
    ensures Free(RESET)
  {
    RunsFromReset(0);
    assert Ones(0) == [] && Scramble(RESET, []) == [] && After(RESET, []) == RESET;
  }

  /** So from its start to its first user bit the scrambler is free, whatever happens. */
  lemma {:induction false} FreeUntilData(calling: bool, bitRate: nat, es: seq<Event>)
    requires forall e :: e in es ==> Proper(e)
    requires es != [] ==> BeforeData(Restart(calling, bitRate), es[..|es| - 1])
    ensures Free(Run(Restart(calling, bitRate), es).tx.scr)
    decreases |es|
  {
    if es == [] {
      ResetIsFree();
    } else {
      var n := |es| - 1;
      assert es[n] in es;
      FreeUntilData(calling, bitRate, es[..n]);
      EventKeepsFree(Run(Restart(calling, bitRate), es[..n]), es[n]);
    }
  }

  /** A link between the two ends with nothing under way. */
  function Start(p: Ends): L.Link {
    L.Link(NO_FEED, p.t, [], p.r, [], true, IDLE, [], [], [], false)
  }

  lemma {:induction false} LockedIsSynchronised(p: Ends)
    requires p.t.tx.mode.TxNormal? && p.t.tx.shutdown == 0 && p.t.tx.user && p.r.rx.mode.RxNormal?
    requires (p.t.rate == 1200 || p.t.rate == 2400) && (p.r.rx.sixteen <==> p.t.rate == 2400)
    requires InLock(p.t.tx.scr, p.r.rx.scr) && p.r.rx.state / 4 == p.t.tx.quadrant
    ensures L.Synchronised(Start(p))
  {
    assert Line([]) == [];
  }

  /** The first correct decision agrees on the quadrant and leaves the scrambler as it should be. */
  lemma {:induction false} FirstExchange(p: Ends)
    requires Matched(p) && Free(p.t.tx.scr)
    ensures var q := Exchange(p); q.r.rx.state / 4 == q.t.tx.quadrant && Free(q.t.tx.scr)
  {
    QuadrantAgrees(p);
    TrainingKeepsFree(p.t.tx, p.t.calling, p.t.rate);
  }

  /**
   So training hands over: when, after ten or more such symbols, both ends are in normal
   operation at the same rate, the link between them is synchronised, and the bytes it
   carries come out as Link says.
   */
  lemma {:induction false} TrainingSynchronises(p: Ends, n: nat)
    requires Matched(p) && Free(p.t.tx.scr) && AllMatched(Exchange(p), n) && n >= 9
    requires var p' := Exchanges(Exchange(p), n);
             && p'.t.tx.mode.TxNormal? && p'.t.tx.shutdown == 0 && p'.t.tx.user
             && p'.r.rx.mode.RxNormal? && (p'.t.rate == 1200 || p'.t.rate == 2400)
             && (p'.r.rx.sixteen <==> p'.t.rate == 2400)
    ensures L.Synchronised(Start(Exchanges(Exchange(p), n)))
  {
    FirstExchange(p);
    TrainingLocks(Exchange(p), n);
    LockedIsSynchronised(Exchanges(Exchange(p), n));
  }

  // ------------------------------------------------ the last symbols of training

  /** n symbols of scrambled ones are left to send, to a receiver already in normal operation. */
  predicate Closing(p: Ends, n: nat) {
    && ClosingTx(p.t.tx, p.t.rate, n) && p.t.tx.shutdown == 0 && ClosingRx(p.r, p.t.rate, n)
  }

  predicate ClosingTx(t: Tx, rate: nat, n: nat) {
    if n == 0 then t.mode.TxNormal? && t.user && (rate == 1200 || rate == 2400)
    else || (rate == 2400 && t.mode.S1111? && t.count + n == Symbols(200))
         || (rate == 1200 && t.mode.TimedS11? && t.count + n == Symbols(756))
  }

  /** Too few alternations heard so far for n symbols more to be taken for a retrain request. */
  predicate ClosingRx(m: Modem, rate: nat, n: nat) {
    m.rx.mode.RxNormal? && (m.rx.sixteen <==> rate == 2400) && m.rx.repeats + n <= 50
  }

  lemma {:induction false} ClosingSends(t: Tx, calling: bool, rate: nat, n: nat)
    requires ClosingTx(t, rate, n + 1)
    ensures var s := TrainingBaud(t, calling, rate);
            ClosingTx(s.tx, rate, n) && s.tx.shutdown == t.shutdown && s.symbol.Some?
  {
  }

  lemma {:induction false} ClosingHears(m: Modem, rate: nat, n: nat, nearest: Index)
    requires ClosingRx(m, rate, n + 1)
    ensures ClosingRx(RxDecision(m, nearest).modem, rate, n)
  {
  }

  lemma {:induction false} ClosingStep(p: Ends, n: nat)
    requires Closing(p, n + 1)
    ensures Matched(p) && Closing(Exchange(p), n)
  {
    ClosingSends(p.t.tx, p.t.calling, p.t.rate, n);
    ClosingHears(p.r, p.t.rate, n, TrainingBaud(p.t.tx, p.t.calling, p.t.rate).symbol.value);
  }

  /** What each step lowers by one comes to nothing, with every step a good one. */
  lemma {:induction false} RunsDown<T>(step: T -> T, good: T -> bool, left: (T, nat) -> bool, x: T, n: nat)
    requires forall u: T, i: nat {:trigger left(u, i)} ::
               i > 0 && left(u, i) ==> good(u) && left(step(u), i - 1)
    requires left(x, n)
    ensures Throughout(step, good, x, n) && left(Repeated(step, x, n), 0)
    decreases n
  {
    if n > 0 {
      RunsDown(step, good, left, step(x), n - 1);
    }
  }

  lemma {:induction false} Closes(p: Ends, n: nat)
    requires Closing(p, n)
    ensures AllMatched(p, n) && Closing(Exchanges(p, n), 0)
  {
    var left := (u: Ends, i: nat) => Closing(u, i);
    forall u: Ends, i: nat | i > 0 && left(u, i) ensures Matched(u) && left(Exchange(u), i - 1) {
      ClosingStep(u, i - 1);
    }
    RunsDown(Exchange, Matched, left, p, n);
  }

  lemma {:induction false} OneThenRest<T>(step: T -> T, x: T, n: nat)
    requires n > 0
    ensures Repeated(step, x, n) == Repeated(step, step(x), n - 1)
  {
  }

  lemma {:induction false} FirstOfClosing(p: Ends, n: nat) returns (q: Ends)
    requires Closing(p, n) && n > 0 && Free(p.t.tx.scr)
    ensures Closing(q, n - 1) && q.r.rx.state / 4 == q.t.tx.quadrant && Free(q.t.tx.scr)
    ensures Exchanges(p, n) == Exchanges(q, n - 1)
  {
    q := Exchange(p);
    ClosingStep(p, n - 1);
    FirstExchange(p);
    OneThenRest(Exchange, p, n);
  }

  lemma {:induction false} ClosesInLock(p: Ends, n: nat, p': Ends)
    requires Closing(p, n) && n >= 9 && p.r.rx.state / 4 == p.t.tx.quadrant && Free(p.t.tx.scr)
    requires p' == Exchanges(p, n)
    ensures L.Synchronised(Start(p'))
  {
    Closes(p, n);
    TrainingLocks(p, n);
    LockedIsSynchronised(p');
  }

  /**
   With a receiver in normal operation ten symbols or more before the sender, and decisions
   as sent, the link is synchronised the moment the sender's first user bit is due.
   */
  lemma {:induction false} TrainingEndsSynchronised(p: Ends, n: nat)
    requires Closing(p, n) && n >= 10 && Free(p.t.tx.scr)
    ensures L.Synchronised(Start(Exchanges(p, n)))
  {
    var q := FirstOfClosing(p, n);
    ClosesInLock(q, n - 1, Exchanges(p, n));
  }
}
