/**
 The control side of the V.22bis modem, one call per symbol: what the transmitter
 sends in each training state (src/modem/v22bis/v22bis_tx.c) and what the receiver
 does with a decision (src/modem/v22bis/v22bis_rx.c, section 6.3 of ITU-T V.22bis).
 Signal levels, equaliser and carrier tracking are outside; a decision of the
 slicer is an input.
 */
module V22bis {
  import opened Bits
  import opened Scrambler
  import opened Constellation

  /** Symbols in a time in ms, at 600 symbols a second. */
  function Symbols(ms: nat): nat {
    ms * 600 / 1000
  }

  datatype TxMode = TxNormal | InitialSilence | TimedSilence | U11 | U0011 | S11 | TimedS11 | S1111 | TxParked

  datatype RxMode =
    | RxNormal
    | SymbolAcquisition
    | UnscrambledOnes
    | UnscrambledOnesSustaining
    | ScrambledOnes1200
    | ScrambledOnes1200Sustaining
    | WaitForOnes2400
    | RxParked

  /** `user`: bits come from the caller's get_bit, not from the fake ones. */
  datatype Tx = Tx(scr: Lfsr, mode: TxMode, count: nat, quadrant: Dibit, shutdown: nat, user: bool)

  /** 64 bits of raw history are 32 dibits, the newest first. */
  type History = h: seq<Dibit> | |h| == 32 witness Blank(32)

  function Blank(n: nat): seq<Dibit> {
    seq(n, _ => 0)
  }

  datatype Rx = Rx(
    scr: Lfsr, mode: RxMode, count: nat, state: Index, sixteen: bool,
    repeats: nat, last: Dibit, history: History, histCount: nat)

  datatype Modem = Modem(calling: bool, bitRate: nat, rate: nat, tx: Tx, rx: Rx)

  // ----------------------------------------------------------- transmitter

  /** get_scrambled_bit: `offered` is what the caller's get_bit would return, None for -1. */
  function PullBit(t: Tx, offered: Option<Bit>): (Bit, Tx) {
    var ended := t.user && offered.None?;
    var bit: Bit := if t.user && offered.Some? then offered.value else 1;
    var line := LineBit(t.scr, bit);
    var t' := t.(scr := Record(t.scr, line));
    (line, if ended then t'.(user := false, shutdown := 1) else t')
  }

  function PullBits(t: Tx, offered: seq<Option<Bit>>): (seq<Bit>, Tx) {
    if offered == [] then ([], t)
    else
      var (head, t') := PullBits(t, offered[..|offered| - 1]);
      var (b, t'') := PullBit(t', offered[|offered| - 1]);
      (head + [b], t'')
  }

  /** A baud: the symbol sent (None is silence) and the new transmitter. */
  datatype Sent = Sent(symbol: Option<Index>, tx: Tx)

  function Ones2(t: Tx): (Dibit, Tx) {
    var a := LineBit(t.scr, 1);
    var s := Record(t.scr, a);
    var b := LineBit(s, 1);
    (Pair(a, b), t.(scr := Record(s, b)))
  }

  /** Scrambled ones at 1200 bit/s. */
  function PskOnes(t: Tx): Sent {
    var (d, t') := Ones2(t);
    var q := Advance(t.quadrant, d);
    Sent(Some(4 * q + 1), t'.(quadrant := q))
  }

  function QamOnes(t: Tx): Sent {
    var (d, t') := Ones2(t);
    var q := Advance(t.quadrant, d);
    var (low, t'') := Ones2(t'.(quadrant := q));
    Sent(Some(4 * q + low), t'')
  }

  /** The timed run of scrambled ones counts its symbol before it is sent. */
  function CountS11(t: Tx, rate: nat): (t': Tx)
    ensures t'.scr == t.scr && t'.quadrant == t.quadrant
  {
    var t' := t.(count := t.count + 1);
    if t'.count < Symbols(756) then t'
    else if rate == 2400 then t'.(count := 0, mode := S1111)
    else t'.(count := 0, mode := TxNormal, user := true)
  }

  function TrainingBaud(t: Tx, calling: bool, rate: nat): Sent {
    match t.mode
    case TimedSilence =>
      var t' := if t.count + 1 >= Symbols(75) then t.(count := 0, mode := U11) else t.(count := t.count + 1);
      Sent(None, t'.(quadrant := 0))
    case InitialSilence => Sent(None, t.(quadrant := 0))
    case U11 =>
      var q := Advance(t.quadrant, 3);
      Sent(Some(4 * q + 1), t.(quadrant := q))
    case U0011 =>
      var q := Advance(t.quadrant, 3 * (t.count % 2));
      var t' := t.(quadrant := q, count := t.count + 1);
      Sent(Some(4 * q + 1),
           if t'.count < Symbols(100) then t'
           else if calling then t'.(count := 0, mode := S11)
           else t'.(count := Symbols(756 - (600 - 100)), mode := TimedS11))
    case TimedS11 =>
      PskOnes(CountS11(t, rate))
    case S11 => PskOnes(t)
    case S1111 =>
      var s := QamOnes(t);
      var n := s.tx.count + 1;
      Sent(s.symbol,
           if n < Symbols(200) then s.tx.(count := n) else s.tx.(count := 0, mode := TxNormal, user := true))
    case _ => Sent(None, t)
  }

  /** getbaud; `offered` are the results of up to four calls of the caller's get_bit. */
  function TxBaud(t: Tx, calling: bool, rate: nat, offered: seq<Option<Bit>>): Sent
    requires |offered| == 4
  {
    if !t.mode.TxNormal? then TrainingBaud(t, calling, rate)
    else
      var t0 := if t.shutdown > 0 then t.(shutdown := t.shutdown + 1) else t;
      if t0.shutdown > 10 then Sent(None, t0)
      else DataBaud(t0, if rate == 1200 then offered[..2] else offered)
  }

  /** The first two line bits advance the quadrant. */
  function NextQuadrant(quadrant: Dibit, line: seq<Bit>): Dibit
    requires |line| >= 2
  {
    Advance(quadrant, Pair(line[0], line[1]))
  }

  /** The other two, if any, choose the point within it. */
  function SymbolFor(quadrant: Dibit, line: seq<Bit>): Index
    requires |line| == 2 || |line| == 4
  {
    4 * NextQuadrant(quadrant, line) + if |line| == 2 then 1 else Pair(line[2], line[3])
  }

  lemma {:induction false} SymbolQuadrant(quadrant: Dibit, line: seq<Bit>)
    requires |line| == 2 || |line| == 4
    ensures SymbolFor(quadrant, line) / 4 == NextQuadrant(quadrant, line)
    ensures SymbolFor(quadrant, line) % 4 == if |line| == 2 then 1 else Pair(line[2], line[3])
  {
  }

  /** The receiver reads off a symbol the line bits that chose it. */
  lemma {:induction false} SymbolBits(state: Index, line: seq<Bit>)
    requires |line| == 2 || |line| == 4
    ensures RawBits(|line| == 4, state, SymbolFor(state / 4, line)) == line
  {
    var nearest := SymbolFor(state / 4, line);
    SymbolQuadrant(state / 4, line);
    QuadrantRoundTrip(state / 4, Pair(line[0], line[1]), state, nearest);
    RawBitsAre(|line| == 4, state, nearest, line);
  }

  function DataBaud(t: Tx, offered: seq<Option<Bit>>): Sent
    requires |offered| == 2 || |offered| == 4
  {
    var (line, t') := PullBits(t, offered);
    PullBitsLength(t, offered);
    Sent(Some(SymbolFor(t.quadrant, line)), t'.(quadrant := NextQuadrant(t.quadrant, line)))
  }

  lemma {:induction false} PullBitsLength(t: Tx, offered: seq<Option<Bit>>)
    ensures |PullBits(t, offered).0| == |offered|
  {
    if offered != [] { PullBitsLength(t, offered[..|offered| - 1]); }
  }

  // -------------------------------------------------------------- receiver

  /** Result of a decision: bits for the caller's put_bit and the status reported. */
  datatype Heard = Heard(modem: Modem, bits: seq<Bit>, retrain: bool, s1: bool)

  /** Adjacent complementary dibits among the newest n + 1. */
  function Alternations(h: History, n: nat): nat
    requires n <= 31
  {
    if n == 0 then 0
    else Alternations(h, n - 1) + if Complementary(h[n - 1], h[n]) then 1 else 0
  }

  /** `(a ^ b) == 3` */
  predicate Complementary(a: Dibit, b: Dibit) {
    a == 3 - b
  }

  predicate Extreme(d: Dibit) {
    d == 3 || d == 0
  }

  function WithTx(m: Modem, mode: TxMode): Modem {
    m.(tx := m.tx.(mode := mode, count := 0))
  }

  /** Search for S1 while receiving scrambled ones with 1200 bit/s agreed so far. */
  function SearchS1(m: Modem, raw: Dibit): Heard {
    var r := m.rx;
    var h: History := [raw] + r.history[..31];
    var hc := r.histCount + 1;
    var alt := Alternations(h, 31);
    var repeats := if hc < 16 then r.repeats else if alt >= 23 && Extreme(r.last) then alt else 0;
    var m1 := m.(rx := r.(history := h, histCount := hc, repeats := repeats));
    if repeats >= 23 && Extreme(r.last) then
      var m2 := if m.bitRate != 2400 then m1
                else (if m.calling then m1 else WithTx(m1, U0011)).(rate := 2400);
      Heard(m2.(rx := m2.rx.(repeats := 0, histCount := 0, count := 0)), [], false, true)
    else if r.count >= Symbols(400) then
      var m2 := WithTx(m1, TimedS11);
      Heard(m2.(rx := m2.rx.(mode := if m.calling then RxNormal else ScrambledOnes1200Sustaining)), [], false, false)
    else Heard(m1, [], false, false)
  }

  function Quiet(m: Modem): Heard {
    Heard(m, [], false, false)
  }

  /** Data mode: look for a retrain request, and pass the descrambled bits on. */
  function DataDecision(m: Modem, nearest: Index): Heard {
    var r := m.rx;
    var raw, bits := RawDibit(r.state, nearest), RawBits(r.sixteen, r.state, nearest);
    var alternates := Complementary(r.last, raw);
    var retrain := !alternates && r.repeats >= 50 && Extreme(r.last);
    var m1 := if retrain then WithTx(m, U0011) else m;
    var r1 := if retrain then r.(count := 0, mode := ScrambledOnes1200) else r;
    var r2 := r1.(repeats := if alternates then r.repeats + 1 else 0, state := nearest,
                  scr := After(r.scr, bits), last := raw);
    Heard(m1.(rx := r2), Descramble(r.scr, bits), retrain, false)
  }

  function Acquire(m: Modem): Modem {
    var r := m.rx.(count := m.rx.count + 1, last := 0);
    if r.count >= 40 then
      m.(rate := 1200,
         rx := r.(repeats := 0, mode := if m.calling then UnscrambledOnes else ScrambledOnes1200))
    else m.(rx := r)
  }

  /** Calling side only: the answerer's unscrambled ones. */
  function HearUnscrambled(m: Modem, nearest: Index): Modem {
    var raw := RawDibit(m.rx.state, nearest);
    var r := m.rx.(state := nearest, repeats := if raw != m.rx.last then 0 else m.rx.repeats + 1,
                   count := m.rx.count + 1, last := raw);
    if r.count == Symbols(155 + 456) then
      var steady := raw == m.rx.last && Extreme(raw) && r.repeats >= Symbols(456);
      var m1 := if steady then WithTx(m, if m.bitRate == 2400 then U0011 else S11) else m;
      m1.(rx := r.(repeats := 0, count := 0, mode := UnscrambledOnesSustaining))
    else m.(rx := r)
  }

  function AwaitEndOfOnes(m: Modem, nearest: Index): Modem {
    var raw := RawDibit(m.rx.state, nearest);
    var r := m.rx.(state := nearest, last := raw);
    if raw != m.rx.last then
      WithTx(m, TimedS11).(rx := r.(count := 0, mode := ScrambledOnes1200, repeats := 0))
    else m.(rx := r)
  }

  /** decode_baudx: the descrambler runs, the bits go nowhere. */
  function Follow(r: Rx, nearest: Index): Rx {
    r.(state := nearest, scr := After(r.scr, RawBits(r.sixteen, r.state, nearest)))
  }

  function HearScrambled(m: Modem, nearest: Index): Heard {
    var raw := RawDibit(m.rx.state, nearest);
    var r := Follow(m.rx, nearest).(count := m.rx.count + 1);
    var s :=
      if m.rate == 1200 then SearchS1(m.(rx := r), raw)
      else if r.count >= Symbols(if m.calling then 100 + 450 else 450) then
        Quiet(m.(rx := r.(sixteen := true, mode := WaitForOnes2400, repeats := 0)))
      else Quiet(m.(rx := r));
    s.(modem := s.modem.(rx := s.modem.rx.(last := raw)))
  }

  function SustainScrambled(m: Modem, nearest: Index): Modem {
    var r := Follow(m.rx, nearest).(count := m.rx.count + 1, last := 0);
    m.(rx := if r.count > Symbols(270 + 765) then r.(mode := RxNormal) else r)
  }

  /** Nine symbols of four ones in a row open the receiver at 2400 bit/s. */
  function AwaitOnes2400(m: Modem, nearest: Index): Modem {
    var ones := Descramble(m.rx.scr, RawBits(m.rx.sixteen, m.rx.state, nearest)) == [1, 1, 1, 1];
    var r := Follow(m.rx, nearest).(repeats := if ones then m.rx.repeats + 1 else 0, last := 0);
    m.(rx := if ones && r.repeats >= 9 then r.(mode := RxNormal) else r)
  }

  /** One slicer decision through the receiver's training switch. */
  function RxDecision(m: Modem, nearest: Index): Heard {
    match m.rx.mode
    case RxNormal => DataDecision(m, nearest)
    case SymbolAcquisition => Quiet(Acquire(m))
    case UnscrambledOnes => Quiet(HearUnscrambled(m, nearest))
    case UnscrambledOnesSustaining => Quiet(AwaitEndOfOnes(m, nearest))
    case ScrambledOnes1200 => HearScrambled(m, nearest)
    case ScrambledOnes1200Sustaining => Quiet(SustainScrambled(m, nearest))
    case WaitForOnes2400 => Quiet(AwaitOnes2400(m, nearest))
    case RxParked => Quiet(m.(rx := m.rx.(last := 0)))
  }

  // ------------------------------------------------------------- restarts

  function FreshRx(): Rx {
    Rx(RESET, SymbolAcquisition, 0, 0, false, 0, 0, Blank(32), 0)
  }

  /** v22bis_rx_restart, as carrier loss calls it: the transmitter is left alone. */
  function RxRestart(m: Modem): Modem {
    m.(rate := 1200, rx := FreshRx())
  }

  /** v22bis_restart, from v22bis_init and v22bis_set_bit_rate. */
  function Restart(calling: bool, bitRate: nat): Modem {
    Modem(calling, bitRate, 1200,
          Tx(RESET, if calling then InitialSilence else TimedSilence, 0, 0, 0, false), FreshRx())
  }

  // ------------------------------------------------------------------ runs

  datatype Event =
    | Baud(offered: seq<Option<Bit>>)   // the transmitter needs a symbol
    | Decision(nearest: Index)          // the slicer has decided a symbol
    | CarrierLost
    | SetBitRate(bitRate: nat)

  predicate Proper(e: Event) {
    e.Baud? ==> |e.offered| == 4
  }

  function React(m: Modem, e: Event): Modem
    requires Proper(e)
  {
    match e
    case Baud(offered) => m.(tx := TxBaud(m.tx, m.calling, m.rate, offered).tx)
    case Decision(nearest) => RxDecision(m, nearest).modem
    case CarrierLost => RxRestart(m)
    case SetBitRate(bitRate) => Restart(m.calling, bitRate)
  }

  function Run(m: Modem, es: seq<Event>): Modem
    requires forall e :: e in es ==> Proper(e)
  {
    if es == [] then m else React(Run(m, es[..|es| - 1]), es[|es| - 1])
  }

  // ---------------------------------------------------------------- safety

  /** What every reachable modem satisfies. */
  predicate Safe(m: Modem) {
    && (m.rate == 1200 || m.rate == 2400)
    && (m.bitRate != 2400 ==> m.rate == 1200)
    && (m.rx.sixteen ==> m.rate == 2400)
    && (Listening(m.rx.mode) ==> !m.rx.sixteen)
    && (m.rx.mode.WaitForOnes2400? ==> m.rx.sixteen)
    && (m.rx.mode.RxNormal? || m.rx.mode.ScrambledOnes1200Sustaining? ==> (m.rx.sixteen <==> m.rate == 2400))
    && (m.tx.mode.TxNormal? ==> m.tx.user || m.tx.shutdown > 0)
    && InTime(m.tx)
  }

  predicate Listening(mode: RxMode) {
    mode.SymbolAcquisition? || mode.UnscrambledOnes? || mode.UnscrambledOnesSustaining?
  }

  /** A timed training state never outstays its time. */
  predicate InTime(t: Tx) {
    match t.mode
    case TimedSilence => t.count < Symbols(75)
    case U0011 => t.count < Symbols(100)
    case TimedS11 => t.count < Symbols(756)
    case S1111 => t.count < Symbols(200)
    case _ => true
  }

  lemma {:induction false} PullBitsKeeps(t: Tx, offered: seq<Option<Bit>>)
    ensures var t' := PullBits(t, offered).1;
            && t'.mode == t.mode && t'.count == t.count && t'.quadrant == t.quadrant
            && (t'.user ==> t.user && t'.shutdown == t.shutdown)
            && (!t'.user ==> (t.user && t'.shutdown == 1) || (!t.user && t'.shutdown == t.shutdown))
  {
    if offered != [] { PullBitsKeeps(t, offered[..|offered| - 1]); }
  }

  lemma {:induction false} SafeTx(m: Modem, offered: seq<Option<Bit>>)
    requires Safe(m) && |offered| == 4
    ensures Safe(React(m, Baud(offered)))
  {
    if m.tx.mode.TxNormal? {
      SafeData(m, offered);
    } else {
      SafeTraining(m.tx, m.calling, m.rate);
    }
  }

  lemma {:induction false} SafeData(m: Modem, offered: seq<Option<Bit>>)
    requires Safe(m) && m.tx.mode.TxNormal? && |offered| == 4
    ensures var t := TxBaud(m.tx, m.calling, m.rate, offered).tx;
            t.mode.TxNormal? && (t.user || t.shutdown > 0)
  {
    var t0 := if m.tx.shutdown > 0 then m.tx.(shutdown := m.tx.shutdown + 1) else m.tx;
    PullBitsKeeps(t0, if m.rate == 1200 then offered[..2] else offered);
  }

  lemma {:induction false} SafeTraining(t: Tx, calling: bool, rate: nat)
    requires InTime(t) && !t.mode.TxNormal?
    ensures var t' := TrainingBaud(t, calling, rate).tx;
            InTime(t') && (t'.mode.TxNormal? ==> t'.user)
  {
  }

  lemma {:induction false} SafeRx(m: Modem, nearest: Index)
    requires Safe(m)
    ensures Safe(RxDecision(m, nearest).modem)
  {
    match m.rx.mode {
      case RxNormal => SafeDataDecision(m, nearest);
      case ScrambledOnes1200 => SafeScrambled(m, nearest);
      case _ =>
    }
  }

  lemma {:induction false} SafeDataDecision(m: Modem, nearest: Index)
    requires Safe(m) && m.rx.mode.RxNormal?
    ensures Safe(DataDecision(m, nearest).modem)
  {
  }

  lemma {:induction false} SafeScrambled(m: Modem, nearest: Index)
    requires Safe(m) && m.rx.mode.ScrambledOnes1200?
    ensures Safe(HearScrambled(m, nearest).modem)
  {
  }

  lemma {:induction false} SafeRun(m: Modem, es: seq<Event>)
    requires Safe(m) && forall e :: e in es ==> Proper(e)
    ensures Safe(Run(m, es))
  {
    if es != [] {
      var n := |es| - 1;
      var at := Run(m, es[..n]);
      SafeRun(m, es[..n]);
      assert es[n] in es;
      match es[n] {
        case Baud(offered) => SafeTx(at, offered);
        case Decision(nearest) => SafeRx(at, nearest);
        case _ =>
      }
    }
  }

  /**
   Training safety over every sequence of symbols, decisions, carrier losses and
   rate changes: sixteen-way decisions only at 2400, a 1200-only modem stays at
   1200, and in data mode receiver and transmitter use the same symbol width.
   */
  lemma {:induction false} AlwaysSafe(calling: bool, bitRate: nat, es: seq<Event>)
    requires forall e :: e in es ==> Proper(e)
    ensures Safe(Run(Restart(calling, bitRate), es))
  {
    SafeRun(Restart(calling, bitRate), es);
  }

  /** Two sequences of events that differ only in the user data on offer. */
  predicate SameButData(es: seq<Event>, fs: seq<Event>) {
    && |es| == |fs|
    && forall i :: 0 <= i < |es| ==> Proper(es[i]) && Proper(fs[i]) && (es[i] == fs[i] || (es[i].Baud? && fs[i].Baud?))
  }

  /** The symbols sent during a run. */
  function Output(m: Modem, es: seq<Event>): seq<Option<Index>>
    requires forall e :: e in es ==> Proper(e)
  {
    if es == [] then []
    else
      var n := |es| - 1;
      var e, at := es[n], Run(m, es[..n]);
      assert Proper(e);
      Output(m, es[..n]) + if e.Baud? then [TxBaud(at.tx, at.calling, at.rate, e.offered).symbol] else []
  }

  /** The bits delivered during a run. */
  function Delivered(m: Modem, es: seq<Event>): seq<Bit>
    requires forall e :: e in es ==> Proper(e)
  {
    if es == [] then []
    else
      var n := |es| - 1;
      Delivered(m, es[..n]) + if es[n].Decision? then RxDecision(Run(m, es[..n]), es[n].nearest).bits else []
  }

  /**
   User bits are pulled only in normal operation: what get_bit would return at any
   other time, in training or in a retrain, changes neither the modem nor what it sends.
   */
  lemma {:induction false} DataOnlyInNormal(m: Modem, es: seq<Event>, fs: seq<Event>)
    requires SameButData(es, fs)
    requires forall i :: 0 <= i < |es| && es[i] != fs[i] ==> !Run(m, es[..i]).tx.mode.TxNormal?
    ensures Run(m, es) == Run(m, fs) && Output(m, es) == Output(m, fs)
  {
    if es != [] {
      var n := |es| - 1;
      forall i | 0 <= i < n && es[..n][i] != fs[..n][i] ensures !Run(m, es[..n][..i]).tx.mode.TxNormal? {
        assert es[..n][..i] == es[..i];
      }
      DataOnlyInNormal(m, es[..n], fs[..n]);
    }
  }

  /** Bits reach put_bit only from a receiver in normal operation, and then 2 or 4 of them. */
  lemma {:induction false} DeliveredOnlyInNormal(m: Modem, nearest: Index)
    ensures RxDecision(m, nearest).bits != [] ==> m.rx.mode.RxNormal?
    ensures m.rx.mode.RxNormal? ==> |RxDecision(m, nearest).bits| == if m.rx.sixteen then 4 else 2
  {
    if m.rx.mode.RxNormal? {
      DescrambleLength(m.rx.scr, RawBits(m.rx.sixteen, m.rx.state, nearest));
    }
  }

  // ---------------------------------------------- progress of the answerer

  datatype Kind = S1Symbol | PskOnesSymbol | QamOnesSymbol | DataSymbol | OtherSymbol

  function KindOf(mode: TxMode): Kind {
    match mode
    case U0011 => S1Symbol
    case S11 => PskOnesSymbol
    case TimedS11 => PskOnesSymbol
    case S1111 => QamOnesSymbol
    case TxNormal => DataSymbol
    case _ => OtherSymbol
  }

  /** The schedule: 60 symbols of S1, 300 and 120 of scrambled ones, then data. */
  function Scheduled(k: nat): Kind {
    if k < 60 then S1Symbol else if k < 360 then PskOnesSymbol else if k < 480 then QamOnesSymbol else DataSymbol
  }

  predicate OnSchedule(m: Modem, k: nat) {
    && !m.calling && m.rate == 2400
    && (m.rx.mode.ScrambledOnes1200? || m.rx.mode.WaitForOnes2400? || m.rx.mode.RxNormal?)
    && (if k < 60 then m.tx.mode.U0011? && m.tx.count == k
        else if k < 360 then m.tx.mode.TimedS11? && m.tx.count == 153 + (k - 60)
        else if k < 480 then m.tx.mode.S1111? && m.tx.count == k - 360
        else m.tx.mode.TxNormal?)
  }

  /** A run without carrier loss, restart or retrain. */
  predicate Calm(m: Modem, es: seq<Event>)
    requires forall e :: e in es ==> Proper(e)
  {
    es == [] ||
    var n := |es| - 1;
    && Calm(m, es[..n])
    && (es[n].Baud? || (es[n].Decision? && !RxDecision(Run(m, es[..n]), es[n].nearest).retrain))
  }

  /** Kinds of the symbols sent in a run, in order. */
  function Kinds(m: Modem, es: seq<Event>): seq<Kind>
    requires forall e :: e in es ==> Proper(e)
  {
    if es == [] then []
    else
      var n := |es| - 1;
      Kinds(m, es[..n]) + if es[n].Baud? then [KindOf(Run(m, es[..n]).tx.mode)] else []
  }

  lemma {:induction false} BaudOnSchedule(m: Modem, k: nat, offered: seq<Option<Bit>>)
    requires OnSchedule(m, k) && |offered| == 4
    ensures KindOf(m.tx.mode) == Scheduled(k) && OnSchedule(React(m, Baud(offered)), k + 1)
  {
    if m.tx.mode.TxNormal? {
      var t0 := if m.tx.shutdown > 0 then m.tx.(shutdown := m.tx.shutdown + 1) else m.tx;
      PullBitsKeeps(t0, offered);
    }
  }

  lemma {:induction false} DecisionOnSchedule(m: Modem, k: nat, nearest: Index)
    requires OnSchedule(m, k) && !RxDecision(m, nearest).retrain
    ensures OnSchedule(RxDecision(m, nearest).modem, k)
  {
  }

  /** An answerer that accepts S1 starts the schedule. */
  lemma {:induction false} AcceptedS1(m: Modem, nearest: Index)
    requires !m.calling && m.bitRate == 2400 && RxDecision(m, nearest).s1
    ensures OnSchedule(RxDecision(m, nearest).modem, 0)
  {
  }

  /** So does an answerer whose receiver sees a retrain request in 2400 bit/s data. */
  lemma {:induction false} RetrainRestartsSchedule(m: Modem, nearest: Index)
    requires !m.calling && m.rate == 2400 && RxDecision(m, nearest).retrain
    ensures OnSchedule(RxDecision(m, nearest).modem, 0)
  {
  }

  /**
   Whatever the receiver decides meanwhile and however bauds and decisions are
   interleaved, the symbols sent from then on follow the schedule exactly.
   */
  lemma {:induction false} FollowsSchedule(m: Modem, es: seq<Event>)
    requires forall e :: e in es ==> Proper(e)
    requires OnSchedule(m, 0) && Calm(m, es)
    ensures OnSchedule(Run(m, es), |Kinds(m, es)|)
    ensures forall k :: 0 <= k < |Kinds(m, es)| ==> Kinds(m, es)[k] == Scheduled(k)
  {
    if es != [] {
      var n := |es| - 1;
      FollowsSchedule(m, es[..n]);
      var m1, k := Run(m, es[..n]), |Kinds(m, es[..n])|;
      assert Proper(es[n]);
      match es[n] {
        case Baud(offered) => BaudOnSchedule(m1, k, offered);
        case Decision(nearest) => DecisionOnSchedule(m1, k, nearest);
      }
    }
  }

  /** Bauds left to normal operation from a timed state. */
  function BaudsLeft(m: Modem): int {
    var t := m.tx;
    var tail := if m.rate == 2400 then Symbols(200) else 0;
    match t.mode
    case U0011 => Symbols(100) - t.count + (Symbols(756) - Symbols(256)) + tail
    case TimedS11 => Symbols(756) - t.count + tail
    case S1111 => Symbols(200) - t.count
    case _ => 0
  }

  predicate Timed(m: Modem) {
    m.tx.mode.TimedS11? || m.tx.mode.S1111? || (m.tx.mode.U0011? && !m.calling)
  }

  /** Every baud of a timed state brings normal operation one baud nearer. */
  lemma {:induction false} BaudsLeftDecreases(m: Modem, offered: seq<Option<Bit>>)
    requires InTime(m.tx) && Timed(m) && |offered| == 4
    ensures var m' := React(m, Baud(offered));
            && BaudsLeft(m) > 0 && BaudsLeft(m') == BaudsLeft(m) - 1
            && (Timed(m') || m'.tx.mode.TxNormal?)
  {
    TimedTicks(m.tx, m.calling, m.rate);
  }

  /** How a timed state counts its symbols and hands over to the next. */
  lemma {:induction false} TimedTicks(t: Tx, calling: bool, rate: nat)
    requires InTime(t)
    ensures var t', n := TrainingBaud(t, calling, rate).tx, t.count + 1;
            && (t.mode.U0011? && !calling ==>
                  if n < 60 then t'.mode.U0011? && t'.count == n else t'.mode.TimedS11? && t'.count == 153)
            && (t.mode.TimedS11? ==>
                  if n < 453 then t'.mode.TimedS11? && t'.count == n
                  else if rate == 2400 then t'.mode.S1111? && t'.count == 0 else t'.mode.TxNormal?)
            && (t.mode.S1111? ==>
                  if n < 120 then t'.mode.S1111? && t'.count == n else t'.mode.TxNormal?)
  {
  }

  /** The receiver no longer moves the transmitter, except by a retrain. */
  predicate Settled(m: Modem) {
    || m.rx.mode.RxNormal? || m.rx.mode.ScrambledOnes1200Sustaining? || m.rx.mode.WaitForOnes2400?
    || (m.rx.mode.ScrambledOnes1200? && m.rate == 2400)
  }

  function BaudCount(es: seq<Event>): nat {
    if es == [] then 0 else BaudCount(es[..|es| - 1]) + if es[|es| - 1].Baud? then 1 else 0
  }

  function DecisionCount(es: seq<Event>): nat {
    if es == [] then 0 else DecisionCount(es[..|es| - 1]) + if es[|es| - 1].Decision? then 1 else 0
  }

  lemma {:induction false} SettledHears(m: Modem, nearest: Index)
    requires Settled(m) && !RxDecision(m, nearest).retrain
    ensures var m' := RxDecision(m, nearest).modem;
            Settled(m') && m'.tx == m.tx && m'.rate == m.rate && m'.calling == m.calling
  {
  }

  lemma {:induction false} NormalStays(m: Modem, offered: seq<Option<Bit>>)
    requires m.tx.mode.TxNormal? && |offered| == 4
    ensures React(m, Baud(offered)).tx.mode.TxNormal?
  {
    var t0 := if m.tx.shutdown > 0 then m.tx.(shutdown := m.tx.shutdown + 1) else m.tx;
    PullBitsKeeps(t0, if m.rate == 1200 then offered[..2] else offered);
  }

  /** Where a calm run stands on its way from a timed state to normal operation. */
  predicate Underway(m: Modem, bauds: nat, m': Modem) {
    && Settled(m') && InTime(m'.tx) && m'.rate == m.rate && m'.calling == m.calling
    && if bauds < BaudsLeft(m) then Timed(m') && BaudsLeft(m') == BaudsLeft(m) - bauds else m'.tx.mode.TxNormal?
  }

  lemma {:induction false} UnderwaySends(m: Modem, bauds: nat, m': Modem, offered: seq<Option<Bit>>)
    requires Underway(m, bauds, m') && |offered| == 4
    ensures Underway(m, bauds + 1, React(m', Baud(offered)))
  {
    if m'.tx.mode.TxNormal? {
      NormalStays(m', offered);
    } else {
      BaudsLeftDecreases(m', offered);
      SafeTraining(m'.tx, m'.calling, m'.rate);
    }
  }

  lemma {:induction false} Progress(m: Modem, es: seq<Event>)
    requires forall e :: e in es ==> Proper(e)
    requires InTime(m.tx) && Timed(m) && Settled(m) && Calm(m, es)
    ensures Underway(m, BaudCount(es), Run(m, es))
  {
    if es == [] {
      BaudsLeftDecreases(m, [None, None, None, None]);
    } else {
      var n := |es| - 1;
      Progress(m, es[..n]);
      var at := Run(m, es[..n]);
      assert es[n] in es;
      match es[n] {
        case Baud(offered) => UnderwaySends(m, BaudCount(es[..n]), at, offered);
        case Decision(nearest) => SettledHears(at, nearest);
      }
    }
  }

  /**
   From a timed state whose receiver has settled, either side, at 1200 or at 2400: over
   every calm run of bauds and decisions the transmitter is in normal operation exactly
   when it has sent the symbols that were left.
   */
  lemma {:induction false} ReachesNormal(m: Modem, es: seq<Event>)
    requires forall e :: e in es ==> Proper(e)
    requires InTime(m.tx) && Timed(m) && Settled(m) && Calm(m, es)
    ensures Run(m, es).tx.mode.TxNormal? <==> BaudCount(es) >= BaudsLeft(m)
  {
    Progress(m, es);
  }

  // ------------------------------------------- a search that hears nothing

  /** Looking for S1 with 1200 bit/s agreed so far. */
  predicate Searching(m: Modem) {
    m.rx.mode.ScrambledOnes1200? && m.rate == 1200
  }

  /** No decision of the run takes what it hears for S1. */
  predicate Unasked(m: Modem, es: seq<Event>)
    requires forall e :: e in es ==> Proper(e)
  {
    es == [] ||
    var n := |es| - 1;
    Unasked(m, es[..n]) && (es[n].Decision? ==> !RxDecision(Run(m, es[..n]), es[n].nearest).s1)
  }

  lemma {:induction false} SearchHears(m: Modem, nearest: Index)
    requires Searching(m) && !RxDecision(m, nearest).s1
    ensures var m' := RxDecision(m, nearest).modem;
            if m.rx.count + 1 < Symbols(400) then
              Searching(m') && m'.rx.count == m.rx.count + 1
            else
              Settled(m') && Timed(m') && InTime(m'.tx) && BaudsLeft(m') == Symbols(756) && m'.rate == 1200
  {
  }

  lemma {:induction false} SearchGoesOn(m: Modem, es: seq<Event>)
    requires forall e :: e in es ==> Proper(e)
    requires Searching(m) && Calm(m, es) && Unasked(m, es) && m.rx.count + DecisionCount(es) < Symbols(400)
    ensures Searching(Run(m, es)) && Run(m, es).rx.count == m.rx.count + DecisionCount(es)
  {
    if es != [] {
      var n := |es| - 1;
      assert es[n] in es;
      SearchGoesOn(m, es[..n]);
      if es[n].Decision? { SearchHears(Run(m, es[..n]), es[n].nearest); }
    }
  }

  /**
   A search without S1 is over after 240 decisions, whatever is sent meanwhile: either
   side then sends 453 symbols of scrambled ones and is in normal operation at 1200.
   */
  lemma {:induction false} SearchEnds(m: Modem, es: seq<Event>, fs: seq<Event>)
    requires forall e :: e in es || e in fs ==> Proper(e)
    requires Searching(m) && Calm(m, es) && Unasked(m, es)
    requires es != [] && es[|es| - 1].Decision? && m.rx.count + DecisionCount(es) == Symbols(400)
    requires Calm(Run(m, es), fs)
    ensures Run(Run(m, es), fs).tx.mode.TxNormal? <==> BaudCount(fs) >= 453
    ensures Run(Run(m, es), fs).rate == 1200
  {
    var n := |es| - 1;
    assert es[n] in es;
    SearchGoesOn(m, es[..n]);
    SearchHears(Run(m, es[..n]), es[n].nearest);
    Progress(Run(m, es), fs);
  }
}
