/**
 The modem as the program holds it: a record with a transmit and a receive part that
 every symbol updates in place. Each method is proved to be the corresponding step of
 module V22bis.
 */
module ModemState {
  import opened Bits
  import opened Scrambler
  import opened Constellation
  import opened V22bis

  class State {
    var calling: bool
    var bitRate: nat
    var rate: nat
    var tx: Tx
    var rx: Rx

    function View(): Modem
      reads this
    {
      Modem(calling, bitRate, rate, tx, rx)
    }

    /** v22bis_init / v22bis_restart */
    constructor (calling: bool, bitRate: nat)
      ensures View() == Restart(calling, bitRate)
    {
      this.calling, this.bitRate, rate := calling, bitRate, 1200;
      tx := Tx(RESET, if calling then InitialSilence else TimedSilence, 0, 0, 0, false);
      rx := FreshRx();
    }

    /** v22bis_rx_restart: the transmitter is not touched. */
    method RestartRx()
      modifies this`rate, this`rx
      ensures View() == RxRestart(old(View()))
    {
      rx := Rx(RESET, SymbolAcquisition, 0, 0, false, 0, 0, Blank(32), 0);
      rate := 1200;
    }

    // ----------------------------------------------------------- transmit

    /** scramble */
    method Scramble(bit: Bit) returns (line: Bit)
      modifies this`tx
      ensures line == LineBit(old(tx).scr, bit) && tx == old(tx).(scr := Record(old(tx).scr, line))
    {
      var reg, ones, b := tx.scr.reg, tx.scr.ones, bit;
      if ones >= 64 {
        b := 1 - b;
        ones := 0;
      }
      line := Xor(b, Taps(reg));
      reg := Shift(reg, line);
      if line == 1 {
        ones := ones + 1;
      } else {
        ones := 0;
      }
      tx := tx.(scr := Lfsr(reg, ones));
    }

    /** get_scrambled_bit */
    method GetScrambledBit(offered: Option<Bit>) returns (line: Bit)
      modifies this`tx
      ensures (line, tx) == PullBit(old(tx), offered)
    {
      var bit: Bit := 1;
      if tx.user {
        match offered {
          case None => tx := tx.(user := false, shutdown := 1);
          case Some(b) => bit := b;
        }
      }
      line := Scramble(bit);
    }

    /** Two scrambled ones as a dibit. */
    method ScrambledOnes() returns (d: Dibit)
      modifies this`tx
      ensures (d, tx) == Ones2(old(tx))
    {
      var hi := Scramble(1);
      var lo := Scramble(1);
      d := Pair(hi, lo);
    }

    /** training_get */
    method TrainingGet() returns (symbol: Option<Index>)
      modifies this`tx
      ensures Sent(symbol, tx) == TrainingBaud(old(tx), calling, rate)
    {
      symbol := None;
      match tx.mode {
        case TimedSilence =>
          tx := tx.(count := tx.count + 1);
          if tx.count >= Symbols(75) {
            tx := tx.(count := 0, mode := U11);
          }
          tx := tx.(quadrant := 0);
        case InitialSilence =>
          tx := tx.(quadrant := 0);
        case U11 =>
          tx := tx.(quadrant := Advance(tx.quadrant, 3));
          symbol := Some(4 * tx.quadrant + 1);
        case U0011 => symbol := SendS1();
        case TimedS11 => symbol := SendTimedS11();
        case S11 => symbol := SendS11();
        case S1111 => symbol := SendS1111();
        case _ =>
      }
    }

    method SendS1() returns (symbol: Option<Index>)
      requires tx.mode.U0011?
      modifies this`tx
      ensures Sent(symbol, tx) == TrainingBaud(old(tx), calling, rate)
    {
      tx := tx.(quadrant := Advance(tx.quadrant, 3 * (tx.count % 2)), count := tx.count + 1);
      if tx.count >= Symbols(100) {
        if calling {
          tx := tx.(count := 0, mode := S11);
        } else {
          tx := tx.(count := Symbols(756 - (600 - 100)), mode := TimedS11);
        }
      }
      symbol := Some(4 * tx.quadrant + 1);
    }

    method SendS11() returns (symbol: Option<Index>)
      modifies this`tx
      ensures Sent(symbol, tx) == PskOnes(old(tx))
    {
      var d := ScrambledOnes();
      tx := tx.(quadrant := Advance(tx.quadrant, d));
      symbol := Some(4 * tx.quadrant + 1);
    }

    /** The timed state falls through to the untimed one. */
    method SendTimedS11() returns (symbol: Option<Index>)
      requires tx.mode.TimedS11?
      modifies this`tx
      ensures Sent(symbol, tx) == TrainingBaud(old(tx), calling, rate)
    {
      tx := tx.(count := tx.count + 1);
      if tx.count >= Symbols(756) {
        if rate == 2400 {
          tx := tx.(count := 0, mode := S1111);
        } else {
          tx := tx.(count := 0, mode := TxNormal, user := true);
        }
      }
      symbol := SendS11();
    }

    method SendS1111() returns (symbol: Option<Index>)
      requires tx.mode.S1111?
      modifies this`tx
      ensures Sent(symbol, tx) == TrainingBaud(old(tx), calling, rate)
    {
      symbol := SendQam();
      tx := tx.(count := tx.count + 1);
      if tx.count >= Symbols(200) {
        tx := tx.(count := 0, mode := TxNormal, user := true);
      }
    }

    method SendQam() returns (symbol: Option<Index>)
      modifies this`tx
      ensures Sent(symbol, tx) == QamOnes(old(tx))
    {
      var d := ScrambledOnes();
      tx := tx.(quadrant := Advance(tx.quadrant, d));
      var low := ScrambledOnes();
      symbol := Some(4 * tx.quadrant + low);
    }

    /** The data part of getbaud: two or four bits make a symbol. */
    method DataGet(offered: seq<Option<Bit>>) returns (symbol: Option<Index>)
      requires |offered| == 2 || |offered| == 4
      modifies this`tx
      ensures Sent(symbol, tx) == DataBaud(old(tx), offered)
    {
      var bits: seq<Bit> := [];
      for i := 0 to |offered|
        invariant |bits| == i && (bits, tx) == PullBits(old(tx), offered[..i])
      {
        assert offered[..i + 1][..i] == offered[..i];
        var b := GetScrambledBit(offered[i]);
        bits := bits + [b];
      }
      assert offered[..|offered|] == offered;
      PullBitsKeeps(old(tx), offered);
      tx := tx.(quadrant := Advance(tx.quadrant, Pair(bits[0], bits[1])));
      var low := if |offered| == 2 then 1 else Pair(bits[2], bits[3]);
      symbol := Some(4 * tx.quadrant + low);
    }

    /** getbaud */
    method GetBaud(offered: seq<Option<Bit>>) returns (symbol: Option<Index>)
      requires |offered| == 4
      modifies this`tx
      ensures Sent(symbol, tx) == TxBaud(old(tx), calling, rate, offered)
    {
      if tx.mode != TxNormal {
        symbol := TrainingGet();
        return;
      }
      if tx.shutdown > 0 {
        tx := tx.(shutdown := tx.shutdown + 1);
        if tx.shutdown > 10 {
          return None;
        }
      }
      symbol := DataGet(if rate == 1200 then offered[..2] else offered);
    }

    // ------------------------------------------------------------ receive

    /** descramble */
    method DescrambleBit(line: Bit) returns (bit: Bit)
      modifies this`rx
      ensures bit == DataBit(old(rx).scr, line) && rx == old(rx).(scr := Record(old(rx).scr, line))
    {
      var reg, ones := rx.scr.reg, rx.scr.ones;
      bit := Xor(line, Taps(reg));
      reg := Shift(reg, line);
      if ones >= 64 {
        bit := 1 - bit;
        ones := 0;
      }
      if line == 1 {
        ones := ones + 1;
      } else {
        ones := 0;
      }
      rx := rx.(scr := Lfsr(reg, ones));
    }

    /** decode_baud and decode_baudx: quadrant bits, then the bits within the quadrant. */
    method DecodeBaud(nearest: Index) returns (bits: seq<Bit>)
      modifies this`rx
      ensures bits == Descramble(old(rx).scr, RawBits(old(rx).sixteen, old(rx).state, nearest))
      ensures rx == Follow(old(rx), nearest)
    {
      var raw := RawDibit(rx.state, nearest);
      rx := rx.(state := nearest);
      ghost var s := rx.scr;
      var b0 := DescrambleBit(raw / 2);
      var b1 := DescrambleBit(raw % 2);
      bits := [b0, b1];
      DescrambleTwo(s, raw / 2, raw % 2);
      if rx.sixteen {
        s := rx.scr;
        var b2 := DescrambleBit(nearest / 2 % 2);
        var b3 := DescrambleBit(nearest % 2);
        bits := bits + [b2, b3];
        DescrambleTwo(s, nearest / 2 % 2, nearest % 2);
        DescrambleSplit(old(rx).scr, [raw / 2, raw % 2], [nearest / 2 % 2, nearest % 2]);
      } else {
        assert RawBits(false, old(rx).state, nearest) == [raw / 2, raw % 2];
      }
    }

    /** The loop over adjacent dibits of the raw history. */
    method CountAlternations() returns (alt: nat)
      ensures alt == Alternations(rx.history, 31)
    {
      alt := 0;
      for k := 0 to 31
        invariant alt == Alternations(rx.history, k)
      {
        if Complementary(rx.history[k], rx.history[k + 1]) {
          alt := alt + 1;
        }
      }
    }

    /** The 1200 bit/s part of the scrambled-ones state, after the symbol was counted. */
    method LookForS1(raw: Dibit) returns (s1: bool)
      modifies this`rate, this`tx, this`rx
      ensures Heard(View(), [], false, s1) == SearchS1(old(View()), raw)
    {
      rx := rx.(history := [raw] + rx.history[..31], histCount := rx.histCount + 1);
      if rx.histCount >= 16 {
        var alt := CountAlternations();
        rx := rx.(repeats := if alt >= 23 && Extreme(rx.last) then alt else 0);
      }
      if rx.repeats >= 23 && Extreme(rx.last) {
        if bitRate == 2400 {
          if !calling {
            tx := tx.(mode := U0011, count := 0);
          }
          rate := 2400;
        }
        rx := rx.(repeats := 0, histCount := 0, count := 0);
        return true;
      }
      if rx.count >= Symbols(400) {
        tx := tx.(count := 0, mode := TimedS11);
        rx := rx.(mode := if calling then RxNormal else ScrambledOnes1200Sustaining);
      }
      return false;
    }

    method HearScrambledOnes(nearest: Index) returns (s1: bool)
      requires rx.mode.ScrambledOnes1200?
      modifies this`rate, this`tx, this`rx
      ensures Heard(View(), [], false, s1) == HearScrambled(old(View()), nearest)
    {
      s1 := false;
      var raw := RawDibit(rx.state, nearest);
      var _ := DecodeBaud(nearest);
      rx := rx.(count := rx.count + 1);
      if rate == 1200 {
        s1 := LookForS1(raw);
      } else if rx.count >= (if calling then Symbols(100 + 450) else Symbols(450)) {
        rx := rx.(sixteen := true, mode := WaitForOnes2400, repeats := 0);
      }
      rx := rx.(last := raw);
    }

    method DataMode(nearest: Index) returns (bits: seq<Bit>, retrain: bool)
      modifies this`tx, this`rx
      ensures Heard(View(), bits, retrain, false) == DataDecision(old(View()), nearest)
    {
      retrain := false;
      var raw := RawDibit(rx.state, nearest);
      if Complementary(rx.last, raw) {
        rx := rx.(repeats := rx.repeats + 1);
      } else {
        if rx.repeats >= 50 && Extreme(rx.last) {
          retrain := true;
          rx := rx.(count := 0, mode := ScrambledOnes1200);
          tx := tx.(count := 0, mode := U0011);
        }
        rx := rx.(repeats := 0);
      }
      bits := DecodeBaud(nearest);
      rx := rx.(last := raw);
    }

    method FirstOnes(nearest: Index)
      requires rx.mode.UnscrambledOnes?
      modifies this`tx, this`rx
      ensures View() == HearUnscrambled(old(View()), nearest)
    {
      var raw := RawDibit(rx.state, nearest);
      rx := rx.(state := nearest, repeats := if raw != rx.last then 0 else rx.repeats + 1,
                count := rx.count + 1);
      if rx.count == Symbols(155 + 456) {
        if raw == rx.last && Extreme(raw) && rx.repeats >= Symbols(456) {
          tx := tx.(mode := if bitRate == 2400 then U0011 else S11, count := 0);
        }
        rx := rx.(repeats := 0, count := 0, mode := UnscrambledOnesSustaining);
      }
      rx := rx.(last := raw);
    }

    method OnesEnd(nearest: Index)
      requires rx.mode.UnscrambledOnesSustaining?
      modifies this`tx, this`rx
      ensures View() == AwaitEndOfOnes(old(View()), nearest)
    {
      var raw := RawDibit(rx.state, nearest);
      rx := rx.(state := nearest);
      if raw != rx.last {
        tx := tx.(count := 0, mode := TimedS11);
        rx := rx.(count := 0, mode := ScrambledOnes1200, repeats := 0);
      }
      rx := rx.(last := raw);
    }

    method WaitForData(nearest: Index)
      requires rx.mode.WaitForOnes2400?
      modifies this`rx
      ensures View() == AwaitOnes2400(old(View()), nearest)
    {
      var bits := DecodeBaud(nearest);
      if bits == [1, 1, 1, 1] {
        rx := rx.(repeats := rx.repeats + 1);
        if rx.repeats >= 9 {
          rx := rx.(mode := RxNormal);
        }
      } else {
        rx := rx.(repeats := 0);
      }
      rx := rx.(last := 0);
    }

    method Acquiring()
      requires rx.mode.SymbolAcquisition?
      modifies this`rate, this`rx
      ensures View() == Acquire(old(View()))
    {
      rx := rx.(count := rx.count + 1);
      if rx.count >= 40 {
        rx := rx.(repeats := 0, mode := if calling then UnscrambledOnes else ScrambledOnes1200);
        rate := 1200;
      }
      rx := rx.(last := 0);
    }

    method Sustain(nearest: Index)
      requires rx.mode.ScrambledOnes1200Sustaining?
      modifies this`rx
      ensures View() == SustainScrambled(old(View()), nearest)
    {
      var _ := DecodeBaud(nearest);
      rx := rx.(count := rx.count + 1);
      if rx.count > Symbols(270 + 765) {
        rx := rx.(mode := RxNormal);
      }
      rx := rx.(last := 0);
    }

    /** The training switch of process_half_baud, for a whole baud. */
    method ProcessBaud(nearest: Index) returns (bits: seq<Bit>, retrain: bool, s1: bool)
      modifies this`rate, this`tx, this`rx
      ensures Heard(View(), bits, retrain, s1) == RxDecision(old(View()), nearest)
    {
      bits, retrain, s1 := [], false, false;
      match rx.mode {
        case RxNormal => bits, retrain := DataMode(nearest);
        case SymbolAcquisition => Acquiring();
        case UnscrambledOnes => FirstOnes(nearest);
        case UnscrambledOnesSustaining => OnesEnd(nearest);
        case ScrambledOnes1200 => s1 := HearScrambledOnes(nearest);
        case ScrambledOnes1200Sustaining => Sustain(nearest);
        case WaitForOnes2400 => WaitForData(nearest);
        case RxParked => rx := rx.(last := 0);
      }
    }

    // --------------------------------------------------------- whole runs

    /** v22bis_set_bit_rate: both sides start over. */
    method SetBitRate(bitRate: nat)
      modifies this`bitRate, this`rate, this`tx, this`rx
      ensures View() == Restart(calling, bitRate)
    {
      this.bitRate := bitRate;
      tx := Tx(RESET, if calling then InitialSilence else TimedSilence, 0, 0, 0, false);
      RestartRx();
    }

    method Meet(e: Event) returns (symbols: seq<Option<Index>>, bits: seq<Bit>)
      requires Proper(e)
      modifies this`bitRate, this`rate, this`tx, this`rx
      ensures View() == React(old(View()), e)
      ensures symbols == match e
                         case Baud(offered) => [TxBaud(old(tx), calling, old(rate), offered).symbol]
                         case _ => []
      ensures bits == match e case Decision(nearest) => RxDecision(old(View()), nearest).bits case _ => []
    {
      symbols, bits := [], [];
      match e {
        case Baud(offered) =>
          var symbol := GetBaud(offered);
          symbols := [symbol];
        case Decision(nearest) =>
          var heard, _, _ := ProcessBaud(nearest);
          bits := heard;
        case CarrierLost => RestartRx();
        case SetBitRate(bitRate) => SetBitRate(bitRate);
      }
    }

    /** Any sequence of events: the symbols sent, the bits delivered, and a safe state throughout. */
    method Perform(es: seq<Event>) returns (symbols: seq<Option<Index>>, bits: seq<Bit>)
      requires Safe(View()) && forall e :: e in es ==> Proper(e)
      modifies this`bitRate, this`rate, this`tx, this`rx
      ensures View() == Run(old(View()), es) && Safe(View())
      ensures symbols == Output(old(View()), es) && bits == Delivered(old(View()), es)
    {
      symbols, bits := [], [];
      ghost var m := View();
      for i := 0 to |es|
        invariant View() == Run(m, es[..i])
        invariant symbols == Output(m, es[..i]) && bits == Delivered(m, es[..i])
      {
        assert es[..i + 1][..i] == es[..i];
        var s, b := Meet(es[i]);
        symbols, bits := symbols + s, bits + b;
      }
      assert es[..|es|] == es;
      SafeRun(m, es);
    }
  }

  lemma {:induction false} DescrambleTwo(s: Lfsr, a: Bit, b: Bit)
    ensures Descramble(s, [a, b]) == [DataBit(s, a), DataBit(Record(s, a), b)]
    ensures After(s, [a, b]) == Record(Record(s, a), b)
  {
    assert [a, b][1..] == [b] && [b][1..] == [];
    assert After(Record(s, a), [b]) == Record(Record(s, a), b);
    assert Descramble(Record(s, a), [b]) == [DataBit(Record(s, a), b)];
  }

  lemma {:induction false} DescrambleSplit(s: Lfsr, x: seq<Bit>, y: seq<Bit>)
    ensures Descramble(s, x + y) == Descramble(s, x) + Descramble(After(s, x), y)
    ensures After(s, x + y) == After(After(s, x), y)
    decreases |x|
  {
    if x == [] {
      assert x + y == y;
    } else {
      assert (x + y)[1..] == x[1..] + y;
      DescrambleSplit(Record(s, x[0]), x[1..], y);
    }
  }
}
