/**
 One direction of a call in data mode, all layers together: bytes are framed into the
 transmit queue, scrambled, coded into symbols, received with noise, sliced, decoded,
 descrambled, deframed, staged and written to the PPP side (src/call/sm_call.c).
 */
module Link {
  import opened Bits
  import opened Scrambler
  import opened Constellation
  import opened Async
  import opened V22bis

  const STAGE_SIZE := 4096
  const PUMP_SIZE := 256

  /**
   A symbol on the line. Only `symbol` is what travels; the rest is the history of how
   it came about: the data bits in it and the transmitter's state before it.
   */
  datatype Flight = Flight(symbol: Index, bits: seq<Bit>, scr: Lfsr, quadrant: Dibit)

  datatype Link = Link(
    feed: Feed,             // transmit queue and what was pulled from it
    tx: Modem,              // sending modem
    line: seq<Flight>,      // symbols sent and not yet received
    rx: Modem,              // receiving modem
    got: seq<Bit>,          // data bits that arrived (history)
    dataMode: bool,         // the receiving call is in SM_CALL_DATA
    core: Core,             // deframer state
    held: seq<Byte>,        // bytes in the deframer
    staged: seq<Byte>,      // ppy_out
    written: seq<Byte>,     // bytes the PPP side has taken
    discarded: bool)        // the program has thrown bytes away

  datatype Event =
    | PushByte(b: Byte)
    | Send                            // the sending modem needs a symbol
    | Arrive(dx: real, dy: real)      // the oldest symbol arrives, displaced
    | Pump(taken: nat)                // pump_ppp; the PPP side takes up to `taken` bytes

  /** Noise of less than one unit per axis. */
  predicate Mild(e: Event) {
    e.Arrive? ==> -1.0 < e.dx < 1.0 && -1.0 < e.dy < 1.0
  }

  // ------------------------------------------------------------- the steps

  function Pulls(n: nat): seq<QueueOp> {
    seq(n, _ => Pull)
  }

  function Offers(bits: seq<Bit>): (o: seq<Option<Bit>>)
    ensures |o| == |bits|
  {
    seq(|bits|, i requires 0 <= i < |bits| => Some(bits[i]))
  }

  function Width(m: Modem): nat {
    if m.rate == 1200 then 2 else 4
  }

  /** A baud of the sending modem in data mode; call_get_bit answers its pulls. */
  function SendSymbol(l: Link): Link
    requires |FeedRun(l.feed, Pulls(Width(l.tx))).sent| == |l.feed.sent| + Width(l.tx)
  {
    var feed := FeedRun(l.feed, Pulls(Width(l.tx)));
    var bits := feed.sent[|l.feed.sent|..];
    var s := TxBaud(l.tx.tx, l.tx.calling, l.tx.rate, Offers(bits) + if |bits| == 2 then [None, None] else []);
    match s.symbol
    case None => l.(feed := feed, tx := l.tx.(tx := s.tx))
    case Some(i) =>
      l.(feed := feed, tx := l.tx.(tx := s.tx),
         line := l.line + [Flight(i, bits, l.tx.tx.scr, l.tx.tx.quadrant)])
  }

  /** Delivered bits through call_put_bit into the deframer. */
  function PutBits(core: Core, held: seq<Byte>, discarded: bool, bits: seq<Bit>): (Core, seq<Byte>, bool) {
    if bits == [] then (core, held, discarded)
    else
      var n := |bits| - 1;
      var (c, h, d) := PutBits(core, held, discarded, bits[..n]);
      var (c', h') := Deframed(c, h, bits[n]);
      (c', h', d || |h| >= OUT_SIZE)
  }

  /** The oldest symbol leaves the line and the slicer decides it. */
  function Heed(l: Link, dx: real, dy: real): Heard
    requires l.line != []
  {
    var p := POINTS[l.line[0].symbol];
    RxDecision(l.rx, Slice(l.rx.rx.sixteen, Point(p.re + dx, p.im + dy)))
  }

  /** A retrain request reinitialises the deframer and leaves data mode before any bit. */
  function Deliver(l: Link, heard: Heard): Link
    requires l.line != []
  {
    var l1 := l.(line := l.line[1..], rx := heard.modem);
    if heard.retrain then l1.(dataMode := false, core := IDLE, held := [])
    else if !l.dataMode then l1
    else
      var (core, held, discarded) := PutBits(l.core, l.held, l.discarded, heard.bits);
      l1.(core := core, held := held, discarded := discarded, got := l.got + l.line[0].bits)
  }

  function ArriveSymbol(l: Link, dx: real, dy: real): Link {
    if l.line == [] then l else Deliver(l, Heed(l, dx, dy))
  }

  /** Where a pump leaves the bytes. */
  datatype Moved = Moved(held: seq<Byte>, staged: seq<Byte>, written: seq<Byte>, lost: int)

  /** At most 256 bytes into the stage, what does not fit is lost; then flush. */
  function Move(held: seq<Byte>, staged: seq<Byte>, taken: nat): Moved {
    var n := Min(PUMP_SIZE, |held|);
    var fit := if STAGE_SIZE > |staged| then Min(n, STAGE_SIZE - |staged|) else 0;
    var all := staged + held[..fit];
    var w := Min(taken, |all|);
    Moved(held[n..], all[w..], all[..w], n - fit)
  }

  function PumpBytes(l: Link, taken: nat): Link {
    if !l.dataMode then l
    else
      var m := Move(l.held, l.staged, taken);
      l.(held := m.held, staged := m.staged, written := l.written + m.written,
         discarded := l.discarded || m.lost > 0)
  }

  lemma {:induction false} PullsAdd(f: Feed, n: nat)
    ensures |FeedRun(f, Pulls(n)).sent| == |f.sent| + n && f.sent <= FeedRun(f, Pulls(n)).sent
  {
    if n > 0 {
      assert Pulls(n)[..n - 1] == Pulls(n - 1);
      PullsAdd(f, n - 1);
    }
  }

  function Step(l: Link, e: Event): Link {
    match e
    case PushByte(b) => l.(feed := FeedStep(l.feed, Offer(b)))
    case Send => (PullsAdd(l.feed, Width(l.tx)); SendSymbol(l))
    case Arrive(dx, dy) => ArriveSymbol(l, dx, dy)
    case Pump(taken) => PumpBytes(l, taken)
  }

  function Run(l: Link, es: seq<Event>): Link {
    if es == [] then l else Step(Run(l, es[..|es| - 1]), es[|es| - 1])
  }

  // ------------------------------------------------------- synchronisation

  /** Both modems in data mode, scramblers in lock, quadrants equal, deframer at rest. */
  ghost predicate Synchronised(l: Link) {
    && Framed(l.feed) && l.feed.sent == [] && l.got == [] && l.line == []
    && Sending(l.tx)
    && l.dataMode && l.rx.rx.mode.RxNormal? && (l.rx.rx.sixteen <==> l.tx.rate == 2400)
    && InLock(l.tx.tx.scr, l.rx.rx.scr) && l.rx.rx.state / 4 == l.tx.tx.quadrant
    && l.core == IDLE && l.held == [] && l.staged == [] && l.written == [] && !l.discarded
  }

  predicate Sending(m: Modem) {
    m.tx.mode.TxNormal? && m.tx.user && m.tx.shutdown == 0 && (m.rate == 1200 || m.rate == 2400)
  }

  /** The symbol for some data bits. */
  function Coded(scr: Lfsr, quadrant: Dibit, bits: seq<Bit>): Index
    requires |bits| == 2 || |bits| == 4
  {
    ScrambleLength(scr, bits);
    SymbolFor(quadrant, Scramble(scr, bits))
  }

  predicate WellCoded(f: Flight, width: nat) {
    && |f.bits| == width && (width == 2 || width == 4)
    && f.symbol == Coded(f.scr, f.quadrant, f.bits)
  }

  function ScrAfter(f: Flight): Lfsr {
    After(f.scr, Scramble(f.scr, f.bits))
  }

  /** Transmitter state before the symbol at k, or now if k is past the last. */
  function ScrAt(l: Link, k: nat): Lfsr
    requires k <= |l.line|
  {
    if k < |l.line| then l.line[k].scr else l.tx.tx.scr
  }

  function QuadrantAt(l: Link, k: nat): Dibit
    requires k <= |l.line|
  {
    if k < |l.line| then l.line[k].quadrant else l.tx.tx.quadrant
  }

  /** Data bits on the line, oldest first. */
  function BitsOf(line: seq<Flight>): seq<Bit> {
    if line == [] then [] else BitsOf(line[..|line| - 1]) + line[|line| - 1].bits
  }

  /** Every symbol on the line continues from the one before. */
  predicate Chained(l: Link) {
    && (forall k :: 0 <= k < |l.line| ==> WellCoded(l.line[k], Width(l.tx)))
    && (forall k :: 0 <= k < |l.line| ==>
          ScrAt(l, k + 1) == ScrAfter(l.line[k]) && QuadrantAt(l, k + 1) == l.line[k].symbol / 4)
  }

  /** What every state of the link satisfies. */
  ghost predicate Inv(l: Link) {
    && Framed(l.feed) && Sending(l.tx)
    && (l.dataMode ==> Receiving(l))
    && (!l.discarded ==> l.written + l.staged <= Chars(l.feed.items))
  }

  ghost predicate Receiving(l: Link) {
    && Chained(l)
    && l.rx.rx.mode.RxNormal? && (l.rx.rx.sixteen <==> l.tx.rate == 2400)
    && InLock(ScrAt(l, 0), l.rx.rx.scr) && l.rx.rx.state / 4 == QuadrantAt(l, 0)
    && l.got + BitsOf(l.line) == l.feed.sent
    && l.core == CoreAfter(IDLE, l.got)
    && (!l.discarded ==> l.written + l.staged + l.held == CoreOut(IDLE, l.got))
  }

  // -------------------------------------------------------------- sending

  /** Pulling bits that are on offer scrambles them. */
  lemma {:induction false} PullsScramble(t: Tx, bits: seq<Bit>)
    requires t.user
    ensures PullBits(t, Offers(bits)) == (Scramble(t.scr, bits), t.(scr := After(t.scr, Scramble(t.scr, bits))))
  {
    if bits != [] {
      var n := |bits| - 1;
      assert Offers(bits)[..n] == Offers(bits[..n]);
      PullsScramble(t, bits[..n]);
      ScrambleSnoc(t.scr, bits[..n], bits[n]);
      AfterSnoc(t.scr, Scramble(t.scr, bits[..n]), LineBit(After(t.scr, Scramble(t.scr, bits[..n])), bits[n]));
      assert bits == bits[..n] + [bits[n]];
    }
  }

  lemma {:induction false} DataBaudIs(t: Tx, bits: seq<Bit>)
    requires t.user && (|bits| == 2 || |bits| == 4)
    ensures var s := DataBaud(t, Offers(bits));
            && s.symbol == Some(Coded(t.scr, t.quadrant, bits))
            && s.tx == t.(scr := After(t.scr, Scramble(t.scr, bits)),
                          quadrant := Coded(t.scr, t.quadrant, bits) / 4)
  {
    PullsScramble(t, bits);
    ScrambleLength(t.scr, bits);
    SymbolQuadrant(t.quadrant, Scramble(t.scr, bits));
  }

  /** In data mode the modem sends the coded symbol of the bits it pulled. */
  lemma {:induction false} DataSymbolSent(m: Modem, bits: seq<Bit>)
    requires Sending(m) && |bits| == Width(m)
    ensures var s := TxBaud(m.tx, m.calling, m.rate, Offers(bits) + if |bits| == 2 then [None, None] else []);
            && s.symbol == Some(Coded(m.tx.scr, m.tx.quadrant, bits))
            && s.tx == m.tx.(scr := After(m.tx.scr, Scramble(m.tx.scr, bits)),
                             quadrant := Coded(m.tx.scr, m.tx.quadrant, bits) / 4)
  {
    var offered := Offers(bits) + if |bits| == 2 then [None, None] else [];
    assert (if m.rate == 1200 then offered[..2] else offered) == Offers(bits);
    DataBaudIs(m.tx, bits);
  }

  lemma {:induction false} PullsFramed(f: Feed, n: nat)
    requires Framed(f)
    ensures Framed(FeedRun(f, Pulls(n))) && Chars(FeedRun(f, Pulls(n)).items) == Chars(f.items)
  {
    if n > 0 {
      assert Pulls(n)[..n - 1] == Pulls(n - 1);
      PullsFramed(f, n - 1);
      var g := FeedRun(f, Pulls(n - 1));
      FramedStep(g, Pull);
      LineSnoc(g.items, Idle);
    }
  }

  /** A symbol coded from the transmitter's present state lengthens the chain. */
  lemma {:induction false} ChainGrows(l: Link, l': Link, f: Flight)
    requires Chained(l) && WellCoded(f, Width(l.tx)) && l'.line == l.line + [f]
    requires f.scr == l.tx.tx.scr && f.quadrant == l.tx.tx.quadrant && Width(l'.tx) == Width(l.tx)
    requires l'.tx.tx.scr == ScrAfter(f) && l'.tx.tx.quadrant == f.symbol / 4
    ensures Chained(l') && ScrAt(l', 0) == ScrAt(l, 0) && QuadrantAt(l', 0) == QuadrantAt(l, 0)
  {
    forall k | 0 <= k < |l'.line|
      ensures WellCoded(l'.line[k], Width(l'.tx))
      ensures ScrAt(l', k + 1) == ScrAfter(l'.line[k]) && QuadrantAt(l', k + 1) == l'.line[k].symbol / 4
    {
      if k < |l.line| {
        assert l'.line[k] == l.line[k];
        assert ScrAt(l, k + 1) == ScrAfter(l.line[k]);
      }
    }
  }

  /** The symbol a baud adds to the line, given the bits pulled for it. */
  function NextFlight(l: Link, bits: seq<Bit>): Flight
    requires |bits| == 2 || |bits| == 4
  {
    Flight(Coded(l.tx.tx.scr, l.tx.tx.quadrant, bits), bits, l.tx.tx.scr, l.tx.tx.quadrant)
  }

  lemma {:induction false} SendShape(l: Link) returns (feed: Feed, bits: seq<Bit>, tx: Modem)
    requires Framed(l.feed) && Sending(l.tx)
    ensures |bits| == Width(l.tx) && feed.sent == l.feed.sent + bits
    ensures Framed(feed) && Chars(feed.items) == Chars(l.feed.items)
    ensures Step(l, Send) == l.(feed := feed, tx := tx, line := l.line + [NextFlight(l, bits)])
    ensures Sending(tx) && tx.rate == l.tx.rate
    ensures tx.tx.scr == ScrAfter(NextFlight(l, bits)) && tx.tx.quadrant == NextFlight(l, bits).symbol / 4
  {
    PullsAdd(l.feed, Width(l.tx));
    PullsFramed(l.feed, Width(l.tx));
    feed := FeedRun(l.feed, Pulls(Width(l.tx)));
    bits := feed.sent[|l.feed.sent|..];
    DataSymbolSent(l.tx, bits);
    tx := Step(l, Send).tx;
  }

  lemma {:induction false} SentKeeps(l: Link, l': Link, feed: Feed, bits: seq<Bit>, tx: Modem)
    requires Inv(l) && |bits| == Width(l.tx) && feed.sent == l.feed.sent + bits
    requires Framed(feed) && Chars(feed.items) == Chars(l.feed.items)
    requires l' == l.(feed := feed, tx := tx, line := l.line + [NextFlight(l, bits)])
    requires Sending(tx) && tx.rate == l.tx.rate
    requires tx.tx.scr == ScrAfter(NextFlight(l, bits)) && tx.tx.quadrant == NextFlight(l, bits).symbol / 4
    ensures Inv(l')
  {
    if l.dataMode {
      ChainGrows(l, l', NextFlight(l, bits));
      assert l'.line[..|l'.line| - 1] == l.line;
      Associative(l.got, BitsOf(l.line), bits);
    }
  }

  lemma {:induction false} SendKeeps(l: Link)
    requires Inv(l)
    ensures Inv(Step(l, Send))
  {
    var feed, bits, tx := SendShape(l);
    var l' := l.(feed := feed, tx := tx, line := l.line + [NextFlight(l, bits)]);
    SentKeeps(l, l', feed, bits, tx);
  }

  // ------------------------------------------------------------ receiving

  lemma {:induction false} BitsOfFirst(line: seq<Flight>)
    requires line != []
    ensures BitsOf(line) == line[0].bits + BitsOf(line[1..])
  {
    var n, rest := |line| - 1, line[1..];
    if n == 0 {
      assert BitsOf(line[..0]) == [] && BitsOf(rest) == [];
    } else {
      BitsOfFirst(line[..n]);
      assert line[..n][1..] == rest[..n - 1] && rest[n - 1] == line[n] && line[..n][0] == line[0];
      assert BitsOf(rest) == BitsOf(rest[..n - 1]) + line[n].bits;
      Associative(line[0].bits, BitsOf(rest[..n - 1]), line[n].bits);
    }
  }

  /** Quadrant decoding and descrambling give back the bits of a coded symbol. */
  lemma {:induction false} SymbolDecodes(f: Flight, r: Rx)
    requires WellCoded(f, if r.sixteen then 4 else 2)
    requires r.state / 4 == f.quadrant && InLock(f.scr, r.scr)
    ensures RawBits(r.sixteen, r.state, f.symbol) == Scramble(f.scr, f.bits)
    ensures Descramble(r.scr, Scramble(f.scr, f.bits)) == f.bits
    ensures InLock(ScrAfter(f), After(r.scr, Scramble(f.scr, f.bits)))
  {
    ScrambleLength(f.scr, f.bits);
    var line := Scramble(f.scr, f.bits);
    QuadrantRoundTrip(f.quadrant, Pair(line[0], line[1]), r.state, f.symbol);
    RawBitsAre(r.sixteen, r.state, f.symbol, line);
    RoundTrip(f.scr, r.scr, f.bits);
  }

  /** The deframer follows the bits, and loses nothing it does not report. */
  lemma {:induction false} PutBitsFollow(core: Core, held: seq<Byte>, bits: seq<Bit>, was: bool)
    ensures var (c, h, d) := PutBits(core, held, was, bits);
            && c == CoreAfter(core, bits) && (was ==> d)
            && (!d ==> h == held + CoreOut(core, bits))
  {
    if bits != [] {
      var n := |bits| - 1;
      PutBitsFollow(core, held, bits[..n], was);
      Associative(held, CoreOut(core, bits[..n]), CoreStep(CoreAfter(core, bits[..n]), bits[n]).1);
    }
  }

  /** The receiving modem has made of a symbol what was put into it. */
  predicate Understood(f: Flight, m: Modem, heard: Heard)
    requires |f.bits| == 2 || |f.bits| == 4
  {
    && heard.bits == f.bits
    && InLock(ScrAfter(f), heard.modem.rx.scr) && heard.modem.rx.state == f.symbol
    && heard.modem.rx.sixteen == m.rx.sixteen && (!heard.retrain ==> heard.modem.rx.mode.RxNormal?)
  }

  lemma {:induction false} SymbolUnderstood(f: Flight, m: Modem)
    requires m.rx.mode.RxNormal? && WellCoded(f, if m.rx.sixteen then 4 else 2)
    requires m.rx.state / 4 == f.quadrant && InLock(f.scr, m.rx.scr)
    ensures Understood(f, m, RxDecision(m, f.symbol))
  {
    SymbolDecodes(f, m.rx);
    DataDecisionIs(m, f.symbol);
  }

  lemma {:induction false} HeedDecides(l: Link, dx: real, dy: real)
    requires l.line != [] && (l.rx.rx.sixteen || l.line[0].symbol % 4 == 1)
    requires Mild(Arrive(dx, dy))
    ensures Heed(l, dx, dy) == RxDecision(l.rx, l.line[0].symbol)
  {
    var p := POINTS[l.line[0].symbol];
    SliceCorrects(l.rx.rx.sixteen, l.line[0].symbol, Point(p.re + dx, p.im + dy));
  }

  lemma {:induction false} HeedUnderstands(l: Link, dx: real, dy: real)
    requires Receiving(l) && Sending(l.tx) && l.line != [] && Mild(Arrive(dx, dy))
    ensures WellCoded(l.line[0], Width(l.tx)) && Understood(l.line[0], l.rx, Heed(l, dx, dy))
  {
    assert WellCoded(l.line[0], Width(l.tx));
    SymbolUnderstood(l.line[0], l.rx);
    if !l.rx.rx.sixteen { PskPoint(l.line[0]); }
    HeedDecides(l, dx, dy);
  }

  /** At 1200 bit/s only the four points of 4PSK are sent. */
  lemma {:induction false} PskPoint(f: Flight)
    requires WellCoded(f, 2)
    ensures f.symbol % 4 == 1
  {
    ScrambleLength(f.scr, f.bits);
  }

  lemma {:induction false} DataDecisionIs(m: Modem, nearest: Index)
    requires m.rx.mode.RxNormal?
    ensures var h, raw := RxDecision(m, nearest), RawBits(m.rx.sixteen, m.rx.state, nearest);
            && h.bits == Descramble(m.rx.scr, raw) && h.modem.rx.scr == After(m.rx.scr, raw)
            && h.modem.rx.state == nearest && h.modem.rx.sixteen == m.rx.sixteen
            && (!h.retrain ==> h.modem.rx.mode.RxNormal?)
  {
  }

  lemma {:induction false} DeliverKeeps(l: Link, heard: Heard)
    requires Inv(l) && l.line != []
    requires l.dataMode ==> WellCoded(l.line[0], Width(l.tx)) && Understood(l.line[0], l.rx, heard)
    ensures Inv(Deliver(l, heard))
  {
    if l.dataMode && !heard.retrain {
      DataKeeps(l, Deliver(l, heard), heard);
    }
  }

  lemma {:induction false} ArriveKeeps(l: Link, dx: real, dy: real)
    requires Inv(l) && Mild(Arrive(dx, dy)) && l.line != []
    ensures Inv(Deliver(l, Heed(l, dx, dy)))
  {
    if l.dataMode {
      HeedUnderstands(l, dx, dy);
    }
    DeliverKeeps(l, Heed(l, dx, dy));
  }

  lemma {:induction false} DataKeeps(l: Link, l': Link, heard: Heard)
    requires Inv(l) && l.dataMode && l.line != []
    requires heard.bits == l.line[0].bits && heard.modem.rx.mode.RxNormal?
    requires heard.modem.rx.sixteen == l.rx.rx.sixteen && heard.modem.rx.state == l.line[0].symbol
    requires InLock(ScrAfter(l.line[0]), heard.modem.rx.scr)
    requires var (core, held, discarded) := PutBits(l.core, l.held, l.discarded, heard.bits);
             l' == l.(line := l.line[1..], rx := heard.modem, core := core, held := held,
                      discarded := discarded, got := l.got + heard.bits)
    ensures Inv(l')
  {
    PutBitsFollow(l.core, l.held, heard.bits, l.discarded);
    CoreConcat(IDLE, l.got, heard.bits);
    BitsOfFirst(l.line);
    Associative(l.got, heard.bits, BitsOf(l'.line));
    ChainShrinks(l, l');
    PrefixOfChars(l');
    Associative(l.written + l.staged, l.held, CoreOut(l.core, heard.bits));
  }

  lemma {:induction false} ChainShrinks(l: Link, l': Link)
    requires Chained(l) && l.line != [] && l'.line == l.line[1..] && l'.tx == l.tx
    ensures Chained(l')
    ensures ScrAt(l', 0) == ScrAfter(l.line[0]) && QuadrantAt(l', 0) == l.line[0].symbol / 4
  {
    assert ScrAt(l, 1) == ScrAfter(l.line[0]);
    forall k | 0 <= k < |l'.line|
      ensures WellCoded(l'.line[k], Width(l'.tx))
      ensures ScrAt(l', k + 1) == ScrAfter(l'.line[k]) && QuadrantAt(l', k + 1) == l'.line[k].symbol / 4
    {
      assert l'.line[k] == l.line[k + 1];
      assert ScrAt(l, k + 2) == ScrAfter(l.line[k + 1]);
    }
  }

  /** What the deframer has made of the bits so far is a prefix of the accepted bytes. */
  lemma {:induction false} PrefixOfChars(l: Link)
    requires Framed(l.feed) && l.got + BitsOf(l.line) == l.feed.sent
    ensures CoreOut(IDLE, l.got) <= Chars(l.feed.items)
  {
    assert l.feed.sent <= l.feed.sent + l.feed.queue;
    assert l.got <= Line(l.feed.items);
    PrefixDecodes(l.feed.items, l.got);
  }

  // ------------------------------------------------------ bytes in, bytes out

  lemma {:induction false} ItemsOnlyGrow(f: Feed, op: QueueOp)
    ensures Chars(f.items) <= Chars(FeedStep(f, op).items)
  {
    match op {
      case Offer(b) => LineSnoc(f.items, Char(b));
      case Pull => LineSnoc(f.items, Idle);
    }
  }

  lemma {:induction false} PushKeeps(l: Link, b: Byte)
    requires Inv(l)
    ensures Inv(Step(l, PushByte(b)))
  {
    FramedStep(l.feed, Offer(b));
    ItemsOnlyGrow(l.feed, Offer(b));
    var l' := Step(l, PushByte(b));
    if l.dataMode { SameChain(l, l'); }
  }

  lemma {:induction false} SameChain(l: Link, l': Link)
    requires Chained(l) && l'.line == l.line && l'.tx == l.tx
    ensures Chained(l')
  {
    forall k | 0 <= k < |l.line|
      ensures ScrAt(l', k + 1) == ScrAfter(l.line[k]) && QuadrantAt(l', k + 1) == l.line[k].symbol / 4
    {
      assert ScrAt(l, k + 1) == ScrAfter(l.line[k]);
    }
  }

  lemma {:induction false} PumpKeeps(l: Link, taken: nat)
    requires Inv(l)
    ensures Inv(Step(l, Pump(taken)))
  {
    var l' := PumpBytes(l, taken);
    if l.dataMode {
      SameChain(l, l');
      PumpConserves(l, taken);
      PrefixOfChars(l);
      assert !l'.discarded ==> l'.written + l'.staged <= l'.written + l'.staged + l'.held;
    }
  }

  lemma {:induction false} PumpConserves(l: Link, taken: nat)
    requires l.dataMode
    ensures var l' := PumpBytes(l, taken);
            !l'.discarded ==> !l.discarded && l'.written + l'.staged + l'.held == l.written + l.staged + l.held
  {
  }

  lemma {:induction false} StepKeeps(l: Link, e: Event)
    requires Inv(l) && Mild(e)
    ensures Inv(Step(l, e))
  {
    match e {
      case PushByte(b) => PushKeeps(l, b);
      case Send => SendKeeps(l);
      case Arrive(dx, dy) => if l.line != [] { ArriveKeeps(l, dx, dy); }
      case Pump(taken) => PumpKeeps(l, taken);
    }
  }

  lemma {:induction false} RunKeeps(l: Link, es: seq<Event>)
    requires Synchronised(l) && forall e :: e in es ==> Mild(e)
    ensures Inv(Run(l, es))
  {
    if es == [] {
      assert BitsOf(l.line) == [] && CoreAfter(IDLE, []) == IDLE;
    } else {
      RunKeeps(l, es[..|es| - 1]);
      StepKeeps(Run(l, es[..|es| - 1]), es[|es| - 1]);
    }
  }

  /**
   End to end. From a synchronised start, at 1200 or 2400 bit/s, for every
   interleaving of bytes pushed, symbols sent, symbols received with noise of less
   than one unit per axis, and pumps, the bytes written are a prefix of the bytes
   accepted, in order, unless the program has itself discarded bytes. A retrain in
   between stops the flow and does not break this.
   */
  lemma {:induction false} BytesInBytesOut(l: Link, es: seq<Event>)
    requires Synchronised(l) && forall e :: e in es ==> Mild(e)
    ensures var l' := Run(l, es); !l'.discarded ==> l'.written <= Chars(l'.feed.items)
  {
    RunKeeps(l, es);
    var l' := Run(l, es);
    assert l'.written <= l'.written + l'.staged;
  }

  /** Nothing stays behind: with queue and line empty every accepted byte has come out. */
  lemma {:induction false} NothingLost(l: Link, es: seq<Event>)
    requires Synchronised(l) && forall e :: e in es ==> Mild(e)
    requires var l' := Run(l, es); l'.dataMode && !l'.discarded && l'.feed.queue == [] && l'.line == []
    ensures var l' := Run(l, es); l'.written + l'.staged + l'.held == Chars(l'.feed.items)
  {
    RunKeeps(l, es);
    var l' := Run(l, es);
    assert l'.got == l'.feed.sent == Line(l'.feed.items);
    LineDecodes(IDLE, l'.feed.items);
  }

  /** What makes the program discard: a full deframer, or a stage without room. */
  predicate Discards(l: Link, e: Event) {
    match e
    case Arrive(dx, dy) =>
      l.line != [] && l.dataMode && !Heed(l, dx, dy).retrain && Overfull(l.core, l.held, Heed(l, dx, dy).bits)
    case Pump(_) => l.dataMode && |l.staged| + Min(PUMP_SIZE, |l.held|) > STAGE_SIZE
    case _ => false
  }

  /** 4096 bytes are held by the time the last of the bits arrives. */
  predicate Overfull(core: Core, held: seq<Byte>, bits: seq<Bit>) {
    bits != [] && |held| + |CoreOut(core, bits[..|bits| - 1])| >= OUT_SIZE
  }

  /** The program discards exactly then. */
  lemma {:induction false} DiscardsWhen(l: Link, e: Event)
    requires !l.discarded && |l.staged| <= STAGE_SIZE
    ensures Step(l, e).discarded <==> Discards(l, e)
  {
    match e
    case Arrive(dx, dy) =>
      if l.line != [] { OverfullDiscards(l.core, l.held, Heed(l, dx, dy).bits); }
    case PushByte(_) =>
    case Send =>
    case Pump(_) =>
  }

  lemma {:induction false} OverfullDiscards(core: Core, held: seq<Byte>, bits: seq<Bit>)
    ensures PutBits(core, held, false, bits).2 <==> Overfull(core, held, bits)
  {
    if bits != [] {
      var before := bits[..|bits| - 1];
      OverfullDiscards(core, held, before);
      PutBitsFollow(core, held, before, false);
    }
  }
}
