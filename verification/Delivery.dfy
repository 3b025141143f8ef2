/**
 Everything gets through: what one pump moves, and how many symbols and pumps it takes until
 every byte put into the link has been written (src/call/sm_call.c:341-487). Module Link says
 that nothing wrong comes out; this one says that everything does.
 */
module Delivery {
  import opened Bits
  import opened Async
  import opened Link

  // ------------------------------------------------------------- one pump

  /** What stands ready for the PPP side: what is staged and up to 256 bytes more. */
  function Ready(l: Link): seq<Byte> {
    l.staged + l.held[..Min(256, |l.held|)]
  }

  /**
   A pump takes up to 256 bytes from the deframer. Unless more than 4096 stand ready,
   exactly as many of those as the PPP side takes are written and the rest stays staged.
   */
  lemma {:induction false} PumpWrites(l: Link, taken: nat)
    requires l.dataMode && |Ready(l)| <= 4096
    ensures var l', ready := Step(l, Pump(taken)), Ready(l);
            var w := Min(taken, |ready|);
            && l'.held == l.held[Min(256, |l.held|)..]
            && l'.written == l.written + ready[..w] && l'.staged == ready[w..]
            && l' == l.(held := l'.held, staged := l'.staged, written := l'.written)
  {
  }

  /** If more do, the first 4096 are kept and the loss is recorded. */
  lemma {:induction false} PumpOverflows(l: Link, taken: nat)
    requires l.dataMode && |l.staged| <= 4096 < |Ready(l)|
    ensures var l' := Step(l, Pump(taken));
            && l'.held == l.held[Min(256, |l.held|)..] && l'.discarded
            && l'.written + l'.staged == l.written + Ready(l)[..4096]
            && |l'.written| == |l.written| + Min(taken, 4096)
  {
    var all := Fitting(l.staged, l.held, Min(256, |l.held|), 4096 - |l.staged|);
    Parted(l.written, all, Min(taken, |all|));
  }

  /** The part of the n new bytes there is room for. */
  lemma {:induction false} Fitting(staged: seq<Byte>, held: seq<Byte>, n: nat, fit: nat) returns (all: seq<Byte>)
    requires fit <= n <= |held|
    ensures all == staged + held[..fit] == (staged + held[..n])[..|staged| + fit]
  {
    all := staged + held[..fit];
    assert held[..n][..fit] == held[..fit];
  }

  lemma {:induction false} Parted(written: seq<Byte>, all: seq<Byte>, w: nat)
    requires w <= |all|
    ensures written + all[..w] + all[w..] == written + all
  {
    assert all[..w] + all[w..] == all;
    Associative(written, all[..w], all[w..]);
  }

  /** A PPP side that takes everything leaves nothing staged. */
  lemma {:induction false} PumpEmptiesStage(l: Link, taken: nat)
    requires l.dataMode && taken >= |l.staged| + 256
    ensures Step(l, Pump(taken)).staged == []
  {
  }

  // ------------------------------------------------------------ many pumps

  function Pumps(takes: seq<nat>): (es: seq<Event>)
    ensures |es| == |takes|
  {
    seq(|takes|, i requires 0 <= i < |takes| => Pump(takes[i]))
  }

  /** A PPP side that takes all there can be. */
  predicate Eager(takes: seq<nat>) {
    forall t :: t in takes ==> t >= 4352
  }

  /** l' is l with everything staged and the first k held bytes written. */
  predicate PumpedOut(l: Link, k: nat, l': Link) {
    k <= |l.held|
    && l' == l.(held := l.held[k..], staged := [], written := l.written + l.staged + l.held[..k])
  }

  lemma {:induction false} FirstPump(l: Link, taken: nat)
    requires l.dataMode && |Ready(l)| <= 4096 && taken >= 4352
    ensures PumpedOut(l, Min(256, |l.held|), Step(l, Pump(taken)))
  {
    PumpWrites(l, taken);
    Associative(l.written, l.staged, l.held[..Min(256, |l.held|)]);
  }

  lemma {:induction false} TwoParts(before: seq<Byte>, held: seq<Byte>, k: nat, n: nat)
    requires k + n <= |held|
    ensures held[k..][n..] == held[k + n..]
    ensures before + held[..k] + held[k..][..n] == before + held[..k + n]
  {
    assert held[..k] + held[k..][..n] == held[..k + n];
  }

  lemma {:induction false} NextPump(l: Link, k: nat, l1: Link, taken: nat)
    requires l.dataMode && PumpedOut(l, k, l1) && taken >= 4352
    ensures PumpedOut(l, Min(k + 256, |l.held|), Step(l1, Pump(taken)))
  {
    FirstPump(l1, taken);
    PumpedTwice(l, k, l1, Min(256, |l1.held|), Step(l1, Pump(taken)));
  }

  lemma {:induction false} PumpedTwice(l: Link, k: nat, l1: Link, n: nat, l2: Link)
    requires PumpedOut(l, k, l1) && PumpedOut(l1, n, l2)
    ensures PumpedOut(l, k + n, l2)
  {
    TwoParts(l.written + l.staged, l.held, k, n);
  }

  lemma {:induction false} RunSnoc(l: Link, es: seq<Event>, e: Event)
    ensures Run(l, es + [e]) == Step(Run(l, es), e)
  {
    assert (es + [e])[..|es|] == es;
  }

  lemma {:induction false} PumpsGrow(takes: seq<nat>)
    requires takes != [] && Eager(takes)
    ensures var n := |takes| - 1;
            Pumps(takes) == Pumps(takes[..n]) + [Pump(takes[n])] && Eager(takes[..n]) && takes[n] >= 4352
  {
    var n := |takes| - 1;
    assert takes[n] in takes && forall t :: t in takes[..n] ==> t in takes;
  }

  /** How many of h bytes n pumps move. */
  function MovedBy(n: nat, h: nat): nat {
    Min(256 * n, h)
  }

  lemma {:induction false} PumpAgain(l: Link, n: nat, l1: Link, taken: nat)
    requires l.dataMode && PumpedOut(l, MovedBy(n, |l.held|), l1) && taken >= 4352
    ensures PumpedOut(l, MovedBy(n + 1, |l.held|), Step(l1, Pump(taken)))
  {
    NextPump(l, MovedBy(n, |l.held|), l1, taken);
  }

  /** So many pumps write what was staged and the first 256 bytes of those held for each. */
  lemma {:induction false} PumpsWrite(l: Link, takes: seq<nat>)
    requires l.dataMode && |Ready(l)| <= 4096 && takes != [] && Eager(takes)
    ensures PumpedOut(l, MovedBy(|takes|, |l.held|), Run(l, Pumps(takes)))
    decreases |takes|
  {
    var head, last := takes[..|takes| - 1], takes[|takes| - 1];
    PumpsGrow(takes);
    RunSnoc(l, Pumps(head), Pump(last));
    if head == [] {
      assert Pumps(head) == [];
      FirstPump(l, last);
    } else {
      PumpsWrite(l, head);
      PumpAgain(l, |head|, Run(l, Pumps(head)), last);
    }
  }

  lemma {:induction false} RunAppend(l: Link, es: seq<Event>, fs: seq<Event>)
    ensures Run(l, es + fs) == Run(Run(l, es), fs)
    decreases |fs|
  {
    if fs == [] {
      assert es + fs == es;
    } else {
      var head, last := fs[..|fs| - 1], fs[|fs| - 1];
      assert fs == head + [last] && es + fs == (es + head) + [last];
      RunAppend(l, es, head);
      RunSnoc(l, es + head, last);
      RunSnoc(Run(l, es), head, last);
    }
  }

  /**
   With queue and line empty and nothing discarded, pumps that the PPP side answers in full
   write every accepted byte if and only if there are enough of them.
   */
  lemma {:induction false} PumpsDeliver(l: Link, es: seq<Event>, takes: seq<nat>)
    requires Synchronised(l) && forall e :: e in es ==> Mild(e)
    requires var l' := Run(l, es);
             && l'.dataMode && !l'.discarded && l'.feed.queue == [] && l'.line == [] && |Ready(l')| <= 4096
    requires takes != [] && Eager(takes)
    ensures var l' := Run(l, es);
            var l'' := Run(l, es + Pumps(takes));
            !l''.discarded && (l''.written == Chars(l'.feed.items) <==> 256 * |takes| >= |l'.held|)
  {
    NothingLost(l, es);
    RunAppend(l, es, Pumps(takes));
    PumpsWrite(Run(l, es), takes);
    WholeOrPart(Run(l, es), MovedBy(|takes|, |Run(l, es).held|), Run(l, es + Pumps(takes)));
  }

  lemma {:induction false} WholeOrPart(l: Link, k: nat, l': Link)
    requires PumpedOut(l, k, l')
    ensures l'.written == l.written + l.staged + l.held <==> k == |l.held|
  {
    assert l.held[..|l.held|] == l.held;
  }

  // --------------------------------------------------- from the first byte on

  function Pushes(bs: seq<Byte>): (es: seq<Event>)
    ensures |es| == |bs| && forall e :: e in es ==> Mild(e)
  {
    seq(|bs|, i requires 0 <= i < |bs| => PushByte(bs[i]))
  }

  function Sends(n: nat): (es: seq<Event>)
    ensures |es| == n && forall e :: e in es ==> Mild(e)
  {
    seq(n, _ => Send)
  }

  /** Symbols received, each with noise of less than one unit per axis. */
  predicate Arrivals(es: seq<Event>) {
    forall e :: e in es ==> e.Arrive? && Mild(e)
  }

  /** f is f0 with some more bytes queued. */
  ghost predicate Accepted(f0: Feed, bs: seq<Byte>, f: Feed) {
    && Framed(f) && |f.queue| == |f0.queue| + 10 * |bs| && f.sent == f0.sent
    && Chars(f.items) == Chars(f0.items) + bs
  }

  lemma {:induction false} AcceptedOn(f0: Feed, bs: seq<Byte>, f: Feed, b: Byte)
    requires Accepted(f0, bs, f) && |f.queue| + 10 <= 65536
    ensures Accepted(f0, bs + [b], FeedStep(f, Offer(b)))
  {
    FramedStep(f, Offer(b));
    LineSnoc(f.items, Char(b));
    Associative(Chars(f0.items), bs, [b]);
  }

  /** What there is room for is accepted, all of it. */
  lemma {:induction false} PushesAccepted(l: Link, bs: seq<Byte>) returns (f: Feed)
    requires Framed(l.feed) && |l.feed.queue| + 10 * |bs| <= 65536
    ensures Run(l, Pushes(bs)) == l.(feed := f) && Accepted(l.feed, bs, f)
    decreases |bs|
  {
    if bs == [] {
      f := l.feed;
    } else {
      var n := |bs| - 1;
      assert Pushes(bs) == Pushes(bs[..n]) + [PushByte(bs[n])] && bs == bs[..n] + [bs[n]];
      var g := PushesAccepted(l, bs[..n]);
      RunSnoc(l, Pushes(bs[..n]), PushByte(bs[n]));
      AcceptedOn(l.feed, bs[..n], g, bs[n]);
      f := FeedStep(g, Offer(bs[n]));
    }
  }

  function Less(a: nat, b: nat): nat {
    if a < b then 0 else a - b
  }

  lemma {:induction false} PullsShorten(f: Feed, n: nat)
    ensures |FeedRun(f, Pulls(n)).queue| == Less(|f.queue|, n)
  {
    if n > 0 {
      assert Pulls(n)[..n - 1] == Pulls(n - 1);
      PullsShorten(f, n - 1);
    }
  }

  /** What sending leaves as it was, and where it leaves the queue. */
  predicate SentFrom(l: Link, n: nat, l': Link) {
    && l' == l.(feed := l'.feed, tx := l'.tx, line := l'.line)
    && Sending(l'.tx) && l'.tx.rate == l.tx.rate
    && Chars(l'.feed.items) == Chars(l.feed.items)
    && |l'.feed.queue| == Less(|l.feed.queue|, n * Width(l.tx)) && |l'.line| == |l.line| + n
  }

  lemma {:induction false} SendOne(l: Link)
    requires Framed(l.feed) && Sending(l.tx)
    ensures SentFrom(l, 1, Step(l, Send)) && Framed(Step(l, Send).feed)
  {
    var feed, bits, tx := SendShape(l);
    PullsAdd(l.feed, Width(l.tx));
    PullsShorten(l.feed, Width(l.tx));
    assert Step(l, Send).feed == FeedRun(l.feed, Pulls(Width(l.tx)));
  }

  /** Each symbol takes two or four bits of the queue onto the line. */
  lemma {:induction false} SendsDrain(l: Link, n: nat)
    requires Framed(l.feed) && Sending(l.tx)
    ensures SentFrom(l, n, Run(l, Sends(n))) && Framed(Run(l, Sends(n)).feed)
    decreases n
  {
    if n > 0 {
      assert Sends(n)[..n - 1] == Sends(n - 1);
      SendsDrain(l, n - 1);
      SendOne(Run(l, Sends(n - 1)));
      SentOn(l, n - 1, Run(l, Sends(n - 1)), Run(l, Sends(n)));
    }
  }

  lemma {:induction false} SentOn(l: Link, n: nat, l1: Link, l2: Link)
    requires SentFrom(l, n, l1) && SentFrom(l1, 1, l2)
    ensures SentFrom(l, n + 1, l2)
  {
    assert (n + 1) * Width(l.tx) == n * Width(l.tx) + Width(l.tx);
  }

  /** The deframer has room as long as fewer than 4096 bytes are accepted in all. */
  lemma {:induction false} NotOverfull(l: Link, bits: seq<Bit>)
    requires Receiving(l) && Framed(l.feed) && !l.discarded && l.line != [] && bits == l.line[0].bits
    requires |Chars(l.feed.items)| < 4096
    ensures !Overfull(l.core, l.held, bits)
  {
    BitsOfFirst(l.line);
    if bits != [] {
      var before, last := bits[..|bits| - 1], bits[|bits| - 1..];
      assert before + last == bits;
      PrefixOfLine(l.got, before, last, BitsOf(l.line[1..]), l.feed);
      OutBefore(l.feed.items, l.got, before);
    }
  }

  lemma {:induction false} OutBefore(items: seq<Item>, got: seq<Bit>, before: seq<Bit>)
    requires got + before <= Line(items)
    ensures |CoreOut(IDLE, got)| + |CoreOut(CoreAfter(IDLE, got), before)| <= |Chars(items)|
  {
    CoreConcat(IDLE, got, before);
    PrefixDecodes(items, got + before);
  }

  lemma {:induction false} PrefixOfLine(got: seq<Bit>, a: seq<Bit>, b: seq<Bit>, rest: seq<Bit>, f: Feed)
    requires Framed(f) && got + (a + b + rest) == f.sent
    ensures got + a <= Line(f.items)
  {
    assert got + a + (b + rest + f.queue) == f.sent + f.queue;
  }

  lemma {:induction false} ArriveOne(l: Link, e: Event)
    requires Inv(l) && !l.discarded && l.line != [] && e.Arrive? && Mild(e) && |Chars(l.feed.items)| < 4096
    ensures var l' := Step(l, e);
            && Inv(l') && !l'.discarded && |l'.line| == |l.line| - 1
            && l'.feed == l.feed && l'.tx == l.tx && l'.staged == l.staged && l'.written == l.written
  {
    StepKeeps(l, e);
    if l.dataMode {
      HeedUnderstands(l, e.dx, e.dy);
      NotOverfull(l, l.line[0].bits);
    }
    DiscardsWhen(l, e);
  }

  /** Every symbol on the line is received and nothing is discarded. */
  lemma {:induction false} ArrivalsClear(l: Link, es: seq<Event>)
    requires Inv(l) && !l.discarded && |es| <= |l.line| && Arrivals(es) && |Chars(l.feed.items)| < 4096
    ensures var l' := Run(l, es);
            && Inv(l') && !l'.discarded && |l'.line| == |l.line| - |es|
            && l'.feed == l.feed && l'.tx == l.tx && l'.staged == l.staged && l'.written == l.written
    decreases |es|
  {
    if es != [] {
      var n := |es| - 1;
      assert es[n] in es && forall e :: e in es[..n] ==> e in es;
      ArrivalsClear(l, es[..n]);
      ArriveOne(Run(l, es[..n]), es[n]);
    }
  }

  /** Bytes pushed, symbols enough sent for them, and all of those received. */
  function Through(bs: seq<Byte>, n: nat, arrivals: seq<Event>): seq<Event> {
    Pushes(bs) + Sends(n) + arrivals
  }

  lemma {:induction false} ThroughRun(l: Link, bs: seq<Byte>, n: nat, arrivals: seq<Event>)
    requires Synchronised(l) && |l.feed.queue| + 10 * |bs| <= 65536
    requires n * Width(l.tx) >= |l.feed.queue| + 10 * |bs| && |arrivals| == n && Arrivals(arrivals)
    requires |Chars(l.feed.items)| + |bs| < 4096
    ensures var l' := Run(l, Through(bs, n, arrivals));
            && !l'.discarded && l'.feed.queue == [] && l'.line == [] && l'.staged == [] && l'.written == []
            && Chars(l'.feed.items) == Chars(l.feed.items) + bs
  {
    var f := PushesAccepted(l, bs);
    var l1 := l.(feed := f);
    SendsDrain(l1, n);
    var l2 := Run(l1, Sends(n));
    RunAppend(l, Pushes(bs), Sends(n));
    RunAppend(l, Pushes(bs) + Sends(n), arrivals);
    RunKeeps(l, Pushes(bs) + Sends(n));
    ArrivalsClear(l2, arrivals);
  }

  /**
   Every byte gets through. From a synchronised start, when fewer than 4096 bytes are pushed
   and fit the queue, symbols enough for them are sent and received with noise of less than
   one unit per axis, and pumps follow that the PPP side answers in full, then all of the
   bytes are written, in order, unless one of the symbols was taken for a retrain request.
   */
  lemma {:induction false} EverythingGetsThrough(l: Link, bs: seq<Byte>, n: nat, arrivals: seq<Event>, takes: seq<nat>)
    requires Synchronised(l) && |l.feed.queue| + 10 * |bs| <= 65536
    requires n * Width(l.tx) >= |l.feed.queue| + 10 * |bs| && |arrivals| == n && Arrivals(arrivals)
    requires |Chars(l.feed.items)| + |bs| < 4096
    requires takes != [] && Eager(takes) && 256 * |takes| >= |Chars(l.feed.items)| + |bs|
    ensures Run(l, Through(bs, n, arrivals)).dataMode ==>
              Run(l, Through(bs, n, arrivals) + Pumps(takes)).written == Chars(l.feed.items) + bs
  {
    ThroughRun(l, bs, n, arrivals);
    var es := Through(bs, n, arrivals);
    if Run(l, es).dataMode {
      NothingLost(l, es);
      PumpsDeliver(l, es, takes);
    }
  }
}
