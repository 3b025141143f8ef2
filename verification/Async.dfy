/**
 Asynchronous serial framing over a synchronous bit pipe: the transmit bit queue
 and the receive deframer of src/serial/sm_async.c.
 */
module Async {
  import opened Bits

  const QUEUE_SIZE := 65536
  const OUT_SIZE := 4096

  // ------------------------------------------------------------ framing

  function DataBit(b: nat, k: nat): Bit {
    b / Pow2(k) % 2
  }

  /** Start bit, eight data bits lowest first, stop bit. */
  function Frame(b: Byte): (f: seq<Bit>)
    ensures |f| == 10
  {
    seq(10, k requires 0 <= k < 10 => if k == 0 then 0 else if k == 9 then 1 else DataBit(b, k - 1))
  }

  /** What reaches the line: a whole frame, or one idle bit. */
  datatype Item = Idle | Char(b: Byte)

  function ItemBits(i: Item): seq<Bit> {
    match i
    case Idle => [1]
    case Char(b) => Frame(b)
  }

  function Line(items: seq<Item>): seq<Bit> {
    if items == [] then [] else Line(items[..|items| - 1]) + ItemBits(items[|items| - 1])
  }

  function Chars(items: seq<Item>): seq<Byte> {
    if items == [] then []
    else
      var last := items[|items| - 1];
      Chars(items[..|items| - 1]) + if last.Char? then [last.b] else []
  }

  // ---------------------------------------------------------- bit queue

  /** A 32-bit counter one further, and the unsigned difference of two. */
  function Ahead(x: nat): nat {
    if x + 1 == TWO32 then 0 else x + 1
  }

  function Apart(head: nat, tail: nat): nat
    requires head < TWO32 && tail < TWO32
  {
    if head >= tail then head - tail else head + TWO32 - tail
  }

  /** Both are the arithmetic of a 32-bit word. */
  lemma {:induction false} CounterArithmetic(head: nat, tail: nat)
    requires head < TWO32 && tail < TWO32
    ensures Ahead(head) == (head + 1) % TWO32 && Apart(head, tail) == (head - tail) % TWO32
  {
    if head < tail { assert (head - tail + TWO32) % TWO32 == (head - tail) % TWO32; }
  }

  /** The slot of the i-th position from a counter on. */
  function Cell(from: nat, i: nat): (c: nat)
    ensures c < QUEUE_SIZE
  {
    (from + i) % QUEUE_SIZE
  }

  /** The ring's size divides 2^32, so a wrapped counter finds its slots again. */
  lemma {:induction false} CellAhead(from: nat, i: nat)
    requires from < TWO32
    ensures Cell(Ahead(from), i) == Cell(from, i + 1)
  {
    if from + 1 == TWO32 { CellWraps(i); }
  }

  lemma {:induction false} CellWraps(i: nat)
    ensures (TWO32 + i) % QUEUE_SIZE == i % QUEUE_SIZE
  {
  }

  lemma {:induction false} CellsDiffer(from: nat, i: nat, n: nat)
    requires i < n < QUEUE_SIZE
    ensures Cell(from, i) != Cell(from, n)
  {
  }

  lemma {:induction false} HeadCell(head: nat, tail: nat)
    requires head < TWO32 && tail < TWO32
    ensures Cell(head, 0) == Cell(tail, Apart(head, tail))
  {
    if head < tail { CellWraps(head); }
  }

  /** n slots of a ring from position `from` on. */
  function Slots(ring: seq<Bit>, from: nat, n: nat): (s: seq<Bit>)
    requires |ring| == QUEUE_SIZE
    ensures |s| == n
  {
    seq(n, i requires 0 <= i < n => ring[Cell(from, i)])
  }

  /** `sm_bitq_t`: a ring of bits between two free-running 32-bit counters. */
  class BitQueue {
    var bits: array<Bit>
    var head: nat
    var tail: nat

    ghost predicate Valid()
      reads this
    {
      && bits.Length == QUEUE_SIZE
      && head < TWO32 && tail < TWO32
      && Apart(head, tail) <= QUEUE_SIZE
    }

    /** `sm_bitq_count` */
    function Count(): (n: nat)
      requires Valid()
      reads this, bits
      ensures n == |Contents()| <= QUEUE_SIZE
    {
      Apart(head, tail)
    }

    /** The queued bits, oldest first. */
    ghost function Contents(): seq<Bit>
      requires Valid()
      reads this, bits
    {
      Slots(bits[..], tail, Apart(head, tail))
    }

    constructor ()
      ensures Valid() && fresh(bits) && Contents() == []
    {
      bits := new Bit[QUEUE_SIZE](_ => 0);
      head, tail := 0, 0;
    }

    method Push(bit: Bit) returns (ok: bool)
      requires Valid()
      modifies this`head, bits
      ensures Valid() && bits == old(bits)
      ensures ok == (|old(Contents())| < QUEUE_SIZE)
      ensures Contents() == if ok then old(Contents()) + [bit] else old(Contents())
    {
      if Apart(head, tail) >= QUEUE_SIZE {
        return false;
      }
      AppendSlot(bits[..], tail, head, bit);
      bits[Cell(head, 0)] := bit;
      head := Ahead(head);
      return true;
    }

    /** All ten bits of a frame or none. */
    method PushByte(b: Byte) returns (ok: bool)
      requires Valid()
      modifies this`head, bits
      ensures Valid() && bits == old(bits)
      ensures ok == (|old(Contents())| + 10 <= QUEUE_SIZE)
      ensures Contents() == if ok then old(Contents()) + Frame(b) else old(Contents())
    {
      if Count() + 10 > QUEUE_SIZE {
        return false;
      }
      ghost var was := Contents();
      var _ := Push(0);
      FrameGrows(was, b, 0);
      for i := 0 to 8
        invariant Valid() && bits == old(bits)
        invariant Contents() == was + Frame(b)[..1 + i]
      {
        var _ := Push(DataBit(b, i));
        FrameGrows(was, b, i + 1);
      }
      var _ := Push(1);
      FrameGrows(was, b, 9);
      return true;
    }

    /** Oldest bit, or -1 when the queue is empty. */
    method Pop() returns (bit: int)
      requires Valid()
      modifies this`tail
      ensures Valid()
      ensures old(Contents()) == [] ==> bit == -1 && Contents() == []
      ensures old(Contents()) != [] ==> bit == old(Contents())[0] && Contents() == old(Contents())[1..]
    {
      if head == tail {
        return -1;
      }
      DropSlot(bits[..], tail, Apart(head, tail));
      bit := bits[Cell(tail, 0)];
      tail := Ahead(tail);
    }
  }

  lemma {:induction false} FrameGrows(was: seq<Bit>, b: Byte, k: nat)
    requires k < 10
    ensures was + Frame(b)[..k] + [Frame(b)[k]] == was + Frame(b)[..k + 1]
    ensures Frame(b)[..0] == [] && Frame(b)[..10] == Frame(b)
  {
  }

  /** Writing at the head appends, also when a counter has wrapped past 2^32. */
  lemma {:induction false} AppendSlot(ring: seq<Bit>, tail: nat, head: nat, bit: Bit)
    requires |ring| == QUEUE_SIZE && head < TWO32 && tail < TWO32 && Apart(head, tail) < QUEUE_SIZE
    ensures var n := Apart(head, tail);
            && Apart(Ahead(head), tail) == n + 1
            && Slots(ring[Cell(head, 0) := bit], tail, n + 1) == Slots(ring, tail, n) + [bit]
  {
    var n := Apart(head, tail);
    HeadCell(head, tail);
    forall i | 0 <= i < n ensures Cell(tail, i) != Cell(tail, n) { CellsDiffer(tail, i, n); }
  }

  lemma {:induction false} DropSlot(ring: seq<Bit>, tail: nat, n: nat)
    requires |ring| == QUEUE_SIZE && tail < TWO32 && n > 0
    ensures Slots(ring, tail, n)[0] == ring[Cell(tail, 0)]
    ensures Slots(ring, Ahead(tail), n - 1) == Slots(ring, tail, n)[1..]
  {
    forall i | 0 <= i < n - 1 ensures Cell(Ahead(tail), i) == Cell(tail, i + 1) { CellAhead(tail, i); }
  }

  // ----------------------------------------------- queue runs on the line

  /** What happens to a transmit queue: bytes are offered, the modem pulls bits. */
  datatype QueueOp = Offer(b: Byte) | Pull

  /** Waiting bits, bits pulled so far (idle ones included), and the history of both. */
  datatype Feed = Feed(queue: seq<Bit>, sent: seq<Bit>, items: seq<Item>)

  const NO_FEED := Feed([], [], [])

  /** One operation, as PushByte and Pop with `call_get_bit`'s idle ones do it. */
  function FeedStep(f: Feed, op: QueueOp): Feed {
    match op
    case Offer(b) =>
      if |f.queue| + 10 > QUEUE_SIZE then f
      else f.(queue := f.queue + Frame(b), items := f.items + [Char(b)])
    case Pull =>
      var (bit, rest) := Pulled(f.queue);
      f.(queue := rest, sent := f.sent + [bit], items := if f.queue == [] then f.items + [Idle] else f.items)
  }

  /** `call_get_bit`: the oldest bit, or an idle one. */
  function Pulled(queue: seq<Bit>): (Bit, seq<Bit>) {
    if queue == [] then (1, []) else (queue[0], queue[1..])
  }

  function FeedRun(f: Feed, ops: seq<QueueOp>): Feed {
    if ops == [] then f else FeedStep(FeedRun(f, ops[..|ops| - 1]), ops[|ops| - 1])
  }

  /** What was sent and what waits make up whole frames with idle ones between them. */
  ghost predicate Framed(f: Feed) {
    f.sent + f.queue == Line(f.items) && |f.queue| <= QUEUE_SIZE
  }

  lemma {:induction false} LineSnoc(items: seq<Item>, i: Item)
    ensures Line(items + [i]) == Line(items) + ItemBits(i)
    ensures Chars(items + [i]) == Chars(items) + if i.Char? then [i.b] else []
  {
    assert (items + [i])[..|items|] == items;
  }

  lemma {:induction false} PullParts(f: Feed)
    requires f.queue != []
    ensures f.sent + [f.queue[0]] + f.queue[1..] == f.sent + f.queue
  {
  }

  lemma {:induction false} FramedStep(f: Feed, op: QueueOp)
    requires Framed(f)
    ensures Framed(FeedStep(f, op))
  {
    if op.Offer? {
      LineSnoc(f.items, Char(op.b));
      Associative(f.sent, f.queue, Frame(op.b));
    } else if f.queue == [] {
      LineSnoc(f.items, Idle);
      Associative(f.sent, [], [1]);
    } else {
      PullParts(f);
    }
  }

  /**
   For every run of the queue the popped stream is a prefix of whole frames with
   idle ones only between them, and the frames are those of the accepted bytes.
   */
  lemma {:induction false} FramedAlways(ops: seq<QueueOp>)
    ensures Framed(FeedRun(NO_FEED, ops))
    ensures FeedRun(NO_FEED, ops).sent <= Line(FeedRun(NO_FEED, ops).items)
  {
    if ops != [] {
      FramedAlways(ops[..|ops| - 1]);
      FramedStep(FeedRun(NO_FEED, ops[..|ops| - 1]), ops[|ops| - 1]);
    }
    var f := FeedRun(NO_FEED, ops);
    assert f.sent <= f.sent + f.queue;
  }

  // ------------------------------------------------------------ deframer

  datatype Phase = Hunt | Data | Stop

  /** The deframer without its output buffer. */
  datatype Core = Core(state: Phase, nbits: nat, byte: nat, prev: Bit)

  const IDLE := Core(Hunt, 0, 0, 1)

  /** One bit: the new state and the byte completed by it, if any. */
  function CoreStep(c: Core, bit: Bit): (Core, seq<Byte>) {
    match c.state
    case Hunt => ((if c.prev == 1 && bit == 0 then Core(Data, 0, 0, 0) else c.(prev := bit)), [])
    case Data =>
      (Core(if c.nbits + 1 >= 8 then Stop else Data, c.nbits + 1, c.byte + bit * Pow2(c.nbits), bit), [])
    case Stop => (c.(state := Hunt, prev := bit), if bit == 1 then [c.byte % 256] else [])
  }

  function CoreAfter(c: Core, bits: seq<Bit>): Core {
    if bits == [] then c else CoreStep(CoreAfter(c, bits[..|bits| - 1]), bits[|bits| - 1]).0
  }

  function CoreOut(c: Core, bits: seq<Bit>): seq<Byte> {
    if bits == [] then []
    else
      var n := |bits| - 1;
      CoreOut(c, bits[..n]) + CoreStep(CoreAfter(c, bits[..n]), bits[n]).1
  }

  /** `sm_deframer_t`. The data byte is built by adding clear bits, as its `|=` does. */
  class Deframer {
    var core: Core
    var out: array<Byte>
    var outLen: nat
    var framingErrors: nat
    var bytesOut: nat

    ghost predicate Valid()
      reads this
    {
      out.Length == OUT_SIZE && outLen <= OUT_SIZE
    }

    /** Bytes held for the caller, oldest first. */
    ghost function Held(): seq<Byte>
      requires Valid()
      reads this, out
    {
      out[..outLen]
    }

    constructor ()
      ensures Valid() && fresh(out) && core == IDLE && Held() == []
      ensures framingErrors == 0 && bytesOut == 0
    {
      core := IDLE;
      out := new Byte[OUT_SIZE](_ => 0);
      outLen, framingErrors, bytesOut := 0, 0, 0;
    }

    /** `sm_deframer_init` on a deframer in use. */
    method Reset()
      requires Valid()
      modifies this
      ensures Valid() && out == old(out) && core == IDLE && Held() == []
      ensures framingErrors == 0 && bytesOut == 0
    {
      core := IDLE;
      outLen, framingErrors, bytesOut := 0, 0, 0;
    }

    /** A full buffer is emptied first; then the bit is taken in. */
    method PutBit(bit: Bit)
      requires Valid()
      modifies this, out
      ensures Valid() && out == old(out)
      ensures (core, Held()) == Deframed(old(core), old(Held()), bit)
      ensures bytesOut == old(bytesOut) + |CoreStep(old(core), bit).1|
      ensures framingErrors == old(framingErrors) + if old(core).state.Stop? && bit == 0 then 1 else 0
    {
      if outLen >= OUT_SIZE {
        outLen := 0;
      }
      ghost var kept := out[..outLen];
      match core.state {
        case Hunt =>
          if core.prev == 1 && bit == 0 {
            core := core.(state := Data, nbits := 0, byte := 0);
          }
          core := core.(prev := bit);
        case Data =>
          core := core.(byte := core.byte + bit * Pow2(core.nbits), nbits := core.nbits + 1);
          if core.nbits >= 8 {
            core := core.(state := Stop);
          }
          core := core.(prev := bit);
        case Stop =>
          core := core.(prev := bit);
          if bit == 1 {
            out[outLen] := core.byte % 256;
            outLen := outLen + 1;
            bytesOut := bytesOut + 1;
          } else {
            framingErrors := framingErrors + 1;
          }
          core := core.(state := Hunt);
      }
      assert Held() == kept + CoreStep(old(core), bit).1;
    }

    /** Takes up to `len` bytes from the front and closes the gap. */
    method Take(len: nat) returns (taken: seq<Byte>)
      requires Valid()
      modifies this`outLen, out
      ensures Valid() && out == old(out)
      ensures |taken| == Min(len, |old(Held())|)
      ensures old(Held()) == taken + Held()
    {
      var n := Min(len, outLen);
      taken := out[..n];
      ghost var held := out[..];
      for i := n to outLen
        invariant outLen == old(outLen) && out == old(out)
        invariant forall k :: 0 <= k < i - n ==> out[k] == held[k + n]
        invariant forall k :: i - n <= k < out.Length ==> out[k] == held[k]
      {
        out[i - n] := out[i];
      }
      outLen := outLen - n;
    }
  }

  /** One bit into a deframer that holds `held`. */
  function Deframed(c: Core, held: seq<Byte>, bit: Bit): (Core, seq<Byte>) {
    var kept := if |held| >= OUT_SIZE then [] else held;
    (CoreStep(c, bit).0, kept + CoreStep(c, bit).1)
  }

  // ------------------------------------------------- what it decodes

  lemma {:induction false} CoreConcat(c: Core, x: seq<Bit>, y: seq<Bit>)
    ensures CoreAfter(c, x + y) == CoreAfter(CoreAfter(c, x), y)
    ensures CoreOut(c, x + y) == CoreOut(c, x) + CoreOut(CoreAfter(c, x), y)
    decreases |y|
  {
    if y == [] {
      assert x + y == x;
    } else {
      var n := |y| - 1;
      CoreConcat(c, x, y[..n]);
      assert (x + y)[..|x + y| - 1] == x + y[..n] && (x + y)[|x + y| - 1] == y[n];
    }
  }

  lemma {:induction false} ModUnique(a: int, p: int, q: int, m: int)
    requires 0 <= m < p && a == p * q + m
    ensures a % p == m
  {
    var d := a / p - q;
    assert a == p * (a / p) + a % p;
    assert p * d == m - a % p;
    assert d >= 1 ==> p * d >= p;
    assert d <= -1 ==> p * d <= -p;
  }

  /** Bit k of b on top of its k lowest bits. */
  lemma {:induction false} LowBits(b: nat, k: nat)
    ensures b % Pow2(k + 1) == b % Pow2(k) + (b / Pow2(k) % 2) * Pow2(k)
  {
    var p := Pow2(k);
    var q, m := b / p, b % p;
    assert p * q == (2 * p) * (q / 2) + (q % 2) * p by {
      assert q == 2 * (q / 2) + q % 2;
    }
    assert b == (2 * p) * (q / 2) + ((q % 2) * p + m);
    ModUnique(b, 2 * p, q / 2, (q % 2) * p + m);
  }

  /** Idle as far as the next bits are concerned. */
  predicate AtRest(c: Core) {
    c.state.Hunt? && c.prev == 1
  }

  lemma {:induction false} DataDecodes(b: Byte, k: nat)
    requires k <= 8
    ensures CoreAfter(IDLE, Frame(b)[..k + 1]).(prev := 0)
         == Core(if k < 8 then Data else Stop, k, b % Pow2(k), 0)
    ensures CoreOut(IDLE, Frame(b)[..k + 1]) == []
  {
    var bits := Frame(b)[..k + 1];
    assert bits[..k] == Frame(b)[..k];
    if k == 0 {
      assert CoreAfter(IDLE, bits[..0]) == IDLE;
    } else {
      DataDecodes(b, k - 1);
      LowBits(b, k - 1);
    }
  }

  lemma {:induction false} FrameSum(b: Byte, k: nat)
    requires k <= 8
    ensures Weighed(Frame(b), k) == b % Pow2(k)
  {
    if k > 0 {
      FrameSum(b, k - 1);
      LowBits(b, k - 1);
    }
  }

  /** The k bits behind the first, each counting twice as much as the one before. */
  function Weighed(f: seq<Bit>, k: nat): nat
    requires |f| == 10 && k <= 8
  {
    if k == 0 then 0 else Weighed(f, k - 1) + f[k] * Pow2(k - 1)
  }

  /** A frame is a zero, the byte from its lowest bit up, and a one. */
  lemma {:induction false} FrameIs(b: Byte)
    ensures Frame(b)[0] == 0 && Weighed(Frame(b), 8) == b && Frame(b)[9] == 1
  {
    FrameSum(b, 8);
    Pow2Of8();
  }

  lemma {:induction false} FrameDecodes(b: Byte)
    ensures AtRest(CoreAfter(IDLE, Frame(b))) && CoreOut(IDLE, Frame(b)) == [b]
  {
    DataDecodes(b, 8);
    Pow2Of8();
    var bits := Frame(b)[..9];
    assert Frame(b) == bits + [1];
    CoreSnoc(IDLE, bits, 1);
    StopDecodes(CoreAfter(IDLE, bits), b);
  }

  lemma {:induction false} StopDecodes(c: Core, b: Byte)
    requires c.state.Stop? && c.byte == b as int % 256
    ensures AtRest(CoreStep(c, 1).0) && CoreStep(c, 1).1 == [b]
  {
  }

  lemma {:induction false} CoreSnoc(c: Core, bits: seq<Bit>, bit: Bit)
    ensures CoreAfter(c, bits + [bit]) == CoreStep(CoreAfter(c, bits), bit).0
    ensures CoreOut(c, bits + [bit]) == CoreOut(c, bits) + CoreStep(CoreAfter(c, bits), bit).1
  {
    assert (bits + [bit])[..|bits|] == bits;
  }

  lemma {:induction false} Pow2Of8()
    ensures Pow2(8) == 256
  {
    assert Pow2(4) == 16;
  }

  lemma {:induction false} ItemDecodes(i: Item)
    ensures AtRest(CoreAfter(IDLE, ItemBits(i)))
    ensures CoreOut(IDLE, ItemBits(i)) == if i.Char? then [i.b] else []
  {
    if i.Char? {
      FrameDecodes(i.b);
    } else {
      assert CoreAfter(IDLE, []) == IDLE;
    }
  }

  /** Leftover fields of a deframer at rest are never read. */
  lemma {:induction false} RestIsIdle(c: Core, d: Core, bits: seq<Bit>)
    requires AtRest(c) && AtRest(d)
    ensures CoreOut(c, bits) == CoreOut(d, bits)
    ensures CoreAfter(c, bits) == CoreAfter(d, bits) || (AtRest(CoreAfter(c, bits)) && AtRest(CoreAfter(d, bits)))
  {
    if bits != [] {
      RestIsIdle(c, d, bits[..|bits| - 1]);
    }
  }

  /** Any mixture of frames and idle bits decodes to exactly the framed bytes. */
  lemma {:induction false} LineDecodes(c: Core, items: seq<Item>)
    requires AtRest(c)
    ensures AtRest(CoreAfter(c, Line(items))) && CoreOut(c, Line(items)) == Chars(items)
  {
    if items != [] {
      var n := |items| - 1;
      LineDecodes(c, items[..n]);
      CoreConcat(c, Line(items[..n]), ItemBits(items[n]));
      RestIsIdle(CoreAfter(c, Line(items[..n])), IDLE, ItemBits(items[n]));
      ItemDecodes(items[n]);
    }
  }

  /** What a prefix of the line has yielded is a prefix of the framed bytes. */
  lemma {:induction false} PrefixDecodes(items: seq<Item>, bits: seq<Bit>)
    requires bits <= Line(items)
    ensures CoreOut(IDLE, bits) <= Chars(items)
  {
    LineDecodes(IDLE, items);
    CoreConcat(IDLE, bits, Line(items)[|bits|..]);
    assert bits + Line(items)[|bits|..] == Line(items);
  }

  /** Holds of every deframer from `sm_deframer_init` on. */
  predicate Sane(c: Core) {
    c.state.Data? ==> c.nbits < 8
  }

  lemma {:induction false} SaneAlways(c: Core, bits: seq<Bit>)
    requires Sane(c)
    ensures Sane(CoreAfter(c, bits))
  {
    if bits != [] { SaneAlways(c, bits[..|bits| - 1]); }
  }

  lemma {:induction false} OnesEndACharacter(c: Core, n: nat)
    requires Sane(c)
    ensures var d := CoreAfter(c, Ones(n));
            && Sane(d) && |CoreOut(c, Ones(n))| <= 1
            && (CoreOut(c, Ones(n)) != [] ==> AtRest(d))
            && (n >= 1 && d.state.Hunt? ==> AtRest(d))
            && (d.state.Data? && c.state.Data? ==> d.nbits == c.nbits + n)
            && (d.state.Data? ==> c.state.Data?)
            && (d.state.Stop? && n > 0 ==> c.state.Data? && n == 8 - c.nbits)
  {
    if n > 0 {
      assert Ones(n)[..n - 1] == Ones(n - 1);
      OnesEndACharacter(c, n - 1);
    }
  }

  /**
   Resynchronisation: from any state nine ones bring the deframer to rest with at
   most one spurious byte, and every following line decodes exactly.
   */
  lemma {:induction false} Resynchronises(c: Core, items: seq<Item>)
    requires Sane(c)
    ensures AtRest(CoreAfter(c, Ones(9))) && |CoreOut(c, Ones(9))| <= 1
    ensures CoreOut(c, Ones(9) + Line(items)) == CoreOut(c, Ones(9)) + Chars(items)
  {
    OnesEndACharacter(c, 9);
    CoreConcat(c, Ones(9), Line(items));
    LineDecodes(CoreAfter(c, Ones(9)), items);
  }

  /** Nine are needed: a character may have only its start bit behind it. */
  lemma {:induction false} EightOnesAreNotEnough()
    ensures !AtRest(CoreAfter(Core(Data, 0, 0, 0), Ones(8)))
  {
    OnesEndACharacter(Core(Data, 0, 0, 0), 8);
    StillInside(8);
  }

  lemma {:induction false} StillInside(n: nat)
    requires n <= 8
    ensures var d := CoreAfter(Core(Data, 0, 0, 0), Ones(n));
            if n < 8 then d.state.Data? && d.nbits == n else d.state.Stop?
  {
    if n > 0 {
      assert Ones(n)[..n - 1] == Ones(n - 1);
      StillInside(n - 1);
    }
  }
}
