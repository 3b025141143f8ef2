/**
 The lock-free ring of PCM samples between one producer and one consumer
 (src/audio/sm_ring.c): first under every interleaving of their memory accesses, then
 the calls themselves, in place.
 */
module SpscRing {
  import opened Bits

  const TWO64 := 0x1_0000_0000_0000_0000

  predicate Factors(cap: nat, q: nat) {
    cap * q == TWO64
  }

  /**
   A divisor of 2^64, that is a power of two: `& (capacity - 1)` is then a remainder and
   counters wrap evenly.
   */
  ghost predicate Capacity(cap: nat) {
    0 < cap < TWO64 && exists q: nat :: Factors(cap, q)
  }

  // ------------------------------------------------------------ slots

  /** `counter & (capacity - 1)`: the remainder, by repeated subtraction. */
  function Slot(x: nat, cap: nat): (s: nat)
    requires cap > 0
    ensures s < cap
  {
    if x < cap then x else Slot(x - cap, cap)
  }

  lemma {:induction false} SlotAdd(x: nat, cap: nat, k: nat)
    requires cap > 0
    ensures Slot(x + cap * k, cap) == Slot(x, cap)
    decreases k
  {
    if k > 0 {
      SlotAdd(x, cap, k - 1);
      assert cap * k == cap * (k - 1) + cap;
    }
  }

  lemma {:induction false} SlotIsRemainder(x: nat, cap: nat)
    requires cap > 0
    ensures Slot(x, cap) == x % cap
  {
    assert x == x % cap + cap * (x / cap);
    SlotAdd(x % cap, cap, x / cap);
  }

  /** Slots of a counter that has wrapped are those of the true count. */
  lemma {:induction false} WrappedSlot(count: nat, i: nat, cap: nat)
    requires Capacity(cap)
    ensures Slot(count % TWO64 + i, cap) == Slot(count + i, cap)
  {
    var q: nat :| Factors(cap, q);
    var t := count / TWO64;
    assert cap * (q * t) == (cap * q) * t;
    SlotAdd(count % TWO64 + i, cap, q * t);
  }

  lemma {:induction false} DistinctSlots(a: nat, b: nat, cap: nat)
    requires cap > 0 && a < b < a + cap
    ensures Slot(a, cap) != Slot(b, cap)
    decreases a
  {
    if a >= cap { DistinctSlots(a - cap, b - cap, cap); }
  }

  lemma {:induction false} NoWrap(a: nat, i: nat, cap: nat)
    requires cap > 0 && Slot(a, cap) + i < cap
    ensures Slot(a + i, cap) == Slot(a, cap) + i
    decreases a
  {
    if a >= cap { NoWrap(a - cap, i, cap); }
  }

  /** The unsigned difference of two wrapped counters. */
  lemma {:induction false} WrappedDifference(head: nat, tail: nat, cap: nat)
    requires tail <= head <= tail + cap && cap < TWO64
    ensures (head % TWO64 - tail % TWO64) % TWO64 == head - tail
  {
  }

  /** n samples from a counter on. */
  function Window(buf: seq<Pcm>, from: nat, n: nat): (w: seq<Pcm>)
    requires |buf| > 0
    ensures |w| == n
  {
    if n == 0 then [] else Window(buf, from, n - 1) + [buf[Slot(from + (n - 1), |buf|)]]
  }

  /** A store past a window that leaves room does not touch it. */
  lemma {:induction false} StorePastWindow(buf: seq<Pcm>, from: nat, n: nat, at: nat, x: Pcm)
    requires n <= at < |buf|
    ensures Window(buf[Slot(from + at, |buf|) := x], from, n) == Window(buf, from, n)
  {
    if n > 0 {
      StorePastWindow(buf, from, n - 1, at, x);
      DistinctSlots(from + (n - 1), from + at, |buf|);
    }
  }

  lemma {:induction false} WindowGrows(buf: seq<Pcm>, from: nat, n: nat, x: Pcm)
    requires n < |buf|
    ensures Window(buf[Slot(from + n, |buf|) := x], from, n + 1) == Window(buf, from, n) + [x]
  {
    StorePastWindow(buf, from, n, n, x);
  }

  /** A window seen from k samples on, with the counter wrapped. */
  lemma {:induction false} WindowMoves(buf: seq<Pcm>, from: nat, n: nat, k: nat)
    requires Capacity(|buf|) && k <= n
    ensures Window(buf, from, n) == Window(buf, from, k) + Window(buf, (from + k) % TWO64, n - k)
  {
    if n > k {
      WindowMoves(buf, from, n - 1, k);
      WrappedSlot(from + k, n - 1 - k, |buf|);
      assert from + k + (n - 1 - k) == from + (n - 1);
    }
  }

  lemma {:induction false} WindowAt(buf: seq<Pcm>, from: nat, n: nat, i: nat)
    requires |buf| > 0 && i < n
    ensures Window(buf, from, n)[i] == buf[Slot(from + i, |buf|)]
  {
    if i < n - 1 { WindowAt(buf, from, n - 1, i); }
  }

  lemma {:induction false} WindowSplit(buf: seq<Pcm>, from: nat, n: nat, k: nat)
    requires |buf| > 0 && k <= n
    ensures Window(buf, from, n) == Window(buf, from, k) + Window(buf, from + k, n - k)
  {
    if n > k {
      WindowSplit(buf, from, n - 1, k);
      assert from + k + (n - 1 - k) == from + (n - 1);
    }
  }

  // --------------------------------------------------- the shared ring

  /** What each side is in the middle of. */
  datatype Producer = Writes | Storing(data: seq<Pcm>, stored: nat)
  datatype Consumer = Reads | Loading(len: nat, loaded: seq<Pcm>) | Skipping(len: nat)

  /** What the consumer got for a position: its sample, or nothing if it was dropped. */
  datatype Entry = Got(x: Pcm) | Dropped

  datatype Ring = Ring(
    buf: seq<Pcm>, head: nat, tail: nat,    // shared memory
    producer: Producer, consumer: Consumer,
    written: seq<Pcm>,                      // all samples published (history)
    log: seq<Entry>)                        // all positions consumed (history)

  /** One memory access, or the snapshot that starts a call. */
  datatype Access =
    | BeginWrite(data: seq<Pcm>)   // reads tail
    | Store                        // writes a slot
    | PublishHead
    | BeginRead(len: nat)          // reads head
    | BeginDrop(len: nat)
    | BeginClear
    | Load                         // reads a slot
    | PublishTail

  function Start(cap: nat): Ring {
    Ring(seq(cap, _ => 0), 0, 0, Writes, Reads, [], [])
  }

  /** sm_ring_readable, as either side computes it. */
  function Readable(r: Ring): nat {
    Min((r.head - r.tail) % TWO64, |r.buf|)
  }

  /** Entries for samples that were read. */
  function GotAll(xs: seq<Pcm>): seq<Entry> {
    seq(|xs|, i requires 0 <= i < |xs| => Got(xs[i]))
  }

  function DroppedAll(n: nat): seq<Entry> {
    seq(n, _ => Dropped)
  }

  /** An access that its side is not at changes nothing. */
  function Step(r: Ring, a: Access): Ring
    requires |r.buf| > 0
  {
    match a
    case BeginWrite(data) =>
      if !r.producer.Writes? then r
      else r.(producer := Storing(data[..Min(|data|, |r.buf| - Readable(r))], 0))
    case Store =>
      if !r.producer.Storing? || r.producer.stored >= |r.producer.data| then r
      else
        var i := r.producer.stored;
        r.(buf := r.buf[Slot(r.head + i, |r.buf|) := r.producer.data[i]], producer := Storing(r.producer.data, i + 1))
    case PublishHead =>
      if !r.producer.Storing? || r.producer.stored < |r.producer.data| then r
      else r.(head := (r.head + |r.producer.data|) % TWO64, producer := Writes,
              written := r.written + r.producer.data)
    case BeginRead(len) =>
      if r.consumer.Reads? then r.(consumer := Loading(Min(len, Readable(r)), [])) else r
    case BeginDrop(len) =>
      if r.consumer.Reads? then r.(consumer := Skipping(Min(len, Readable(r)))) else r
    case BeginClear =>
      if r.consumer.Reads? then r.(consumer := Skipping((r.head - r.tail) % TWO64)) else r
    case Load =>
      if !r.consumer.Loading? || |r.consumer.loaded| >= r.consumer.len then r
      else
        var x := r.buf[Slot(r.tail + |r.consumer.loaded|, |r.buf|)];
        r.(consumer := Loading(r.consumer.len, r.consumer.loaded + [x]))
    case PublishTail =>
      match r.consumer
      case Reads => r
      case Skipping(len) =>
        r.(tail := (r.tail + len) % TWO64, consumer := Reads, log := r.log + DroppedAll(len))
      case Loading(len, loaded) =>
        if |loaded| < len then r
        else r.(tail := (r.tail + len) % TWO64, consumer := Reads, log := r.log + GotAll(loaded))
  }

  function Run(cap: nat, accesses: seq<Access>): (r: Ring)
    requires cap > 0
    ensures |r.buf| == cap
  {
    if accesses == [] then Start(cap)
    else Step(Run(cap, accesses[..|accesses| - 1]), accesses[|accesses| - 1])
  }

  // -------------------------------------------------------------- invariant

  /** Published and not yet consumed, then stored and not yet published. */
  function Outstanding(r: Ring): seq<Pcm>
    requires |r.log| <= |r.written|
    requires r.producer.Storing? ==> r.producer.stored <= |r.producer.data|
  {
    r.written[|r.log|..] + if r.producer.Storing? then r.producer.data[..r.producer.stored] else []
  }

  /** The counters agree with the history, and the slots from the tail on with its end. */
  ghost predicate Stored(r: Ring) {
    && Capacity(|r.buf|)
    && r.head == |r.written| % TWO64 && r.tail == |r.log| % TWO64
    && |r.log| <= |r.written| <= |r.log| + |r.buf|
    && (r.producer.Storing? ==>
          r.producer.stored <= |r.producer.data| && |r.written| + |r.producer.data| <= |r.log| + |r.buf|)
    && Window(r.buf, |r.log|, |Outstanding(r)|) == Outstanding(r)
  }

  predicate ConsumerSound(r: Ring) {
    match r.consumer
    case Reads => true
    case Skipping(len) => |r.log| + len <= |r.written|
    case Loading(len, loaded) =>
      |r.log| + len <= |r.written| && |loaded| <= len && loaded <= r.written[|r.log|..]
  }

  /** Everything consumed is what was written at that position. */
  predicate InOrder(r: Ring) {
    && |r.log| <= |r.written|
    && forall k :: 0 <= k < |r.log| && r.log[k].Got? ==> r.log[k].x == r.written[k]
  }

  ghost predicate Inv(r: Ring) {
    Stored(r) && ConsumerSound(r) && InOrder(r)
  }

  lemma {:induction false} CounterAdvances(count: nat, n: nat)
    ensures (count % TWO64 + n) % TWO64 == (count + n) % TWO64
  {
  }

  lemma {:induction false} StoreKeeps(r: Ring)
    requires Inv(r) && r.producer.Storing? && r.producer.stored < |r.producer.data|
    ensures Inv(Step(r, Store))
  {
    var i, x, out := r.producer.stored, r.producer.data[r.producer.stored], Outstanding(r);
    WrappedSlot(|r.written|, i, |r.buf|);
    assert |r.written| + i == |r.log| + |out|;
    WindowGrows(r.buf, |r.log|, |out|, x);
    assert Outstanding(Step(r, Store)) == out + [x];
  }

  lemma {:induction false} PublishKeeps(r: Ring)
    requires Inv(r) && r.producer.Storing? && r.producer.stored == |r.producer.data|
    ensures Inv(Step(r, PublishHead))
  {
    CounterAdvances(|r.written|, |r.producer.data|);
    assert Outstanding(Step(r, PublishHead)) == Outstanding(r);
  }

  lemma {:induction false} BeginWriteKeeps(r: Ring, data: seq<Pcm>)
    requires Inv(r) && r.producer.Writes?
    ensures Inv(Step(r, BeginWrite(data)))
  {
    ReadableIs(r);
    assert Outstanding(Step(r, BeginWrite(data))) == Outstanding(r);
  }

  /** A change of the consumer's own state touches nothing shared. */
  lemma {:induction false} ConsumerOnly(r: Ring, c: Consumer)
    requires Inv(r) && ConsumerSound(r.(consumer := c))
    ensures Inv(r.(consumer := c))
  {
    assert Outstanding(r.(consumer := c)) == Outstanding(r);
  }

  lemma {:induction false} LoadKeeps(r: Ring)
    requires Inv(r) && r.consumer.Loading? && |r.consumer.loaded| < r.consumer.len
    ensures Inv(Step(r, Load))
  {
    var i := |r.consumer.loaded|;
    var x := r.written[|r.log| + i];
    LoadsWritten(r, i);
    var c := Loading(r.consumer.len, r.consumer.loaded + [x]);
    assert c.loaded <= r.written[|r.log|..];
    ConsumerOnly(r, c);
  }

  lemma {:induction false} LoadsWritten(r: Ring, i: nat)
    requires Stored(r) && |r.log| + i < |r.written|
    ensures r.buf[Slot(r.tail + i, |r.buf|)] == r.written[|r.log| + i]
  {
    WrappedSlot(|r.log|, i, |r.buf|);
    WindowAt(r.buf, |r.log|, |Outstanding(r)|, i);
  }

  lemma {:induction false} TailKeeps(r: Ring, r': Ring, entries: seq<Entry>)
    requires Inv(r) && |r.log| + |entries| <= |r.written|
    requires forall j :: 0 <= j < |entries| && entries[j].Got? ==> entries[j].x == r.written[|r.log| + j]
    requires r' == r.(tail := (r.tail + |entries|) % TWO64, consumer := Reads, log := r.log + entries)
    ensures Inv(r')
  {
    CounterAdvances(|r.log|, |entries|);
    OutstandingShrinks(r, r', |entries|);
    OrderKept(r.log, r.written, entries);
  }

  lemma {:induction false} OutstandingShrinks(r: Ring, r': Ring, n: nat)
    requires Stored(r) && |r.log| + n <= |r.written|
    requires r'.buf == r.buf && r'.written == r.written && r'.producer == r.producer && |r'.log| == |r.log| + n
    ensures Window(r'.buf, |r'.log|, |Outstanding(r')|) == Outstanding(r')
  {
    WindowSplit(r.buf, |r.log|, |Outstanding(r)|, n);
    assert Outstanding(r') == Outstanding(r)[n..];
  }

  lemma {:induction false} OrderKept(log: seq<Entry>, written: seq<Pcm>, entries: seq<Entry>)
    requires |log| + |entries| <= |written|
    requires forall k :: 0 <= k < |log| && log[k].Got? ==> log[k].x == written[k]
    requires forall j :: 0 <= j < |entries| && entries[j].Got? ==> entries[j].x == written[|log| + j]
    ensures forall k :: 0 <= k < |log + entries| && (log + entries)[k].Got? ==> (log + entries)[k].x == written[k]
  {
    forall k | 0 <= k < |log + entries| && (log + entries)[k].Got? ensures (log + entries)[k].x == written[k] {
      if k >= |log| { assert (log + entries)[k] == entries[k - |log|]; }
    }
  }

  lemma {:induction false} ReadableIs(r: Ring)
    requires Stored(r)
    ensures Readable(r) == (r.head - r.tail) % TWO64 == |r.written| - |r.log|
  {
    WrappedDifference(|r.written|, |r.log|, |r.buf|);
  }

  lemma {:induction false} BeginKeeps(r: Ring, a: Access)
    requires Inv(r) && (a.BeginRead? || a.BeginDrop? || a.BeginClear?)
    ensures Inv(Step(r, a))
  {
    ReadableIs(r);
    if r.consumer.Reads? {
      ConsumerOnly(r, Step(r, a).consumer);
    }
  }

  lemma {:induction false} StepKeeps(r: Ring, a: Access)
    requires Inv(r)
    ensures Inv(Step(r, a))
  {
    match a {
      case BeginWrite(data) => if r.producer.Writes? { BeginWriteKeeps(r, data); }
      case Store => if r.producer.Storing? && r.producer.stored < |r.producer.data| { StoreKeeps(r); }
      case PublishHead => if r.producer.Storing? && r.producer.stored == |r.producer.data| { PublishKeeps(r); }
      case Load => if r.consumer.Loading? && |r.consumer.loaded| < r.consumer.len { LoadKeeps(r); }
      case PublishTail =>
        match r.consumer {
          case Reads =>
          case Skipping(len) => TailKeeps(r, Step(r, a), DroppedAll(len));
          case Loading(len, loaded) => if |loaded| == len { TailKeeps(r, Step(r, a), GotAll(loaded)); }
        }
      case _ => BeginKeeps(r, a);
    }
  }

  lemma {:induction false} InvAlways(cap: nat, accesses: seq<Access>)
    requires Capacity(cap)
    ensures Inv(Run(cap, accesses))
  {
    if accesses != [] {
      var n := |accesses| - 1;
      InvAlways(cap, accesses[..n]);
      StepKeeps(Run(cap, accesses[..n]), accesses[n]);
    }
  }

  /**
   Under every interleaving, with counters that wrap at 2^64: what is read or dropped
   is position by position what was written, and never more than the capacity lies
   between the counters.
   */
  lemma {:induction false} ReadsArePrefix(cap: nat, accesses: seq<Access>)
    requires Capacity(cap)
    ensures var r := Run(cap, accesses);
            InOrder(r) && (r.head - r.tail) % TWO64 == |r.written| - |r.log| <= cap
  {
    InvAlways(cap, accesses);
    var r := Run(cap, accesses);
    WrappedDifference(|r.written|, |r.log|, |r.buf|);
  }

  // ------------------------------------------- every call does its work

  function RunFrom(r: Ring, accesses: seq<Access>): (r': Ring)
    requires |r.buf| > 0
    ensures |r'.buf| == |r.buf|
  {
    if accesses == [] then r else Step(RunFrom(r, accesses[..|accesses| - 1]), accesses[|accesses| - 1])
  }

  /** The producer is storing; the consumer does whatever it does. */
  predicate WhileStoring(accesses: seq<Access>) {
    forall a :: a in accesses ==> !a.BeginWrite? && !a.PublishHead?
  }

  function Stores(accesses: seq<Access>): nat {
    if accesses == [] then 0
    else Stores(accesses[..|accesses| - 1]) + if accesses[|accesses| - 1].Store? then 1 else 0
  }

  lemma {:induction false} StoresDone(r: Ring, accesses: seq<Access>)
    requires |r.buf| > 0 && r.producer.Storing? && r.producer.stored == 0 && WhileStoring(accesses)
    ensures var r' := RunFrom(r, accesses);
            && r'.written == r.written
            && r'.producer == Storing(r.producer.data, Min(Stores(accesses), |r.producer.data|))
    decreases |accesses|
  {
    if accesses != [] {
      var n := |accesses| - 1;
      assert accesses[n] in accesses && forall a :: a in accesses[..n] ==> a in accesses;
      StoresDone(r, accesses[..n]);
    }
  }

  /**
   Whatever the consumer does meanwhile, a write publishes as many samples as there was
   room for when it began, once it has stored them all, and nothing before that.
   */
  lemma {:induction false} WriteGoesThrough(r: Ring, data: seq<Pcm>, accesses: seq<Access>)
    requires Inv(r) && r.producer.Writes? && WhileStoring(accesses)
    ensures var r' := Step(RunFrom(Step(r, BeginWrite(data)), accesses), PublishHead);
            var k := Min(|data|, |r.buf| - (|r.written| - |r.log|));
            r'.written == r.written + if Stores(accesses) >= k then data[..k] else []
  {
    ReadableIs(r);
    StoresDone(Step(r, BeginWrite(data)), accesses);
  }

  /** The consumer is loading, or about to move the tail; the producer does whatever it does. */
  predicate WhileTaking(accesses: seq<Access>) {
    forall a :: a in accesses ==> !a.BeginRead? && !a.BeginDrop? && !a.BeginClear? && !a.PublishTail?
  }

  function Loads(accesses: seq<Access>): nat {
    if accesses == [] then 0
    else Loads(accesses[..|accesses| - 1]) + if accesses[|accesses| - 1].Load? then 1 else 0
  }

  /** How far a call of the consumer's has come. */
  predicate Taking(c: Consumer, loads: nat, c': Consumer) {
    match c
    case Reads => c' == c
    case Skipping(_) => c' == c
    case Loading(len, _) => c'.Loading? && c'.len == len && |c'.loaded| == Min(loads, len)
  }

  lemma {:induction false} TakesOn(r: Ring, c: Consumer, loads: nat, a: Access)
    requires |r.buf| > 0 && Taking(c, loads, r.consumer)
    requires !a.BeginRead? && !a.BeginDrop? && !a.BeginClear? && !a.PublishTail?
    ensures var r' := Step(r, a);
            && Taking(c, loads + (if a.Load? then 1 else 0), r'.consumer)
            && r'.log == r.log && r.written <= r'.written
  {
  }

  lemma {:induction false} TakesDone(r: Ring, accesses: seq<Access>)
    requires Inv(r) && WhileTaking(accesses) && (r.consumer.Loading? ==> r.consumer.loaded == [])
    ensures var r' := RunFrom(r, accesses);
            && Inv(r') && r'.log == r.log && r.written <= r'.written
            && Taking(r.consumer, Loads(accesses), r'.consumer)
    decreases |accesses|
  {
    if accesses != [] {
      var n := |accesses| - 1;
      assert accesses[n] in accesses && forall a :: a in accesses[..n] ==> a in accesses;
      TakesDone(r, accesses[..n]);
      StepKeeps(RunFrom(r, accesses[..n]), accesses[n]);
      TakesOn(RunFrom(r, accesses[..n]), r.consumer, Loads(accesses[..n]), accesses[n]);
    }
  }

  /** A read takes as many samples as had been published when it began, in order. */
  lemma {:induction false} ReadGoesThrough(r: Ring, len: nat, accesses: seq<Access>)
    requires Inv(r) && r.consumer.Reads? && WhileTaking(accesses)
    ensures var r' := Step(RunFrom(Step(r, BeginRead(len)), accesses), PublishTail);
            var k := Min(len, |r.written| - |r.log|);
            r'.log == r.log + if Loads(accesses) >= k then GotAll(r.written[|r.log|..][..k]) else []
  {
    ReadableIs(r);
    var r1, k := Step(r, BeginRead(len)), Min(len, |r.written| - |r.log|);
    StepKeeps(r, BeginRead(len));
    TakesDone(r1, accesses);
    LoadedAre(r, k, RunFrom(r1, accesses));
  }

  lemma {:induction false} LoadedAre(r: Ring, k: nat, r': Ring)
    requires Inv(r') && r'.log == r.log && r.written <= r'.written && r'.consumer.Loading?
    requires |r.log| + k <= |r.written| && r'.consumer.len == k
    ensures |r'.consumer.loaded| == k ==> r'.consumer.loaded == r.written[|r.log|..][..k]
  {
    if |r'.consumer.loaded| == k {
      assert r'.consumer.loaded == r'.written[|r'.log|..][..k];
    }
  }

  /** A drop or a clear gives up as many as had been published when it began. */
  lemma {:induction false} DropGoesThrough(r: Ring, a: Access, accesses: seq<Access>)
    requires Inv(r) && r.consumer.Reads? && WhileTaking(accesses) && (a.BeginDrop? || a.BeginClear?)
    ensures var r' := Step(RunFrom(Step(r, a), accesses), PublishTail);
            var there := |r.written| - |r.log|;
            r'.log == r.log + DroppedAll(if a.BeginDrop? then Min(a.len, there) else there)
  {
    ReadableIs(r);
    StepKeeps(r, a);
    TakesDone(Step(r, a), accesses);
  }

  // --------------------------------------------------- the calls, in place

  /** `sm_ring_t` with spsc = 1. */
  class SampleRing {
    const buf: array<Pcm>
    var head: nat
    var tail: nat

    /** Unsigned difference of the counters. */
    function Fill(): nat
      reads this
    {
      (head - tail) % TWO64
    }

    ghost predicate Valid()
      reads this
    {
      Capacity(buf.Length) && head < TWO64 && tail < TWO64 && Fill() <= buf.Length
    }

    ghost function Contents(): seq<Pcm>
      requires Valid()
      reads this, buf
    {
      Window(buf[..], tail, Fill())
    }

    constructor (capacity: nat)
      requires Capacity(capacity)
      ensures Valid() && fresh(buf) && buf.Length == capacity && Contents() == []
    {
      buf := new Pcm[capacity](_ => 0);
      head, tail := 0, 0;
    }

    /** sm_ring_readable */
    method CountReadable() returns (n: nat)
      requires Valid()
      ensures n == |Contents()| == Fill()
    {
      n := Min(Fill(), buf.Length);
    }

    /** The slot loop of a write. */
    method StoreAll(data: seq<Pcm>, ghost fill: nat)
      requires Capacity(buf.Length) && fill + |data| <= buf.Length
      requires head == tail + fill || head + TWO64 == tail + fill
      modifies buf
      ensures Window(buf[..], tail, fill + |data|) == old(Window(buf[..], tail, fill)) + data
    {
      ghost var was := Window(buf[..], tail, fill);
      for i := 0 to |data|
        invariant Window(buf[..], tail, fill + i) == was + data[..i]
      {
        StoreOne(buf[..], head, tail, fill, i, data[i]);
        buf[Slot(head + i, buf.Length)] := data[i];
        assert was + data[..i + 1] == (was + data[..i]) + [data[i]];
      }
    }

    /** The slot loop of a read. */
    method LoadAll(n: nat) returns (data: seq<Pcm>)
      requires buf.Length > 0
      ensures data == Window(buf[..], tail, n)
    {
      data := [];
      for i := 0 to n
        invariant data == Window(buf[..], tail, i)
      {
        data := data + [buf[Slot(tail + i, buf.Length)]];
      }
    }

    /** Takes as much of the data as there is room for. */
    method Write(data: seq<Pcm>) returns (n: nat)
      requires Valid()
      modifies this`head, buf
      ensures Valid() && n == Min(|data|, buf.Length - |old(Contents())|)
      ensures Contents() == old(Contents()) + data[..n]
    {
      var fill := CountReadable();
      n := Min(|data|, buf.Length - fill);
      Behind(head, tail);
      StoreAll(data[..n], fill);
      Publish(n);
    }

    /** The head moves over samples already stored. */
    method Publish(n: nat)
      requires Valid() && Fill() + n <= buf.Length
      modifies this`head
      ensures Valid() && Contents() == Window(buf[..], tail, old(Fill()) + n)
    {
      HeadAdvances(head, tail, n);
      head := (head + n) % TWO64;
    }

    /** The tail moves over samples no longer wanted. */
    method Advance(n: nat)
      requires Valid() && n <= Fill()
      modifies this`tail
      ensures Valid() && old(Contents()) == Window(buf[..], old(tail), n) + Contents()
    {
      WindowMoves(buf[..], tail, Fill(), n);
      TailAdvances(head, tail, n);
      tail := (tail + n) % TWO64;
    }

    method Read(len: nat) returns (data: seq<Pcm>)
      requires Valid()
      modifies this`tail
      ensures Valid() && |data| == Min(len, |old(Contents())|)
      ensures old(Contents()) == data + Contents()
    {
      var fill := CountReadable();
      data := LoadAll(Min(len, fill));
      Advance(Min(len, fill));
    }

    method Drop(len: nat) returns (n: nat)
      requires Valid()
      modifies this`tail
      ensures Valid() && n == Min(len, |old(Contents())|) && Contents() == old(Contents())[n..]
    {
      var fill := CountReadable();
      n := Min(len, fill);
      Advance(n);
    }

    method Clear()
      requires Valid()
      modifies this`tail
      ensures Valid() && Contents() == []
    {
      tail := head;
    }

    /** A contiguous run of readable samples: its offset in the buffer and its length. */
    method Peek() returns (off: nat, avail: nat)
      requires Valid()
      ensures off + avail <= buf.Length && avail <= |Contents()|
      ensures buf[off..off + avail] == Contents()[..avail]
      ensures avail == |Contents()| || off + avail == buf.Length
    {
      off := Slot(tail, buf.Length);
      var fill := CountReadable();
      avail := Min(buf.Length - off, fill);
      Contiguous(buf[..], tail, avail);
      WindowMoves(buf[..], tail, fill, avail);
    }
  }

  /** The head's slots are those that follow the readable ones. */
  lemma {:induction false} HeadSlot(head: nat, tail: nat, n: nat, i: nat, cap: nat)
    requires Capacity(cap) && (head == tail + n || head + TWO64 == tail + n)
    ensures Slot(head + i, cap) == Slot(tail + (n + i), cap)
  {
    var q: nat :| Factors(cap, q);
    SlotAdd(head + i, cap, q);
    assert tail + (n + i) == head + i || tail + (n + i) == head + i + cap * q;
  }

  lemma {:induction false} StoreOne(buf: seq<Pcm>, head: nat, tail: nat, fill: nat, i: nat, x: Pcm)
    requires Capacity(|buf|) && (head == tail + fill || head + TWO64 == tail + fill) && fill + i < |buf|
    ensures Window(buf[Slot(head + i, |buf|) := x], tail, fill + i + 1) == Window(buf, tail, fill + i) + [x]
  {
    HeadSlot(head, tail, fill, i, |buf|);
    WindowGrows(buf, tail, fill + i, x);
  }

  lemma {:induction false} Behind(head: nat, tail: nat)
    requires head < TWO64 && tail < TWO64
    ensures var n := (head - tail) % TWO64; head == tail + n || head + TWO64 == tail + n
  {
  }

  lemma {:induction false} HeadAdvances(head: nat, tail: nat, n: nat)
    requires (head - tail) % TWO64 + n < TWO64
    ensures ((head + n) % TWO64 - tail) % TWO64 == (head - tail) % TWO64 + n
  {
  }

  lemma {:induction false} TailAdvances(head: nat, tail: nat, n: nat)
    requires n <= (head - tail) % TWO64
    ensures (head - (tail + n) % TWO64) % TWO64 == (head - tail) % TWO64 - n
  {
  }

  /** Up to the end of the buffer a window is a slice. */
  lemma {:induction false} Contiguous(buf: seq<Pcm>, from: nat, n: nat)
    requires |buf| > 0 && Slot(from, |buf|) + n <= |buf|
    ensures Window(buf, from, n) == buf[Slot(from, |buf|)..Slot(from, |buf|) + n]
  {
    if n > 0 {
      Contiguous(buf, from, n - 1);
      NoWrap(from, n - 1, |buf|);
    }
  }
}
