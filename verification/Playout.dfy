/**
 The paced audio pump of the SIP bridge (src/sip/sm_sip.c): received frames wait in a
 ring of 32 that drops the oldest when full, one leaves every 20 ms, and each reply
 becomes an RTP packet with running sequence number and timestamp (section 5.1 of
 RFC 3550).
 */
module Playout {
  import opened Bits

  const RING := 32
  const MAX_PAY := 1024
  const TWO16 := 0x1_0000

  /** A frame of at least one sample, cut to what a slot can hold. */
  type Frame = f: seq<Pcm> | 0 < |f| <= MAX_PAY witness [0]

  function Cut(pcm: seq<Pcm>): Frame
    requires pcm != []
  {
    pcm[..Min(|pcm|, MAX_PAY)]
  }

  // -------------------------------------------------------------- the queue

  /** The queue and its history; `entered` and `left` in order, `dropped` counted. */
  datatype Queue = Queue(
    waiting: seq<Frame>, tickSize: nat, entered: seq<Frame>, fed: seq<Frame>, dropped: seq<Frame>, underruns: nat)

  datatype Event = Packet(pcm: seq<Pcm>) | Tick

  /** Room is made by giving up the oldest frame. */
  function MakeRoom(waiting: seq<Frame>): seq<Frame> {
    if |waiting| + 1 == RING then waiting[1..] else waiting
  }

  /** enqueue_rx */
  function Enqueue(q: Queue, pcm: seq<Pcm>): Queue {
    if pcm == [] then q
    else
      var f := Cut(pcm);
      q.(waiting := MakeRoom(q.waiting) + [f], tickSize := |f|, entered := q.entered + [f],
         dropped := if |q.waiting| + 1 == RING then q.dropped + [q.waiting[0]] else q.dropped)
  }

  /** The frame audio_tick hands on: the oldest one, or silence of the last frame's size. */
  function Next(q: Queue): seq<Pcm> {
    if q.waiting != [] then q.waiting[0] else seq(q.tickSize, _ => 0)
  }

  function Step(q: Queue, e: Event): Queue {
    match e
    case Packet(pcm) => Enqueue(q, pcm)
    case Tick =>
      if q.waiting == [] then q.(underruns := q.underruns + 1)
      else q.(waiting := q.waiting[1..], fed := q.fed + [q.waiting[0]])
  }

  /** handle_invite: an empty queue and 20 ms of silence per tick. */
  const FRESH := Queue([], 160, [], [], [], 0)

  function Run(es: seq<Event>): Queue {
    if es == [] then FRESH else Step(Run(es[..|es| - 1]), es[|es| - 1])
  }

  /** The frames handed on, one for each tick. */
  function Handed(es: seq<Event>): seq<seq<Pcm>> {
    if es == [] then []
    else
      var n := |es| - 1;
      Handed(es[..n]) + if es[n].Tick? then [Next(Run(es[..n]))] else []
  }

  /** The ways to merge two sequences, keeping the order of each. */
  ghost predicate Merges(all: seq<Frame>, xs: seq<Frame>, ys: seq<Frame>) {
    if all == [] then xs == [] && ys == []
    else
      var n, last := |all| - 1, all[|all| - 1];
      || (xs != [] && xs[|xs| - 1] == last && Merges(all[..n], xs[..|xs| - 1], ys))
      || (ys != [] && ys[|ys| - 1] == last && Merges(all[..n], xs, ys[..|ys| - 1]))
  }

  /** Every frame that entered has been fed, was dropped, or waits; nothing else exists. */
  ghost predicate Conserved(q: Queue) {
    && |q.waiting| < RING && |q.waiting| <= |q.entered|
    && var gone := |q.entered| - |q.waiting|;
       q.waiting == q.entered[gone..] && Merges(q.entered[..gone], q.fed, q.dropped)
  }

  lemma {:induction false} EnqueueConserves(q: Queue, pcm: seq<Pcm>)
    requires Conserved(q)
    ensures Conserved(Enqueue(q, pcm))
  {
    if pcm != [] {
      var q' := Enqueue(q, pcm);
      var gone := |q.entered| - |q.waiting|;
      if |q.waiting| + 1 == RING {
        assert q'.entered[..gone + 1][..gone] == q.entered[..gone];
        assert q'.entered[gone] == q.waiting[0];
        assert q'.dropped[..|q'.dropped| - 1] == q.dropped;
        assert q'.waiting == q'.entered[gone + 1..];
      } else {
        assert q'.entered[..gone] == q.entered[..gone];
        assert q'.waiting == q'.entered[gone..];
      }
    }
  }

  lemma {:induction false} TickConserves(q: Queue)
    requires Conserved(q)
    ensures Conserved(Step(q, Tick))
  {
    if q.waiting != [] {
      var q' := Step(q, Tick);
      var gone := |q.entered| - |q.waiting|;
      assert q'.entered[..gone + 1][..gone] == q.entered[..gone];
      assert q'.entered[gone] == q.waiting[0];
      assert q'.fed[..|q'.fed| - 1] == q.fed;
    }
  }

  /**
   Over every run the queue is first in, first out with drop-oldest at 31 frames: what
   entered, less what waits, is an order-preserving merge of what was fed and what
   was dropped, so entered = fed + dropped + waiting.
   */
  lemma {:induction false} AlwaysConserved(es: seq<Event>)
    ensures Conserved(Run(es))
    ensures |Run(es).entered| == |Run(es).fed| + |Run(es).dropped| + |Run(es).waiting|
  {
    if es == [] {
      assert Merges([], [], []);
    } else {
      var q := Run(es[..|es| - 1]);
      AlwaysConserved(es[..|es| - 1]);
      match es[|es| - 1] {
        case Packet(pcm) => EnqueueConserves(q, pcm);
        case Tick => TickConserves(q);
      }
    }
    var q := Run(es);
    MergesCount(q.entered[..|q.entered| - |q.waiting|], q.fed, q.dropped);
  }

  lemma {:induction false} MergesCount(all: seq<Frame>, xs: seq<Frame>, ys: seq<Frame>)
    requires Merges(all, xs, ys)
    ensures |all| == |xs| + |ys|
  {
    if all != [] {
      var n, last := |all| - 1, all[|all| - 1];
      if xs != [] && xs[|xs| - 1] == last && Merges(all[..n], xs[..|xs| - 1], ys) {
        MergesCount(all[..n], xs[..|xs| - 1], ys);
      } else {
        MergesCount(all[..n], xs, ys[..|ys| - 1]);
      }
    }
  }

  /** The packets of a run that carry samples. */
  function Packets(es: seq<Event>): (ps: seq<seq<Pcm>>)
    ensures forall p :: p in ps ==> p != []
  {
    if es == [] then []
    else
      var n := |es| - 1;
      Packets(es[..n]) + if es[n].Packet? && es[n].pcm != [] then [es[n].pcm] else []
  }

  /** What enters the queue are the packets, one frame for each, its first 1024 samples. */
  lemma {:induction false} EnteredAre(es: seq<Event>)
    ensures |Run(es).entered| == |Packets(es)|
    ensures forall k :: 0 <= k < |Packets(es)| ==>
              Run(es).entered[k] <= Packets(es)[k] && |Run(es).entered[k]| == Min(|Packets(es)[k]|, 1024)
    ensures Run(es).tickSize == if Packets(es) == [] then 160 else |Run(es).entered[|Packets(es)| - 1]|
  {
    if es != [] { EnteredAre(es[..|es| - 1]); }
  }

  /** A packet is kept unless 31 frames wait; then the oldest of them is given up for it. */
  lemma {:induction false} PacketWaits(es: seq<Event>, pcm: seq<Pcm>)
    requires pcm != []
    ensures var q, q' := Run(es), Run(es + [Packet(pcm)]);
            && |q'.waiting| == Min(|q.waiting| + 1, 31) && |q'.entered| == |q.entered| + 1
            && q'.dropped == q.dropped + (if |q.waiting| == 31 then [q.waiting[0]] else []) && q'.fed == q.fed
  {
    assert (es + [Packet(pcm)])[..|es|] == es;
    AlwaysConserved(es);
  }

  /** The handed frames that came out of the queue. */
  function Sounding(es: seq<Event>): seq<seq<Pcm>> {
    if es == [] then []
    else
      var n := |es| - 1;
      Sounding(es[..n]) + if es[n].Tick? && Run(es[..n]).waiting != [] then [Handed(es)[|Handed(es)| - 1]] else []
  }

  /**
   Each tick hands on a frame: the next one out of the queue if any waits, and else as many
   zeros as the newest frame is long, which is counted.
   */
  lemma {:induction false} TicksHand(es: seq<Event>)
    ensures |Handed(es)| == |Run(es).fed| + Run(es).underruns
    ensures |Sounding(es)| == |Run(es).fed| && forall k :: 0 <= k < |Sounding(es)| ==> Sounding(es)[k] == Run(es).fed[k]
    ensures var out := Handed(es + [Tick]);
            |out| == |Handed(es)| + 1
            && (Run(es).waiting == [] ==> out[|out| - 1] == seq(Run(es).tickSize, _ => 0))
  {
    if es != [] { TicksHand(es[..|es| - 1]); }
    assert (es + [Tick])[..|es|] == es;
  }

  // ------------------------------------------------------------ RTP counters

  /** Sequence number and timestamp of the next packet. */
  datatype Rtp = Rtp(seqNo: nat, stamp: nat)

  /** A packet as sent: its header fields and its samples. */
  datatype Sent = Sent(seqNo: nat, stamp: nat, samples: nat)

  function SendOne(r: Rtp, samples: nat): Rtp {
    Rtp((r.seqNo + 1) % TWO16, (r.stamp + samples) % TWO32)
  }

  function SendAll(r: Rtp, sizes: seq<nat>): Rtp {
    if sizes == [] then r else SendOne(SendAll(r, sizes[..|sizes| - 1]), sizes[|sizes| - 1])
  }

  function Sum(ns: seq<nat>): nat {
    if ns == [] then 0 else Sum(ns[..|ns| - 1]) + ns[|ns| - 1]
  }

  /** After any run the counters are the start plus packets and samples, modulo their width. */
  lemma {:induction false} CountersAddUp(r: Rtp, sizes: seq<nat>)
    requires r.seqNo < TWO16 && r.stamp < TWO32
    ensures SendAll(r, sizes).seqNo == (r.seqNo + |sizes|) % TWO16
    ensures SendAll(r, sizes).stamp == (r.stamp + Sum(sizes)) % TWO32
  {
    if sizes != [] { CountersAddUp(r, sizes[..|sizes| - 1]); }
  }

  // ----------------------------------------------------------- in place

  /** Slots of the ring from one index to another. */
  function Between(slots: seq<Frame>, tail: nat, head: nat): (w: seq<Frame>)
    requires |slots| == RING && head < RING && tail < RING
  {
    if tail <= head then slots[tail..head] else slots[tail..] + slots[..head]
  }

  class Bridge {
    var rxq: array<Frame>
    var head: nat
    var tail: nat
    var tickSize: nat
    var underruns: nat
    var drops: nat
    var rtp: Rtp

    ghost predicate Valid()
      reads this
    {
      rxq.Length == RING && head < RING && tail < RING
    }

    ghost function Waiting(): seq<Frame>
      requires Valid()
      reads this, rxq
    {
      Between(rxq[..], tail, head)
    }

    constructor (rtp: Rtp)
      ensures Valid() && fresh(rxq) && Waiting() == [] && tickSize == 160 && this.rtp == rtp
      ensures underruns == drops == 0
    {
      rxq := new Frame[RING](_ => [0]);
      head, tail, tickSize, underruns, drops := 0, 0, 160, 0, 0;
      this.rtp := rtp;
    }

    /** enqueue_rx */
    method EnqueueRx(pcm: seq<Pcm>)
      requires Valid()
      modifies this`head, this`tail, this`tickSize, this`drops, rxq
      ensures Valid() && rxq == old(rxq)
      ensures pcm == [] ==> Waiting() == old(Waiting()) && tickSize == old(tickSize) && drops == old(drops)
      ensures pcm != [] ==> Waiting() == MakeRoom(old(Waiting())) + [Cut(pcm)] && tickSize == |Cut(pcm)|
      ensures pcm != [] ==> drops == old(drops) + if |old(Waiting())| + 1 == RING then 1 else 0
    {
      if pcm == [] {
        return;
      }
      var f := Cut(pcm);
      tickSize := |f|;
      var next := (head + 1) % RING;
      EnqueueSlots(rxq[..], tail, head, f);
      if next == tail {
        tail := (tail + 1) % RING;
        drops := drops + 1;
      }
      rxq[head] := f;
      head := next;
    }

    /** audio_tick, up to the frame it hands to the daemon. */
    method TakeFrame() returns (pcm: seq<Pcm>)
      requires Valid()
      modifies this`tail, this`underruns
      ensures Valid()
      ensures old(Waiting()) != [] ==> pcm == old(Waiting())[0] && Waiting() == old(Waiting())[1..]
      ensures old(Waiting()) == [] ==> pcm == seq(tickSize, _ => 0) && Waiting() == []
      ensures underruns == old(underruns) + if old(Waiting()) == [] then 1 else 0
    {
      if head != tail {
        TakeSlot(rxq[..], tail, head);
        pcm := rxq[tail];
        tail := (tail + 1) % RING;
      } else {
        pcm := seq(tickSize, _ => 0);
        underruns := underruns + 1;
      }
    }

    /** The bridge stands where the queue q does. */
    ghost predicate Shows(q: Queue)
      reads this, rxq
    {
      && Valid() && Waiting() == q.waiting && tickSize == q.tickSize
      && underruns == q.underruns && drops == |q.dropped|
    }

    /** One packet or tick. */
    method Meet(e: Event, ghost q: Queue) returns (handed: seq<seq<Pcm>>)
      requires Shows(q)
      modifies this`head, this`tail, this`tickSize, this`drops, this`underruns, rxq
      ensures Shows(Step(q, e)) && rxq == old(rxq)
      ensures handed == if e.Tick? then [Next(q)] else []
    {
      handed := [];
      match e {
        case Packet(pcm) => EnqueueRx(pcm);
        case Tick =>
          var frame := TakeFrame();
          handed := [frame];
      }
    }

    /** A bridge over a whole call: what it hands on, tick by tick, and where it stands. */
    static method Serve(es: seq<Event>, rtp: Rtp) returns (b: Bridge, handed: seq<seq<Pcm>>)
      ensures fresh(b) && fresh(b.rxq) && b.Shows(Run(es)) && Conserved(Run(es))
      ensures handed == Handed(es)
    {
      b := new Bridge(rtp);
      handed := [];
      for i := 0 to |es|
        invariant fresh(b) && fresh(b.rxq) && b.Shows(Run(es[..i])) && handed == Handed(es[..i])
      {
        assert es[..i + 1][..i] == es[..i];
        var more := b.Meet(es[i], Run(es[..i]));
        handed := handed + more;
      }
      assert es[..|es|] == es;
      AlwaysConserved(es);
    }

    /** The packet of feed_daemon for a reply of `ns` samples. */
    method SendRtp(ns: nat) returns (p: Sent)
      modifies this`rtp
      ensures p == Sent(old(rtp).seqNo, old(rtp).stamp, Min(ns, MAX_PAY))
      ensures rtp == SendOne(old(rtp), p.samples)
    {
      var outLen := if ns < MAX_PAY then ns else MAX_PAY;
      p := Sent(rtp.seqNo, rtp.stamp, outLen);
      rtp := Rtp((rtp.seqNo + 1) % TWO16, (rtp.stamp + outLen) % TWO32);
    }
  }

  lemma {:induction false} NextSlot(k: nat)
    requires k < RING
    ensures (k + 1) % RING == if k + 1 == RING then 0 else k + 1
  {
  }

  /** Moving the tail gives up the oldest. */
  lemma {:induction false} TakeSlot(slots: seq<Frame>, tail: nat, head: nat)
    requires |slots| == RING && head < RING && tail < RING && head != tail
    ensures var w := Between(slots, tail, head);
            && w != [] && w[0] == slots[tail] && Between(slots, (tail + 1) % RING, head) == w[1..]
  {
    NextSlot(tail);
  }

  /** Writing at the head appends. */
  lemma {:induction false} PutSlot(slots: seq<Frame>, tail: nat, head: nat, f: Frame)
    requires |slots| == RING && head < RING && tail < RING && (head + 1) % RING != tail
    ensures Between(slots[head := f], tail, (head + 1) % RING) == Between(slots, tail, head) + [f]
  {
    NextSlot(head);
  }

  lemma {:induction false} FullRing(slots: seq<Frame>, tail: nat, head: nat)
    requires |slots| == RING && head < RING && tail < RING
    ensures (head + 1) % RING == tail <==> |Between(slots, tail, head)| + 1 == RING
  {
    NextSlot(head);
  }

  /** Writing at the head appends; moving the tail first gives up the oldest. */
  lemma {:induction false} EnqueueSlots(slots: seq<Frame>, tail: nat, head: nat, f: Frame)
    requires |slots| == RING && head < RING && tail < RING
    ensures var next, w := (head + 1) % RING, Between(slots, tail, head);
            && (next == tail <==> |w| + 1 == RING)
            && Between(slots[head := f], if next == tail then (tail + 1) % RING else tail, next)
               == MakeRoom(w) + [f]
  {
    FullRing(slots, tail, head);
    if (head + 1) % RING != tail {
      PutSlot(slots, tail, head, f);
    } else {
      var tail' := (tail + 1) % RING;
      NextSlot(head);
      NextSlot(tail);
      TakeSlot(slots, tail, head);
      PutSlot(slots, tail', head, f);
    }
  }
}
