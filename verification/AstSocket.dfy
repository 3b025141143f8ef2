/**
 The AudioSocket byte stream (src/ast_socket/sm_ast_socket.c): one byte of kind, two of
 length, then the payload. The reader is resumable: whatever the stream is cut into,
 and wherever time-outs fall, it delivers the messages that were written.
 */
module AstSocket {
  import opened Bits

  const MAX_PAYLOAD := 4096
  const SCRATCH := 256

  datatype Message = Message(kind: Byte, payload: seq<Byte>)

  /** What can be sent: the length field has 16 bits. */
  predicate Sendable(m: Message) {
    |m.payload| <= 0xFFFF
  }

  function Encode(m: Message): seq<Byte>
    requires Sendable(m)
  {
    [m.kind, |m.payload| / 256, |m.payload| % 256] + m.payload
  }

  function EncodeAll(ms: seq<Message>): seq<Byte>
    requires forall m :: m in ms ==> Sendable(m)
  {
    if ms == [] then [] else Encode(ms[0]) + EncodeAll(ms[1..])
  }

  /** The header: the kind, then the length with its higher byte first. */
  lemma {:induction false} HeaderIs(m: Message)
    requires Sendable(m)
    ensures var e := Encode(m);
            && e[0] == m.kind && Length(e[1], e[2]) == |m.payload| && e[1] as int == |m.payload| / 256
            && |e| == Announced(e) && e[3..] == m.payload
  {
    assert Encode(m)[..3] == [m.kind, |m.payload| / 256, |m.payload| % 256];
  }

  // ------------------------------------------------------------- receiving

  /** A big-endian length field. */
  function Length(hi: Byte, lo: Byte): nat {
    256 * (hi as int) + (lo as int)
  }

  /** Bytes of a whole message announced by its first three. */
  function Announced(cur: seq<Byte>): nat
    requires |cur| >= 3
  {
    3 + Length(cur[1], cur[2])
  }

  /** The bytes are a beginning of a message, not all of it. */
  predicate Partial(cur: seq<Byte>) {
    |cur| < 3 || |cur| < Announced(cur)
  }

  predicate Whole(cur: seq<Byte>) {
    |cur| >= 3 && |cur| == Announced(cur)
  }

  /** What one recv can come to: a wait that times out, an error or end, a retry, or bytes. */
  datatype Outcome = TimedOut | Failed | Interrupted | Bytes(n: nat)

  /** How often recv is interrupted before it comes to anything. */
  function Retries(s: seq<Outcome>): (n: nat)
    ensures n <= |s| && (n < |s| ==> !s[n].Interrupted?)
  {
    if s == [] || !s[0].Interrupted? then 0 else 1 + Retries(s[1..])
  }

  /** 0 for a time-out, -1 for a failure or the end of the stream, and else how many bytes. */
  function Answer(o: Outcome, want: nat, left: nat): int {
    match o
    case Bytes(n) => if n == 0 || left == 0 then -1 else Min(Min(n, want), left)
    case Failed => -1
    case _ => 0
  }

  /** The first outcome that is no interruption decides; with none left the wait runs out. */
  predicate Answered(before: seq<Outcome>, after: seq<Outcome>, want: nat, left: nat, r: int) {
    var i := Retries(before);
    if i == |before| then r == 0 && after == []
    else r == Answer(before[i], want, left) && after == before[i + 1..]
  }

  /** What is left of a schedule. */
  predicate Since(before: seq<Outcome>, after: seq<Outcome>) {
    |after| <= |before| && after == before[|before| - |after|..]
  }

  /** The outcome that came last. */
  function Latest(before: seq<Outcome>, after: seq<Outcome>): Outcome
    requires |after| < |before|
  {
    before[|before| - |after| - 1]
  }

  /** A wait has run out: by a time-out, or because nothing more will ever come. */
  predicate Paused(before: seq<Outcome>, after: seq<Outcome>) {
    after == [] || (|after| < |before| && Latest(before, after).TimedOut?)
  }

  /** The connection has failed or ended. */
  predicate Broke(before: seq<Outcome>, after: seq<Outcome>, data: seq<Byte>) {
    |after| < |before|
    && var o := Latest(before, after); o.Failed? || (o.Bytes? && (o.n == 0 || data == []))
  }

  lemma {:induction false} SinceTwice(a: seq<Outcome>, b: seq<Outcome>, c: seq<Outcome>, data: seq<Byte>)
    requires Since(a, b) && Since(b, c)
    ensures Since(a, c) && (Paused(b, c) ==> Paused(a, c)) && (Broke(b, c, data) ==> Broke(a, c, data))
  {
    assert |c| < |b| ==> b[|b| - |c| - 1] == a[|a| - |c| - 1];
  }

  lemma {:induction false} AnswerMeans(before: seq<Outcome>, after: seq<Outcome>, want: nat, data: seq<Byte>,
                                       left: nat, r: int)
    requires Answered(before, after, want, left, r) && want > 0 && (r == -1 ==> left == |data|)
    ensures Since(before, after) && (r == 0 ==> Paused(before, after)) && (r == -1 ==> Broke(before, after, data))
  {
  }

  /** The peer's remaining bytes and the schedule of what recv will do. */
  class Wire {
    var data: seq<Byte>
    var schedule: seq<Outcome>

    constructor (data: seq<Byte>, schedule: seq<Outcome>)
      ensures this.data == data && this.schedule == schedule
    {
      this.data, this.schedule := data, schedule;
    }

    /** poll and recv: at most `want` bytes; EINTR and EAGAIN try again. */
    method Receive(want: nat) returns (got: seq<Byte>, r: int)
      requires want > 0
      modifies this
      ensures old(data) == got + data && |got| <= want
      ensures r == |got| > 0 || (got == [] && (r == 0 || r == -1))
      ensures Answered(old(schedule), schedule, want, |old(data)|, r)
    {
      ghost var before := schedule;
      while schedule != []
        invariant data == old(data) && |schedule| <= |before| && schedule == before[|before| - |schedule|..]
        invariant Retries(before) == |before| - |schedule| + Retries(schedule)
        decreases |schedule|
      {
        assert schedule[1..] == before[|before| - |schedule| + 1..];
        var next := schedule[0];
        schedule := schedule[1..];
        match next {
          case Interrupted =>
          case TimedOut => return [], 0;
          case Failed => return [], -1;
          case Bytes(n) =>
            var k := Min(Min(n, want), |data|);
            if k == 0 {
              return [], -1;      // end of stream
            }
            got := data[..k];
            data := data[k..];
            return got, k;
        }
      }
      return [], 0;
    }
  }

  /**
   A call of the reader: the caller's buffer size, the bytes consumed, what was
   returned, and the bytes of the current message held afterwards.
   */
  datatype Call = Call(
    bufLen: nat, got: seq<Byte>, result: int, kind: Byte, payload: seq<Byte>, len: nat, after: seq<Byte>)

  /**
   The contract of a call on a reader that already holds `cur` of the current message:
   with result 1 the bytes held and consumed are exactly one message, and its kind,
   full length and first `bufLen` payload bytes are reported; otherwise they are still
   less than a message. Not a byte beyond a message boundary is consumed.
   */
  ghost predicate Reads(cur: seq<Byte>, c: Call) {
    if c.result == 1 then
      && Whole(cur + c.got) && c.after == []
      && c.kind == (cur + c.got)[0] && c.len == |cur + c.got| - 3
      && c.payload == (cur + c.got)[3..3 + Min(c.len, c.bufLen)]
    else
      (c.result == 0 || c.result == -1) && c.after == cur + c.got && Partial(c.after)
  }

  /** `sm_ast_socket_t` */
  class Reader {
    var rxbuf: array<Byte>
    var rxlen: nat
    var rxhead: seq<Byte>      // rxhead[..rxhdr]
    var expected: nat
    var kind: Byte
    var pending: bool
    ghost var cur: seq<Byte>   // every byte of the current message consumed so far

    ghost predicate Valid()
      reads this, rxbuf
    {
      && rxbuf.Length == MAX_PAYLOAD
      && Partial(cur)
      && (pending <==> |cur| >= 3)
      && (!pending ==> rxhead == cur)
      && (pending ==> Buffered(cur))
    }

    /** The payload so far, of which the first 4096 bytes are kept. */
    ghost predicate Buffered(c: seq<Byte>)
      reads this, rxbuf
    {
      && rxbuf.Length == MAX_PAYLOAD && |c| >= 3
      && kind == c[0] && 3 + expected == Announced(c) && |c| == 3 + rxlen && rxlen <= expected
      && rxbuf[..Min(rxlen, MAX_PAYLOAD)] == c[3..3 + Min(rxlen, MAX_PAYLOAD)]
    }

    constructor ()
      ensures Valid() && cur == [] && fresh(rxbuf)
    {
      rxbuf := new Byte[MAX_PAYLOAD](_ => 0);
      rxlen, rxhead, expected, kind, pending, cur := 0, [], 0, 0, false, [];
    }

    /** Phase 1: three header bytes, however they arrive. */
    method ReadHeader(wire: Wire) returns (r: int, ghost got: seq<Byte>)
      requires Valid() && !pending
      modifies this, wire
      ensures rxbuf == old(rxbuf) && old(wire.data) == got + wire.data && cur == old(cur) + got
      ensures r == 1 ==> pending && Buffered(cur) && |cur| == 3
      ensures r != 1 ==> (r == 0 || r == -1) && Valid() && !pending
      ensures Since(old(wire.schedule), wire.schedule)
      ensures r == 0 ==> Paused(old(wire.schedule), wire.schedule)
      ensures r == -1 ==> Broke(old(wire.schedule), wire.schedule, wire.data)
    {
      got := [];
      while |rxhead| < 3
        invariant Since(old(wire.schedule), wire.schedule)
        invariant !pending && rxhead == cur && |cur| <= 3 && rxbuf == old(rxbuf)
        invariant old(wire.data) == got + wire.data && cur == old(cur) + got
        decreases 3 - |rxhead|
      {
        ghost var was, left := wire.schedule, |wire.data|;
        var bytes, n := wire.Receive(3 - |rxhead|);
        AnswerMeans(was, wire.schedule, 3 - |rxhead|, wire.data, left, n);
        SinceTwice(old(wire.schedule), was, wire.schedule, wire.data);
        if n <= 0 {
          return n, got;
        }
        rxhead, cur, got := rxhead + bytes, cur + bytes, got + bytes;
      }
      kind := rxhead[0];
      expected := Length(rxhead[1], rxhead[2]);
      rxlen, rxhead, pending := 0, [], true;
      r := 1;
    }

    /** Copies received payload bytes behind those already buffered. */
    method Store(bytes: seq<Byte>)
      requires rxlen + |bytes| <= rxbuf.Length
      modifies rxbuf
      ensures rxbuf[..rxlen + |bytes|] == old(rxbuf[..rxlen]) + bytes
    {
      for i := 0 to |bytes|
        invariant rxbuf[..rxlen + i] == old(rxbuf[..rxlen]) + bytes[..i]
      {
        rxbuf[rxlen + i] := bytes[i];
      }
    }

    /** One receive of payload; what exceeds the buffer is drained in pieces of 256. */
    method ReadSome(wire: Wire) returns (n: int, ghost got: seq<Byte>)
      requires pending && Buffered(cur) && rxlen < expected
      modifies this`rxlen, this`cur, rxbuf, wire
      ensures old(wire.data) == got + wire.data && cur == old(cur) + got && Buffered(cur)
      ensures n > 0 ==> rxlen > old(rxlen)
      ensures n <= 0 ==> (n == 0 || n == -1) && rxlen == old(rxlen)
      ensures Since(old(wire.schedule), wire.schedule)
      ensures n == 0 ==> Paused(old(wire.schedule), wire.schedule)
      ensures n == -1 ==> Broke(old(wire.schedule), wire.schedule, wire.data)
    {
      var remaining := expected - rxlen;
      ghost var was, left := wire.schedule, |wire.data|;
      var bytes;
      if rxlen < MAX_PAYLOAD {
        bytes, n := wire.Receive(Min(remaining, MAX_PAYLOAD - rxlen));
        AnswerMeans(was, wire.schedule, Min(remaining, MAX_PAYLOAD - rxlen), wire.data, left, n);
        Store(bytes);
        StoredPayload(cur, bytes, old(rxbuf[..]), rxbuf[..], rxlen);
      } else {
        bytes, n := wire.Receive(Min(remaining, SCRATCH));
        AnswerMeans(was, wire.schedule, Min(remaining, SCRATCH), wire.data, left, n);
        DrainedPayload(cur, bytes, rxbuf[..], rxlen);
      }
      got := bytes;
      KeptPayload(cur, bytes);
      rxlen := rxlen + |bytes|;
      cur := cur + bytes;
    }

    /** Phase 2: the payload. */
    method ReadPayload(wire: Wire) returns (r: int, ghost got: seq<Byte>)
      requires pending && Buffered(cur)
      modifies this`rxlen, this`cur, rxbuf, wire
      ensures old(wire.data) == got + wire.data && cur == old(cur) + got && Buffered(cur)
      ensures r == 1 ==> rxlen == expected
      ensures r != 1 ==> (r == 0 || r == -1) && rxlen < expected
      ensures Since(old(wire.schedule), wire.schedule)
      ensures r == 0 ==> Paused(old(wire.schedule), wire.schedule)
      ensures r == -1 ==> Broke(old(wire.schedule), wire.schedule, wire.data)
    {
      got := [];
      while rxlen < expected
        invariant Buffered(cur) && Since(old(wire.schedule), wire.schedule)
        invariant old(wire.data) == got + wire.data && cur == old(cur) + got
        decreases expected - rxlen
      {
        var n;
        ghost var more;
        ghost var was := wire.schedule;
        n, more := ReadSome(wire);
        SinceTwice(old(wire.schedule), was, wire.schedule, wire.data);
        got := got + more;
        if n <= 0 {
          return n, got;
        }
      }
      r := 1;
    }

    /** The message is complete: report it and start over. */
    method Deliver(bufLen: nat) returns (k: Byte, payload: seq<Byte>, len: nat)
      requires pending && Buffered(cur) && rxlen == expected && bufLen <= MAX_PAYLOAD
      modifies this
      ensures rxbuf == old(rxbuf) && cur == [] && Valid()
      ensures Whole(old(cur)) && k == old(cur)[0] && len == |old(cur)| - 3
      ensures payload == old(cur)[3..3 + Min(len, bufLen)]
    {
      payload := rxbuf[..Min(expected, bufLen)];
      assert payload == rxbuf[..Min(rxlen, MAX_PAYLOAD)][..Min(expected, bufLen)];
      k, len := kind, expected;
      rxlen, rxhead, expected, pending, cur := 0, [], 0, false, [];
    }

    /** sm_ast_read, for a caller's buffer of at most 4096 bytes. */
    method Read(wire: Wire, bufLen: nat) returns (ghost got: seq<Byte>, r: int, k: Byte, payload: seq<Byte>, len: nat)
      requires Valid() && bufLen <= MAX_PAYLOAD
      modifies this, rxbuf, wire
      ensures Valid() && rxbuf == old(rxbuf)
      ensures old(wire.data) == got + wire.data
      ensures Reads(old(cur), Call(bufLen, got, r, k, payload, len, cur))
      ensures Since(old(wire.schedule), wire.schedule)
      ensures r == 0 ==> Paused(old(wire.schedule), wire.schedule)
      ensures r == -1 ==> Broke(old(wire.schedule), wire.schedule, wire.data)
    {
      got, k, payload, len := [], 0, [], 0;
      if !pending {
        r, got := ReadHeader(wire);
        if r != 1 {
          return;
        }
      }
      ghost var was, mid, first := wire.schedule, cur, got;
      ghost var more;
      more, r, k, payload, len := ReadRest(wire, bufLen);
      SinceTwice(old(wire.schedule), was, wire.schedule, wire.data);
      Associative(first, more, wire.data);
      got := first + more;
      ReadsOn(old(cur), first, mid, Call(bufLen, more, r, k, payload, len, cur));
    }

    /** What comes after the header. */
    method ReadRest(wire: Wire, bufLen: nat)
      returns (ghost got: seq<Byte>, r: int, k: Byte, payload: seq<Byte>, len: nat)
      requires pending && Buffered(cur) && bufLen <= MAX_PAYLOAD
      modifies this, rxbuf, wire
      ensures Valid() && rxbuf == old(rxbuf)
      ensures old(wire.data) == got + wire.data
      ensures Reads(old(cur), Call(bufLen, got, r, k, payload, len, cur))
      ensures Since(old(wire.schedule), wire.schedule)
      ensures r == 0 ==> Paused(old(wire.schedule), wire.schedule)
      ensures r == -1 ==> Broke(old(wire.schedule), wire.schedule, wire.data)
    {
      k, payload, len := 0, [], 0;
      r, got := ReadPayload(wire);
      if r == 1 {
        k, payload, len := Deliver(bufLen);
      }
    }
  }

  /** A call that got some bytes before. */
  lemma {:induction false} ReadsOn(cur: seq<Byte>, got: seq<Byte>, mid: seq<Byte>, c: Call)
    requires mid == cur + got && Reads(mid, c)
    ensures Reads(cur, c.(got := got + c.got))
  {
    Associative(cur, got, c.got);
  }

  lemma {:induction false} KeptPayload(c: seq<Byte>, bytes: seq<Byte>)
    requires |c| >= 3
    ensures (c + bytes)[3..] == c[3..] + bytes
    ensures (c + bytes)[0] == c[0] && Announced(c + bytes) == Announced(c)
  {
  }

  /** What is stored behind the payload so far is the payload with it. */
  lemma {:induction false} StoredPayload(c: seq<Byte>, bytes: seq<Byte>, was: seq<Byte>, now: seq<Byte>, n: nat)
    requires |c| == 3 + n && |was| == |now| == MAX_PAYLOAD && n + |bytes| <= MAX_PAYLOAD
    requires was[..n] == c[3..] && now[..n + |bytes|] == was[..n] + bytes
    ensures now[..Min(n + |bytes|, MAX_PAYLOAD)] == (c + bytes)[3..3 + Min(n + |bytes|, MAX_PAYLOAD)]
  {
    KeptPayload(c, bytes);
  }

  /** Once the buffer is full, more payload leaves what is kept as it is. */
  lemma {:induction false} DrainedPayload(c: seq<Byte>, bytes: seq<Byte>, kept: seq<Byte>, n: nat)
    requires |c| == 3 + n && n >= MAX_PAYLOAD && |kept| == MAX_PAYLOAD
    requires kept == c[3..3 + MAX_PAYLOAD]
    ensures kept == (c + bytes)[3..3 + Min(n + |bytes|, MAX_PAYLOAD)]
  {
  }

  // ------------------------------------------------- a whole run of calls

  /** Calls made one after the other, each starting with what the last one held. */
  ghost predicate RunOf(cur: seq<Byte>, calls: seq<Call>)
    decreases |calls|
  {
    calls == [] || (Reads(cur, calls[0]) && RunOf(calls[0].after, calls[1..]))
  }

  function Consumed(calls: seq<Call>): seq<Byte> {
    if calls == [] then [] else calls[0].got + Consumed(calls[1..])
  }

  /** The calls that returned a message. */
  function Deliveries(calls: seq<Call>): seq<Call> {
    if calls == [] then []
    else (if calls[0].result == 1 then [calls[0]] else []) + Deliveries(calls[1..])
  }

  /** The message as the caller sees it: full length, payload cut to the caller's buffer. */
  predicate Delivers(c: Call, m: Message) {
    c.kind == m.kind && c.len == |m.payload| && c.payload == m.payload[..Min(c.len, c.bufLen)]
  }

  /** A whole message at the front of a stream of messages is the first of them. */
  lemma {:induction false} FirstMessage(x: seq<Byte>, rest: seq<Byte>, ms: seq<Message>)
    requires forall m :: m in ms ==> Sendable(m)
    requires Whole(x) && x + rest == EncodeAll(ms)
    ensures ms != [] && x == Encode(ms[0]) && rest == EncodeAll(ms[1..])
  {
    assert ms != [];
    var e := Encode(ms[0]);
    assert EncodeAll(ms)[..3] == e[..3] == x[..3];
    assert Announced(e) == |e|;
    assert (x + rest)[..|x|] == x && (x + rest)[|x|..] == rest;
  }

  /** What a run leaves held of the message it is in. */
  function Held(cur: seq<Byte>, calls: seq<Call>): seq<Byte> {
    if calls == [] then cur else calls[|calls| - 1].after
  }

  ghost predicate InOrder(cur: seq<Byte>, calls: seq<Call>, ms: seq<Message>)
    requires forall m :: m in ms ==> Sendable(m)
  {
    var ds := Deliveries(calls);
    && |ds| <= |ms| && (forall i :: 0 <= i < |ds| ==> Delivers(ds[i], ms[i]))
    && cur + Consumed(calls) == EncodeAll(ms[..|ds|]) + Held(cur, calls)
  }

  lemma {:induction false} InOrderAfterMessage(cur: seq<Byte>, calls: seq<Call>, ms: seq<Message>)
    requires forall m :: m in ms ==> Sendable(m)
    requires calls != [] && calls[0].result == 1 && calls[0].after == [] && ms != []
    requires cur + calls[0].got == Encode(ms[0]) && Delivers(calls[0], ms[0])
    requires InOrder([], calls[1..], ms[1..])
    ensures InOrder(cur, calls, ms)
  {
    var later := Deliveries(calls[1..]);
    assert Deliveries(calls) == [calls[0]] + later;
    forall i | 0 <= i < |later| + 1 ensures Delivers(([calls[0]] + later)[i], ms[i]) {
      if i > 0 { assert Delivers(later[i - 1], ms[1..][i - 1]); }
    }
    ConsumedAfterMessage(cur, calls, ms, |later|);
  }

  lemma {:induction false} ConsumedAfterMessage(cur: seq<Byte>, calls: seq<Call>, ms: seq<Message>, n: nat)
    requires calls != [] && calls[0].after == [] && ms != [] && n < |ms|
    requires forall m :: m in ms ==> Sendable(m)
    requires cur + calls[0].got == Encode(ms[0])
    requires [] + Consumed(calls[1..]) == EncodeAll(ms[1..][..n]) + Held([], calls[1..])
    ensures cur + Consumed(calls) == EncodeAll(ms[..n + 1]) + Held(cur, calls)
  {
    EncodeFirst(ms, n);
    HeldLater(cur, calls);
    var rest, held := EncodeAll(ms[1..][..n]), Held(cur, calls);
    Associative(cur, calls[0].got, Consumed(calls[1..]));
    assert [] + Consumed(calls[1..]) == Consumed(calls[1..]);
    Associative(Encode(ms[0]), rest, held);
  }

  lemma {:induction false} EncodeFirst(ms: seq<Message>, n: nat)
    requires n < |ms| && forall m :: m in ms ==> Sendable(m)
    ensures EncodeAll(ms[..n + 1]) == Encode(ms[0]) + EncodeAll(ms[1..][..n])
  {
    assert ms[..n + 1][1..] == ms[1..][..n];
  }

  lemma {:induction false} HeldLater(cur: seq<Byte>, calls: seq<Call>)
    requires calls != [] && calls[0].after == []
    ensures Held(cur, calls) == Held([], calls[1..])
  {
  }

  lemma {:induction false} InOrderAfterPart(cur: seq<Byte>, calls: seq<Call>, ms: seq<Message>)
    requires forall m :: m in ms ==> Sendable(m)
    requires calls != [] && calls[0].result != 1 && calls[0].after == cur + calls[0].got
    requires InOrder(calls[0].after, calls[1..], ms)
    ensures InOrder(cur, calls, ms)
  {
    assert Deliveries(calls) == Deliveries(calls[1..]);
    Associative(cur, calls[0].got, Consumed(calls[1..]));
  }

  /**
   Framing is independent of chunking: for every cut of the stream into receives and
   every placement of time-outs and failures, the calls deliver the messages written,
   in order, and what has been consumed is those messages and a part of the next.
   */
  lemma {:induction false} DeliversInOrder(cur: seq<Byte>, calls: seq<Call>, rest: seq<Byte>, ms: seq<Message>)
    requires forall m :: m in ms ==> Sendable(m)
    requires RunOf(cur, calls) && cur + Consumed(calls) + rest == EncodeAll(ms)
    ensures InOrder(cur, calls, ms)
    decreases |calls|
  {
    if calls == [] {
      assert ms[..0] == [];
    } else {
      var c, later := calls[0], calls[1..];
      var x, y := cur + c.got, Consumed(later);
      assert cur + Consumed(calls) + rest == x + (y + rest);
      if c.result == 1 {
        FirstMessage(x, y + rest, ms);
        assert [] + y + rest == y + rest;
        DeliversInOrder([], later, rest, ms[1..]);
        DeliveredFirst(c, ms, x);
        InOrderAfterMessage(cur, calls, ms);
      } else {
        assert x + y + rest == x + (y + rest);
        DeliversInOrder(c.after, later, rest, ms);
        InOrderAfterPart(cur, calls, ms);
      }
    }
  }

  lemma {:induction false} DeliveredFirst(c: Call, ms: seq<Message>, x: seq<Byte>)
    requires ms != [] && Sendable(ms[0]) && x == Encode(ms[0]) && |x| >= 3
    requires c.kind == x[0] && c.len == |x| - 3 && c.payload == x[3..3 + Min(c.len, c.bufLen)]
    ensures Delivers(c, ms[0])
  {
    assert x[3..] == ms[0].payload;
  }

  /** What is held is never a whole message. */
  lemma {:induction false} HeldIsPartial(cur: seq<Byte>, calls: seq<Call>)
    requires Partial(cur) && RunOf(cur, calls)
    ensures Partial(Held(cur, calls))
    decreases |calls|
  {
    if calls != [] { HeldIsPartial(calls[0].after, calls[1..]); }
  }

  lemma {:induction false} EncodeSplit(ms: seq<Message>, d: nat)
    requires d <= |ms| && forall m :: m in ms ==> Sendable(m)
    ensures EncodeAll(ms) == EncodeAll(ms[..d]) + EncodeAll(ms[d..])
  {
    if d == 0 {
      assert ms[..0] == [] && ms[0..] == ms;
    } else {
      EncodeSplit(ms[1..], d - 1);
      assert ms[1..][..d - 1] == ms[..d][1..] && ms[1..][d - 1..] == ms[d..];
      Associative(Encode(ms[0]), EncodeAll(ms[1..][..d - 1]), EncodeAll(ms[d..]));
    }
  }

  lemma {:induction false} WholeIsNotPartial(ms: seq<Message>)
    requires ms != [] && forall m :: m in ms ==> Sendable(m)
    ensures !Partial(EncodeAll(ms))
  {
    var e, x := Encode(ms[0]), EncodeAll(ms);
    assert x[..3] == e[..3];
    assert x[1] == e[1] && x[2] == e[2];
    assert Announced(e) == |e|;
  }

  /**
   Nothing is withheld: once every byte written has been consumed, every message has been
   delivered and nothing is held.
   */
  lemma {:induction false} NothingWithheld(cur: seq<Byte>, calls: seq<Call>, ms: seq<Message>)
    requires forall m :: m in ms ==> Sendable(m)
    requires Partial(cur) && RunOf(cur, calls) && cur + Consumed(calls) == EncodeAll(ms)
    ensures |Deliveries(calls)| == |ms| && Held(cur, calls) == []
    ensures forall i :: 0 <= i < |ms| ==> Delivers(Deliveries(calls)[i], ms[i])
  {
    var d, held := |Deliveries(calls)|, Held(cur, calls);
    assert cur + Consumed(calls) + [] == cur + Consumed(calls);
    DeliversInOrder(cur, calls, [], ms);
    HeldIsPartial(cur, calls);
    EncodeSplit(ms, d);
    var x := EncodeAll(ms[..d]);
    assert (x + held)[|x|..] == held && (x + EncodeAll(ms[d..]))[|x|..] == EncodeAll(ms[d..]);
    if d < |ms| {
      WholeIsNotPartial(ms[d..]);
    }
  }

  // --------------------------------------------------------------- sending

  datatype SendOutcome = SendTimedOut | SendFailed | SendInterrupted | SentBytes(n: nat)

  /** Bytes on their way to the peer and the schedule of what send will do. */
  class OutWire {
    var sent: seq<Byte>
    var schedule: seq<SendOutcome>

    constructor (schedule: seq<SendOutcome>)
      ensures sent == [] && this.schedule == schedule
    {
      sent, this.schedule := [], schedule;
    }

    /** send_all: partial sends are continued, a time-out or an error ends it. */
    method SendAll(bytes: seq<Byte>) returns (ok: bool, ghost off: nat)
      modifies this
      ensures off <= |bytes| && sent == old(sent) + bytes[..off] && (ok <==> off == |bytes|)
    {
      var at := 0;
      off := 0;
      while at < |bytes| && schedule != []
        invariant off == at <= |bytes| && sent == old(sent) + bytes[..at]
        decreases |schedule|
      {
        var next := schedule[0];
        schedule := schedule[1..];
        match next {
          case SendInterrupted =>
          case SendTimedOut => return false, off;
          case SendFailed => return false, off;
          case SentBytes(n) =>
            var k := Min(n, |bytes| - at);
            assert bytes[..at] + bytes[at..at + k] == bytes[..at + k];
            sent := sent + bytes[at..at + k];
            at := at + k;
            off := at;
        }
      }
      ok := at == |bytes|;
    }

    /** sm_ast_write: 0, or -1 with at most a beginning of the message sent. */
    method Write(kind: Byte, payload: seq<Byte>) returns (r: int)
      modifies this
      ensures r == 0 || r == -1
      ensures |payload| > 0xFFFF ==> r == -1 && sent == old(sent)
      ensures r == 0 ==> Sendable(Message(kind, payload)) && sent == old(sent) + Encode(Message(kind, payload))
      ensures |payload| <= 0xFFFF ==>
                exists n: nat :: n <= |payload| + 3 && sent == old(sent) + Encode(Message(kind, payload))[..n]
    {
      if |payload| > 0xFFFF {
        return -1;
      }
      ghost var e := Encode(Message(kind, payload));
      var hdr: seq<Byte> := [kind, |payload| / 256, |payload| % 256];
      var ok;
      ghost var n, m;
      ok, n := SendAll(hdr);
      if !ok {
        assert hdr[..n] == e[..n];
        return -1;
      }
      m := 0;
      if |payload| > 0 {
        ok, m := SendAll(payload);
      }
      assert hdr + payload[..m] == e[..3 + m];
      assert sent == old(sent) + e[..3 + m];
      assert e[..3 + |payload|] == e;
      r := if ok then 0 else -1;
    }
  }

  /** Messages written one after the other make up the stream of all of them. */
  lemma {:induction false} EncodeAllSnoc(ms: seq<Message>, m: Message)
    requires Sendable(m) && forall x :: x in ms ==> Sendable(x)
    ensures EncodeAll(ms + [m]) == EncodeAll(ms) + Encode(m)
    decreases |ms|
  {
    if ms == [] {
      assert [m][1..] == [];
      assert ms + [m] == [m];
      assert EncodeAll([m]) == Encode(m) + EncodeAll([]);
    } else {
      assert (ms + [m])[1..] == ms[1..] + [m];
      EncodeAllSnoc(ms[1..], m);
    }
  }
}
