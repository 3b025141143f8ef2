/**
 The relay between pppd and the modem (src/ppp/sm_pppd.c): one buffer each way, filled
 only when empty, so that back-pressure reaches the reader instead of a deadlock.
 */
module Relay {
  import opened Bits

  const SHIM_BUF := 8192
  const CHUNK := 4096

  /** One way of the relay. `read` and `written` are all bytes so far (history). */
  datatype Way = Way(mem: seq<Byte>, len: nat, off: nat, read: seq<Byte>, written: seq<Byte>)

  /** What a poll round brings to one way: bytes read, or none, and how many could be written. */
  datatype Round = Round(
    readReady: bool,        // POLLIN, POLLHUP or POLLERR on the reading side
    hangUp: bool,           // it was not POLLIN
    chunk: seq<Byte>,       // what read() returned; empty for EAGAIN
    writeReady: bool,       // POLLOUT, POLLHUP or POLLERR on the writing side
    accepted: nat)          // what write() could take

  /** What the kernel can do: hang-ups come unasked, data and space only when asked for. */
  predicate Possible(w: Way, r: Round) {
    && |r.chunk| <= CHUNK
    && (r.readReady && !r.hangUp ==> WantsRead(w))
  }

  /** The events asked for: more input only when empty, room only when there is something. */
  predicate WantsRead(w: Way) {
    w.len == 0
  }

  predicate WantsWrite(w: Way) {
    w.len != 0
  }

  function Start(): Way {
    Way(seq(SHIM_BUF, _ => 0), 0, 0, [], [])
  }

  /** The program's copy happens only if the chunk fits; the length grows regardless. */
  function Fill(w: Way, chunk: seq<Byte>): Way {
    var mem := if w.len + |chunk| <= |w.mem| then w.mem[..w.len] + chunk + w.mem[w.len + |chunk|..] else w.mem;
    w.(mem := mem, len := w.len + |chunk|, read := w.read + chunk)
  }

  /** write() of what is left, as far as it lies in the buffer. */
  function Drain(w: Way, accepted: nat): Way
    requires w.off <= w.len <= |w.mem|
  {
    var k := Min(accepted, w.len - w.off);
    var off := w.off + k;
    w.(off := if off == w.len then 0 else off, len := if off == w.len then 0 else w.len,
       written := w.written + w.mem[w.off..off])
  }

  predicate Overflows(w: Way, r: Round) {
    r.readReady && w.len + |r.chunk| > |w.mem|
  }

  /** A poll round of one way. */
  function Step(w: Way, r: Round): Way
    requires w.off <= w.len && |w.mem| == SHIM_BUF && !Overflows(w, r)
    requires w.len <= SHIM_BUF
  {
    var w1 := if r.readReady then Fill(w, r.chunk) else w;
    if w1.len > 0 && r.writeReady then Drain(w1, r.accepted) else w1
  }

  /** All bytes read are written or in the buffer, in order. */
  predicate Conserved(w: Way) {
    && |w.mem| == SHIM_BUF && w.off <= w.len <= SHIM_BUF
    && (w.len > 0 ==> w.off < w.len)
    && w.read == w.written + w.mem[w.off..w.len]
  }

  lemma {:induction false} FillConserves(w: Way, chunk: seq<Byte>)
    requires Conserved(w)
    ensures Conserved(Fill(w, chunk)) <==> w.len + |chunk| <= SHIM_BUF
  {
    if w.len + |chunk| <= SHIM_BUF { FittingConserves(w, chunk); }
  }

  lemma {:induction false} FittingConserves(w: Way, chunk: seq<Byte>)
    requires Conserved(w) && w.len + |chunk| <= SHIM_BUF
    ensures Conserved(Fill(w, chunk))
  {
    Spliced(w.mem, w.off, w.len, chunk);
    Associative(w.written, w.mem[w.off..w.len], chunk);
  }

  lemma {:induction false} Spliced(mem: seq<Byte>, off: nat, len: nat, chunk: seq<Byte>)
    requires off <= len && len + |chunk| <= |mem|
    ensures var mem' := mem[..len] + chunk + mem[len + |chunk|..];
            |mem'| == |mem| && mem'[off..len + |chunk|] == mem[off..len] + chunk
  {
  }

  lemma {:induction false} DrainConserves(w: Way, accepted: nat)
    requires Conserved(w)
    ensures Conserved(Drain(w, accepted))
  {
    var w' := Drain(w, accepted);
    var k := Min(accepted, w.len - w.off);
    assert w.mem[w.off..w.off + k] + w.mem[w.off + k..w.len] == w.mem[w.off..w.len];
  }

  /**
   A round conserves every byte exactly when a read that it makes fits behind what the
   buffer still holds.
   */
  lemma {:induction false} RoundConserves(w: Way, r: Round)
    requires Conserved(w)
    ensures r.readReady ==> (Conserved(Fill(w, r.chunk)) <==> !Overflows(w, r))
    ensures !Overflows(w, r) ==> Conserved(Step(w, r))
  {
    FillConserves(w, r.chunk);
    if !Overflows(w, r) {
      var w1 := if r.readReady then Fill(w, r.chunk) else w;
      if w1.len > 0 && r.writeReady { DrainConserves(w1, r.accepted); }
    }
  }

  /** No hang-up or error is reported on a side that was not asked for input. */
  predicate Orderly(w: Way, r: Round) {
    Possible(w, r) && (r.readReady ==> WantsRead(w))
  }

  /** Rounds of a run that never overflows. */
  ghost predicate Fits(w: Way, rs: seq<Round>)
    requires Conserved(w)
    decreases |rs|
  {
    rs == [] || (!Overflows(w, rs[0]) && (RoundConserves(w, rs[0]); Fits(Step(w, rs[0]), rs[1..])))
  }

  function Run(w: Way, rs: seq<Round>): Way
    requires Conserved(w) && Fits(w, rs)
    decreases |rs|
  {
    if rs == [] then w else (RoundConserves(w, rs[0]); Run(Step(w, rs[0]), rs[1..]))
  }

  /** An orderly read always fits. */
  lemma {:induction false} OrderlyFits(w: Way, r: Round)
    requires Conserved(w) && Orderly(w, r)
    ensures !Overflows(w, r)
  {
  }

  /** A run in which no side reports input, a hang-up or an error unasked. */
  ghost predicate AllOrderly(w: Way, rs: seq<Round>)
    requires Conserved(w)
    decreases |rs|
  {
    rs == [] || (Orderly(w, rs[0])
                 && (OrderlyFits(w, rs[0]); RoundConserves(w, rs[0]); AllOrderly(Step(w, rs[0]), rs[1..])))
  }

  lemma {:induction false} OrderlyRunsFit(w: Way, rs: seq<Round>)
    requires Conserved(w) && AllOrderly(w, rs)
    ensures Fits(w, rs)
    decreases |rs|
  {
    if rs != [] {
      OrderlyFits(w, rs[0]);
      RoundConserves(w, rs[0]);
      OrderlyRunsFit(Step(w, rs[0]), rs[1..]);
    }
  }

  /**
   Over every run each way writes a prefix of what it has read and holds the rest, as
   long as the reads fit; and it always waits for exactly one of its two sides, the one
   that can make progress.
   */
  lemma {:induction false} WritesPrefix(rs: seq<Round>, w: Way)
    requires Conserved(w) && Fits(w, rs)
    ensures var w' := Run(w, rs);
            && Conserved(w') && w'.written <= w'.read
            && (WantsRead(w') <==> !WantsWrite(w'))
            && (WantsWrite(w') ==> w'.written < w'.read) && (WantsRead(w') ==> w'.written == w'.read)
    decreases |rs|
  {
    if rs != [] {
      RoundConserves(w, rs[0]);
      WritesPrefix(rs[1..], Step(w, rs[0]));
    } else {
      assert w.written <= w.written + w.mem[w.off..w.len];
    }
  }

  /** A writing side that takes something brings the buffer nearer to empty. */
  lemma {:induction false} DrainProgress(w: Way, accepted: nat)
    requires Conserved(w) && WantsWrite(w) && accepted > 0
    ensures var w' := Drain(w, accepted); |w'.read| - |w'.written| < |w.read| - |w.written|
  {
  }

  /** Bytes read and not yet written, oldest first. */
  function Pending(w: Way): seq<Byte>
    requires w.off <= w.len <= |w.mem|
  {
    w.mem[w.off..w.len]
  }

  function Brought(r: Round): seq<Byte> {
    if r.readReady then r.chunk else []
  }

  function Room(r: Round): nat {
    if r.writeReady then r.accepted else 0
  }

  lemma {:induction false} FillBrings(w: Way, chunk: seq<Byte>)
    requires Conserved(w) && w.len + |chunk| <= SHIM_BUF
    ensures var w' := Fill(w, chunk);
            w'.written == w.written && w'.read == w.read + chunk && Pending(w') == Pending(w) + chunk
  {
    Spliced(w.mem, w.off, w.len, chunk);
  }

  lemma {:induction false} DrainTakes(w: Way, accepted: nat)
    requires Conserved(w)
    ensures var w', k := Drain(w, accepted), Min(accepted, |Pending(w)|);
            && w'.read == w.read && w'.written == w.written + Pending(w)[..k]
            && w'.off <= w'.len <= |w'.mem| && Pending(w') == Pending(w)[k..]
  {
    var k := Min(accepted, w.len - w.off);
    assert w.mem[w.off..w.len][..k] == w.mem[w.off..w.off + k];
    assert w.mem[w.off..w.len][k..] == w.mem[w.off + k..w.len];
  }

  /**
   What a round moves: the bytes it reads join those pending, and as many of all of these
   are written as the other side takes.
   */
  lemma {:induction false} RoundMoves(w: Way, r: Round)
    requires Conserved(w) && !Overflows(w, r)
    ensures var w', all := Step(w, r), Pending(w) + Brought(r);
            var k := Min(Room(r), |all|);
            && Conserved(w') && w'.read == w.read + Brought(r)
            && w'.written == w.written + all[..k] && Pending(w') == all[k..]
  {
    RoundConserves(w, r);
    var w1 := if r.readReady then Fill(w, r.chunk) else w;
    if r.readReady {
      FittingConserves(w, r.chunk);
      FillBrings(w, r.chunk);
    }
    assert Pending(w1) == Pending(w) + Brought(r);
    if w1.len > 0 && r.writeReady { DrainTakes(w1, r.accepted); }
  }

  function TotalRoom(rs: seq<Round>): nat
    decreases |rs|
  {
    if rs == [] then 0 else Room(rs[0]) + TotalRoom(rs[1..])
  }

  predicate NothingBrought(rs: seq<Round>) {
    forall r :: r in rs ==> Brought(r) == []
  }

  /**
   Rounds that bring nothing new write exactly as many of the pending bytes as the other
   side takes in all of them, so the buffer is empty as soon as that is enough.
   */
  lemma {:induction false} RoundsDrain(w: Way, rs: seq<Round>)
    requires Conserved(w) && Fits(w, rs) && NothingBrought(rs)
    ensures var w', k := Run(w, rs), Min(TotalRoom(rs), |Pending(w)|);
            && Conserved(w') && w'.read == w.read && w'.written == w.written + Pending(w)[..k]
            && (w'.written == w'.read <==> TotalRoom(rs) >= |Pending(w)|)
    decreases |rs|
  {
    if rs == [] {
      assert Pending(w)[..0] == [];
    } else {
      var w1, k := Step(w, rs[0]), Min(Room(rs[0]), |Pending(w)|);
      RoundMoves(w, rs[0]);
      assert rs[0] in rs && forall r :: r in rs[1..] ==> r in rs;
      assert Pending(w) + [] == Pending(w);
      RoundsDrain(w1, rs[1..]);
      TwoTakes(w.written, Pending(w), k, Min(TotalRoom(rs[1..]), |Pending(w)| - k));
    }
    WrittenAll(w, Run(w, rs), Min(TotalRoom(rs), |Pending(w)|));
  }

  lemma {:induction false} TwoTakes(before: seq<Byte>, all: seq<Byte>, k: nat, n: nat)
    requires k + n <= |all|
    ensures before + all[..k] + all[k..][..n] == before + all[..k + n]
  {
  }

  lemma {:induction false} WrittenAll(w: Way, w': Way, k: nat)
    requires Conserved(w) && k <= |Pending(w)| && w'.read == w.read && w'.written == w.written + Pending(w)[..k]
    ensures w'.written == w'.read <==> k == |Pending(w)|
  {
    assert Pending(w)[..|Pending(w)|] == Pending(w);
  }

  /**
   The buffer is not safe against hang-ups reported while it is full: after two reads
   that were not asked for, a third no longer fits and its bytes are lost.
   */
  lemma {:induction false} ThirdHangUpReadOverflows(a: seq<Byte>, b: seq<Byte>, c: Byte)
    requires |a| == CHUNK && |b| == CHUNK
    ensures var r1, r2 := Round(true, false, a, false, 0), Round(true, true, b, false, 0);
            var r3 := Round(true, true, [c], false, 0);
            && Possible(Start(), r1) && Conserved(Start()) && Fits(Start(), [r1, r2])
            && var w := Run(Start(), [r1, r2]);
               Possible(w, r3) && Overflows(w, r3) && !Conserved(Fill(w, [c]))
  {
    var r1, r2, r3 := Round(true, false, a, false, 0), Round(true, true, b, false, 0), Round(true, true, [c], false, 0);
    var w1 := Fill(Start(), a);
    RoundConserves(Start(), r1);
    var w2 := Fill(w1, b);
    RoundConserves(w1, r2);
    assert [r1, r2][1..] == [r2] && [r2][1..] == [];
    assert Fits(w2, []) && Fits(w1, [r2]);
    assert Run(w1, [r2]) == w2;
    RoundConserves(w2, r3);
  }

  // ----------------------------------------------------------- in place

  class Buffer {
    const data: array<Byte>
    var len: nat
    var off: nat
    ghost var read: seq<Byte>
    ghost var written: seq<Byte>

    ghost function View(): Way
      reads this, data
    {
      Way(data[..], len, off, read, written)
    }

    constructor ()
      ensures View() == Start() && fresh(data)
    {
      data := new Byte[SHIM_BUF](_ => 0);
      len, off, read, written := 0, 0, [], [];
      new;
      assert data[..] == Start().mem;
    }

    /** A read that returned bytes. */
    method TakeIn(chunk: seq<Byte>)
      modifies this`len, this`read, data
      ensures View() == Fill(old(View()), chunk)
    {
      if len + |chunk| <= data.Length {
        for i := 0 to |chunk|
          invariant len == old(len) && off == old(off) && read == old(read) && written == old(written)
          invariant forall k :: 0 <= k < data.Length ==>
                      data[k] == if len <= k < len + i then chunk[k - len] else old(data[k])
        {
          data[len + i] := chunk[i];
        }
      }
      len := len + |chunk|;
      read := read + chunk;
    }

    /** A write of what is left; empties the buffer when all has gone. */
    method PutOut(accepted: nat) returns (out: seq<Byte>)
      requires Conserved(View())
      modifies this`len, this`off, this`written
      ensures View() == Drain(old(View()), accepted) && written == old(written) + out
    {
      var k := Min(accepted, len - off);
      out := data[off..off + k];
      off := off + k;
      if off == len {
        off, len := 0, 0;
      }
      written := written + out;
    }
  }

  /** Both buffers and one pass of the endless loop. */
  class Shim {
    const toModem: Buffer
    const toPppd: Buffer

    ghost predicate Valid()
      reads this, toModem, toPppd, toModem.data, toPppd.data
    {
      && toModem != toPppd && toModem.data != toPppd.data
      && Conserved(toModem.View()) && Conserved(toPppd.View())
    }

    constructor ()
      ensures Valid() && fresh(toModem) && fresh(toPppd) && fresh(toModem.data) && fresh(toPppd.data)
      ensures toModem.View() == Start() && toPppd.View() == Start()
    {
      toModem := new Buffer();
      toPppd := new Buffer();
    }

    /** One round: pppd to modem first, then modem to pppd. */
    method Poll(m: Round, p: Round) returns (toModemOut: seq<Byte>, toPppdOut: seq<Byte>)
      requires Valid() && !Overflows(toModem.View(), m) && !Overflows(toPppd.View(), p)
      modifies toModem, toPppd, toModem.data, toPppd.data
      ensures Valid()
      ensures toModem.View() == Step(old(toModem.View()), m) && toPppd.View() == Step(old(toPppd.View()), p)
      ensures toModem.written == old(toModem.written) + toModemOut
      ensures toPppd.written == old(toPppd.written) + toPppdOut
    {
      RoundConserves(toModem.View(), m);
      RoundConserves(toPppd.View(), p);
      toModemOut := OneWay(toModem, m);
      toPppdOut := OneWay(toPppd, p);
    }

    static method OneWay(b: Buffer, r: Round) returns (out: seq<Byte>)
      requires Conserved(b.View()) && !Overflows(b.View(), r)
      modifies b, b.data
      ensures b.View() == Step(old(b.View()), r) && Conserved(b.View())
      ensures b.written == old(b.written) + out
    {
      RoundConserves(b.View(), r);
      out := [];
      if r.readReady {
        b.TakeIn(r.chunk);
      }
      if b.len > 0 && r.writeReady {
        out := b.PutOut(r.accepted);
      }
    }
  }
}
