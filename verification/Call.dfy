/**
 The modem callbacks and the PPP byte path of a call (src/call/sm_call.c), in place.
 Each method is proved to be the corresponding step of module Link.
 */
module Call {
  import opened Bits
  import opened Async
  import opened Link

  class Session {
    const txbits: BitQueue
    const deframer: Deframer
    var dataPhase: bool        // phase == SM_CALL_DATA
    var stage: array<Byte>     // ppy_out
    var stageLen: nat
    var dropped: nat

    ghost predicate Valid()
      reads this, txbits, deframer
    {
      && txbits.Valid() && deframer.Valid()
      && stage.Length == STAGE_SIZE && stageLen <= STAGE_SIZE && stage != deframer.out
    }

    ghost function Staged(): seq<Byte>
      requires Valid()
      reads this, txbits, deframer, stage
    {
      stage[..stageLen]
    }

    constructor ()
      ensures Valid() && fresh(txbits) && fresh(txbits.bits) && fresh(deframer) && fresh(deframer.out) && fresh(stage)
      ensures txbits.Contents() == [] && deframer.Held() == [] && Staged() == [] && !dataPhase
    {
      txbits := new BitQueue();
      deframer := new Deframer();
      stage := new Byte[STAGE_SIZE](_ => 0);
      dataPhase, stageLen, dropped := false, 0, 0;
    }

    /** call_get_bit: idle ones when there is nothing to send. */
    method GetBit() returns (bit: Bit)
      requires Valid()
      modifies txbits`tail
      ensures Valid()
      ensures (bit, txbits.Contents()) == Pulled(old(txbits.Contents()))
    {
      var b := txbits.Pop();
      bit := if b < 0 then 1 else b;
    }

    /** call_put_bit, V.22bis side: bits before data mode are dropped. */
    method PutBit(bit: Bit)
      requires Valid()
      modifies deframer, deframer.out
      ensures Valid() && deframer.out == old(deframer.out)
      ensures (deframer.core, deframer.Held())
           == if dataPhase then Deframed(old(deframer.core), old(deframer.Held()), bit)
              else (old(deframer.core), old(deframer.Held()))
    {
      if dataPhase {
        deframer.PutBit(bit);
      }
    }

    /** call_status on a retrain: partial characters and undelivered bytes go. */
    method Retrained()
      requires Valid()
      modifies this`dataPhase, deframer
      ensures Valid() && !dataPhase && deframer.core == IDLE && deframer.Held() == []
    {
      deframer.Reset();
      dataPhase := false;
    }

    /** ppp_flush; the relay takes at most `takes[i]` bytes at the i-th write, then is busy. */
    method Flush(takes: seq<nat>) returns (written: seq<Byte>)
      requires Valid()
      modifies this`stageLen, stage
      ensures Valid() && stage == old(stage)
      ensures var w := Min(Sum(takes), |old(Staged())|);
              written == old(Staged())[..w] && Staged() == old(Staged())[w..]
    {
      ghost var was := Staged();
      written := [];
      var i := 0;
      while stageLen > 0 && i < |takes|
        invariant Valid() && stage == old(stage) && i <= |takes|
        invariant |written| == Min(Sum(takes[..i]), |was|)
        invariant written == was[..|written|] && Staged() == was[|written|..]
        decreases |takes| - i
      {
        assert takes[..i + 1][..i] == takes[..i];
        var w := Min(takes[i], stageLen);
        FlushStep(was, written, w);
        written := written + stage[..w];
        MoveDown(w);
        i := i + 1;
      }
      SumGrows(takes, i);
      assert takes[..|takes|] == takes;
    }

    /** memmove of what is left to the front. */
    method MoveDown(w: nat)
      requires Valid() && w <= stageLen
      modifies this`stageLen, stage
      ensures Valid() && stage == old(stage) && Staged() == old(Staged())[w..]
    {
      ghost var was := stage[..];
      for k := w to stageLen
        invariant stageLen == old(stageLen) && stage == old(stage)
        invariant forall t :: 0 <= t < k - w ==> stage[t] == was[t + w]
        invariant forall t :: k - w <= t < stage.Length ==> stage[t] == was[t]
      {
        stage[k - w] := stage[k];
      }
      stageLen := stageLen - w;
    }

    /** The copy into the stage; what does not fit is dropped. */
    method AppendToStage(bytes: seq<Byte>) returns (fit: nat)
      requires Valid()
      modifies this`stageLen, this`dropped, stage
      ensures Valid() && stage == old(stage) && fit == Min(|bytes|, STAGE_SIZE - |old(Staged())|)
      ensures Staged() == old(Staged()) + bytes[..fit]
      ensures dropped == old(dropped) + |bytes| - fit
    {
      fit := Min(|bytes|, STAGE_SIZE - stageLen);
      for k := 0 to fit
        invariant stageLen == old(stageLen) && stage == old(stage) && dropped == old(dropped)
        invariant stage[..stageLen + k] == old(stage[..stageLen]) + bytes[..k]
      {
        stage[stageLen + k] := bytes[k];
      }
      stageLen := stageLen + fit;
      dropped := dropped + |bytes| - fit;
    }

    /** The receive half of pump_ppp: at most 256 bytes move on, then the stage is flushed. */
    method Pump(takes: seq<nat>) returns (written: seq<Byte>)
      requires Valid()
      modifies this`stageLen, this`dropped, stage, deframer`outLen, deframer.out
      ensures Valid()
      ensures dataPhase ==>
                Moved(deframer.Held(), Staged(), written, dropped - old(dropped))
                == Move(old(deframer.Held()), old(Staged()), Sum(takes))
      ensures !dataPhase ==>
                written == [] && deframer.Held() == old(deframer.Held()) && Staged() == old(Staged())
    {
      written := [];
      if !dataPhase {
        return;
      }
      ghost var held, staged, was := deframer.Held(), Staged(), dropped;
      var bytes := deframer.Take(PUMP_SIZE);
      ghost var left := deframer.Held();
      written := Stage(bytes, takes);
      assert deframer.Held() == left;
      MoveIs(held, staged, bytes, left, Sum(takes));
    }

    method Stage(bytes: seq<Byte>, takes: seq<nat>) returns (written: seq<Byte>)
      requires Valid()
      modifies this`stageLen, this`dropped, stage
      ensures Valid() && stage == old(stage)
      ensures var fit := Fit(|bytes|, |old(Staged())|);
              var all := old(Staged()) + bytes[..fit];
              var w := Min(Sum(takes), |all|);
              && written == all[..w] && Staged() == all[w..]
              && dropped == old(dropped) + |bytes| - fit
    {
      var fit := AppendToStage(bytes);
      written := Flush(takes);
    }
  }

  /** How much of n new bytes the stage has room for. */
  function Fit(n: nat, staged: nat): (fit: nat)
    ensures fit <= n
  {
    if STAGE_SIZE > staged then Min(n, STAGE_SIZE - staged) else 0
  }

  lemma {:induction false} MoveIs(held: seq<Byte>, staged: seq<Byte>, bytes: seq<Byte>, left: seq<Byte>, taken: nat)
    requires held == bytes + left && |bytes| == Min(PUMP_SIZE, |held|)
    ensures var fit := Fit(|bytes|, |staged|);
            var all := staged + bytes[..fit];
            var w := Min(taken, |all|);
            Move(held, staged, taken) == Moved(left, all[w..], all[..w], |bytes| - fit)
  {
    assert held[|bytes|..] == left;
    var fit := Fit(|bytes|, |staged|);
    assert held[..fit] == bytes[..fit];
  }

  lemma {:induction false} FlushStep<T>(was: seq<T>, written: seq<T>, w: nat)
    requires |written| + w <= |was| && written == was[..|written|]
    ensures written + was[|written|..][..w] == was[..|written| + w]
    ensures was[|written|..][w..] == was[|written| + w..]
  {
  }

  function Sum(ns: seq<nat>): nat {
    if ns == [] then 0 else Sum(ns[..|ns| - 1]) + ns[|ns| - 1]
  }

  lemma {:induction false} SumGrows(ns: seq<nat>, i: nat)
    requires i <= |ns|
    ensures Sum(ns[..i]) <= Sum(ns)
  {
    if i < |ns| {
      var n := |ns| - 1;
      SumGrows(ns[..n], i);
      assert ns[..n][..i] == ns[..i];
    } else {
      assert ns[..i] == ns;
    }
  }
}
