/**
 Receiver symbol timing (src/modem/v22bis/v22bis_rx.c): a count-down in twelfths of a
 sample decides when a half-baud sample enters the equaliser, and Gardner's detector
 moves it, by a step that training lowers. The sign of the detector, the carrier and
 retrains are inputs.
 */
module Timing {
  import opened Bits

  const COEFF_SETS := 12

  /** Half a symbol in twelfths of a sample: 12 * 40 / (3 * 2). */
  const HALF_BAUD := 80

  const START := 19

  /** The steps training gives Gardner's detector: 256, then 32, then 4. */
  type GardnerStep = s: int | s == 4 || s == 32 || s == 256 witness 4

  /**
   eq_put_step, baud_phase, gardner_integrate, total_baud_timing_correction, gardner_step,
   and the bauds of symbol acquisition so far, which lasts until the step is 4.
   */
  datatype Clock = Clock(putStep: int, phase: Bit, integral: int, correction: int, step: GardnerStep, bauds: nat)

  const RESET := Clock(START, 0, 0, 0, 256, 0)

  /**
   What a sample meets. `late` and `retrain` matter when it completes a baud; a retrain,
   which resets the equaliser, is looked for in data mode only.
   */
  datatype Sample =
    | Silent                                // no carrier, or parked
    | CarrierLost                           // receiver restarts
    | Active(late: bool, retrain: bool)

  /** C's division by 16, toward zero. */
  function Sixteenth(a: int): int {
    if a >= 0 then a / 16 else -(-a / 16)
  }

  function Abs(a: int): nat {
    if a >= 0 then a else -a
  }

  /** symbol_sync's integrate-and-dump. */
  function Sync(c: Clock, late: bool): Clock {
    var g := if late then c.integral + c.step else c.integral - c.step;
    if Abs(g) >= 16 then
      c.(putStep := c.putStep + Sixteenth(g), correction := c.correction + Sixteenth(g), integral := 0)
    else c.(integral := g)
  }

  /** A baud of symbol acquisition: the detector's step is lowered after 30 and after 40. */
  function Acquire(c: Clock): Clock {
    var n := c.bauds + 1;
    c.(bauds := n, step := if n >= 40 then 4 else if n == 30 then 32 else c.step)
  }

  /** process_half_baud, as far as timing goes: every second insertion completes a baud. */
  function Insert(c: Clock, late: bool, retrain: bool): Clock {
    if c.phase == 0 then c.(phase := 1)
    else
      var c' := Sync(c.(phase := 0), late);
      if c.step != 4 then Acquire(c') else if retrain then c'.(putStep := START) else c'
  }

  predicate Inserts(c: Clock, s: Sample) {
    s.Active? && c.putStep - COEFF_SETS <= 0
  }

  /** The polyphase filter set chosen for an insertion, before the program's clamp. */
  function FilterSet(c: Clock): int {
    -(c.putStep - COEFF_SETS)
  }

  /** The count-down of a sample that inserts a half baud. */
  function Due(c: Clock): Clock {
    c.(putStep := c.putStep - COEFF_SETS + HALF_BAUD)
  }

  function Resampled(c: Clock, late: bool, retrain: bool): Clock {
    if c.putStep <= COEFF_SETS then Insert(Due(c), late, retrain)
    else c.(putStep := c.putStep - COEFF_SETS)
  }

  function Tick(c: Clock, s: Sample): Clock {
    match s
    case Silent => c
    case CarrierLost => RESET
    case Active(late, retrain) => Resampled(c, late, retrain)
  }

  function Run(c: Clock, ss: seq<Sample>): Clock {
    if ss == [] then c else Tick(Run(c, ss[..|ss| - 1]), ss[|ss| - 1])
  }

  /**
   Between samples the count-down stays within 1..95. During acquisition every change is
   even, so it stays odd, and the integrator is emptied at each baud.
   */
  predicate InRange(c: Clock) {
    && 0 < c.putStep <= 95 && Abs(c.integral) < 16
    && (c.step != 4 ==> c.putStep % 2 == 1 && c.integral == 0)
    && c.step == StepAt(c.bauds) && c.bauds <= 40 && c.integral % 4 == 0
  }

  /** The detector's step after so many bauds. */
  function StepAt(bauds: nat): GardnerStep {
    if bauds < 30 then 256 else if bauds < 40 then 32 else 4
  }

  lemma {:induction false} TickInRange(c: Clock, s: Sample)
    requires InRange(c)
    ensures InRange(Tick(c, s))
    ensures Inserts(c, s) ==> 0 <= FilterSet(c) < COEFF_SETS
  {
  }

  /**
   For every sequence of samples, detector decisions, carrier losses and retrains the
   count-down stays in 1..95, so that the filter set computed for the next insertion is
   always 0..11 and the program's clamp never acts.
   */
  lemma {:induction false} AlwaysInRange(ss: seq<Sample>, next: Sample)
    ensures InRange(Run(RESET, ss)) && 0 < Run(RESET, ss).putStep <= 95
    ensures Inserts(Run(RESET, ss), next) ==> 0 <= FilterSet(Run(RESET, ss)) < COEFF_SETS
  {
    if ss != [] {
      AlwaysInRange(ss[..|ss| - 1], ss[|ss| - 1]);
      TickInRange(Run(RESET, ss[..|ss| - 1]), ss[|ss| - 1]);
    }
    TickInRange(Run(RESET, ss), next);
  }

  /** Half bauds since the receiver last restarted. */
  function HalfBauds(ss: seq<Sample>): nat {
    if ss == [] || ss[|ss| - 1].CarrierLost? then 0
    else
      var n := |ss| - 1;
      HalfBauds(ss[..n]) + if Inserts(Run(RESET, ss[..n]), ss[n]) then 1 else 0
  }

  lemma {:induction false} CountsTo40(c: Clock, s: Sample, n: nat)
    requires InRange(c) && c.phase == n % 2 && c.bauds == Min(n / 2, 40)
    ensures var c', n' := Tick(c, s), if s.CarrierLost? then 0 else n + if Inserts(c, s) then 1 else 0;
            c'.phase == n' % 2 && c'.bauds == Min(n' / 2, 40)
  {
  }

  /**
   Over every run the step is 256 for the first 30 bauds since the receiver's restart, 32
   for the next 10 and 4 from then on.
   */
  lemma {:induction false} StepFollowsBauds(ss: seq<Sample>)
    ensures var c, n := Run(RESET, ss), HalfBauds(ss);
            c.phase == n % 2 && c.bauds == Min(n / 2, 40) && c.step == StepAt(n / 2)
  {
    if ss != [] {
      StepFollowsBauds(ss[..|ss| - 1]);
      AlwaysInRange(ss[..|ss| - 1], Silent);
      CountsTo40(Run(RESET, ss[..|ss| - 1]), ss[|ss| - 1], HalfBauds(ss[..|ss| - 1]));
    }
    AlwaysInRange(ss, Silent);
  }

  /** What the detector says at the end of a baud, by the step then in force. */
  function Vote(halfBauds: nat, c: Clock, s: Sample): int {
    if Inserts(c, s) && halfBauds % 2 == 1 then (if s.late then 1 else -1) * StepAt(halfBauds / 2) else 0
  }

  /** The sum of its votes since the receiver last restarted. */
  function Votes(ss: seq<Sample>): int {
    if ss == [] || ss[|ss| - 1].CarrierLost? then 0
    else
      var n := |ss| - 1;
      Votes(ss[..n]) + Vote(HalfBauds(ss[..n]), Run(RESET, ss[..n]), ss[n])
  }

  lemma {:induction false} VoteCounts(c: Clock, s: Sample, n: nat)
    requires InRange(c) && c.phase == n % 2 && c.step == StepAt(n / 2) && !s.CarrierLost?
    ensures var c' := Tick(c, s); 16 * c'.correction + c'.integral == 16 * c.correction + c.integral + Vote(n, c, s)
  {
  }

  /** No vote is lost in the division: corrections and integrator together are their sum. */
  lemma {:induction false} VotesAddUp(ss: seq<Sample>)
    ensures var c := Run(RESET, ss); 16 * c.correction + c.integral == Votes(ss)
  {
    if ss != [] {
      VotesAddUp(ss[..|ss| - 1]);
      StepFollowsBauds(ss[..|ss| - 1]);
      AlwaysInRange(ss[..|ss| - 1], Silent);
      if !ss[|ss| - 1].CarrierLost? {
        VoteCounts(Run(RESET, ss[..|ss| - 1]), ss[|ss| - 1], HalfBauds(ss[..|ss| - 1]));
      }
    }
  }

  /** The detector finding every baud late. */
  function Lates(n: nat): seq<Sample> {
    if n == 0 then [] else Lates(n - 1) + [Active(true, false)]
  }

  lemma {:induction false} LatesShape(n: nat)
    ensures |Lates(n)| == n && Undisturbed(Lates(n))
  {
    if n > 0 { LatesShape(n - 1); }
  }

  lemma {:induction false} LatesSnoc(n: nat)
    ensures Run(RESET, Lates(n + 1)) == Tick(Run(RESET, Lates(n)), Active(true, false))
  {
    LatesShape(n);
    assert (Lates(n) + [Active(true, false)])[..n] == Lates(n);
  }

  /** A sample that only counts down. */
  lemma {:induction false} TickDown(c: Clock)
    requires c.putStep > COEFF_SETS
    ensures Tick(c, Active(true, false)) == c.(putStep := c.putStep - COEFF_SETS)
  {
  }

  lemma {:induction false} CountDown(c: Clock, n: nat, k: nat)
    requires Run(RESET, Lates(n)) == c && c.putStep > COEFF_SETS * k
    ensures Run(RESET, Lates(n + k)) == c.(putStep := c.putStep - COEFF_SETS * k)
    decreases k
  {
    if k > 0 {
      CountDown(c, n, k - 1);
      TickDown(c.(putStep := c.putStep - COEFF_SETS * (k - 1)));
      LatesSnoc(n + k - 1);
    }
  }

  /** Counting down k samples and inserting a half baud, all with the detector late. */
  lemma {:induction false} HalfBaud(c: Clock, n: nat, k: nat, d: Clock)
    requires Run(RESET, Lates(n)) == c && COEFF_SETS * k < c.putStep
    requires d == Tick(c.(putStep := c.putStep - COEFF_SETS * k), Active(true, false))
    ensures Run(RESET, Lates(n + k + 1)) == d
  {
    CountDown(c, n, k);
    LatesSnoc(n + k);
  }

  const FIRST := Clock(75, 1, 0, 0, 256, 0)
  const SECOND := Clock(87, 0, 0, 16, 256, 1)
  const THIRD := Clock(71, 1, 0, 16, 256, 1)
  const FOURTH := Clock(95, 0, 0, 32, 256, 2)

  lemma {:induction false} FirstTicks()
    ensures Tick(RESET.(putStep := 7), Active(true, false)) == FIRST
    ensures Tick(FIRST.(putStep := 3), Active(true, false)) == SECOND
    ensures Tick(SECOND.(putStep := 3), Active(true, false)) == THIRD
    ensures Tick(THIRD.(putStep := 11), Active(true, false)) == FOURTH
  {
  }

  /** The first two bauds from reset: four half bauds, after 1, 6, 7 and 5 samples. */
  lemma {:induction false} FirstBauds(n: nat)
    requires Run(RESET, Lates(n)) == RESET
    ensures Run(RESET, Lates(n + 23)) == FOURTH
  {
    FirstTicks();
    HalfBaud(RESET, n, 1, FIRST);
    HalfBaud(FIRST, n + 2, 6, SECOND);
    HalfBaud(SECOND, n + 9, 7, THIRD);
    HalfBaud(THIRD, n + 17, 5, FOURTH);
  }

  lemma {:induction false} BoundAfter(n: nat)
    requires Run(RESET, Lates(n)) == RESET
    ensures exists ss :: Undisturbed(ss) && Run(RESET, ss).putStep == 95
  {
    FirstBauds(n);
    LatesShape(n + 23);
  }

  /** The upper bound is reached from reset, at the second baud of a run without restarts. */
  lemma {:induction false} BoundAttained()
    ensures exists ss :: Undisturbed(ss) && Run(RESET, ss).putStep == 95
  {
    BoundAfter(0);
  }

  function ActiveSamples(ss: seq<Sample>): nat {
    if ss == [] then 0
    else ActiveSamples(ss[..|ss| - 1]) + if ss[|ss| - 1].Active? then 1 else 0
  }

  function Insertions(c: Clock, ss: seq<Sample>): nat {
    if ss == [] then 0
    else
      var n := |ss| - 1;
      Insertions(c, ss[..n]) + if Inserts(Run(c, ss[..n]), ss[n]) then 1 else 0
  }

  /** Filter sets of a run as computed, without the clamp. */
  function FilterSets(c: Clock, ss: seq<Sample>): seq<int> {
    if ss == [] then []
    else
      var n := |ss| - 1;
      FilterSets(c, ss[..n]) + if Inserts(Run(c, ss[..n]), ss[n]) then [FilterSet(Run(c, ss[..n]))] else []
  }

  /** No receiver restart and no retrain. */
  predicate Undisturbed(ss: seq<Sample>) {
    forall s :: s in ss ==> !s.CarrierLost? && (s.Active? ==> !s.retrain)
  }

  /**
   Without restarts the count-down is a balance: 12 for every sample, 80 for every
   half baud, and the sum of the detector's corrections.
   */
  lemma {:induction false} Balance(ss: seq<Sample>)
    requires Undisturbed(ss)
    ensures var c := Run(RESET, ss);
            c.putStep == START - COEFF_SETS * ActiveSamples(ss) + HALF_BAUD * Insertions(RESET, ss) + c.correction
  {
    if ss != [] {
      assert ss[|ss| - 1] in ss;
      Balance(ss[..|ss| - 1]);
    }
  }

  /**
   The filter set chosen interpolates to the instant that is due: in twelfths of a sample,
   19 and 80 for each half baud before, moved by the corrections.
   */
  lemma {:induction false} InstantIsDue(ss: seq<Sample>, next: Sample)
    requires Undisturbed(ss) && Inserts(Run(RESET, ss), next)
    ensures var c := Run(RESET, ss);
            12 * (ActiveSamples(ss) + 1) - FilterSet(c) == 19 + 80 * Insertions(RESET, ss) + c.correction
  {
    Balance(ss);
  }

  /** So the half bauds follow the corrected sample clock, never a whole half baud away. */
  lemma {:induction false} HalfBaudsKeepPace(ss: seq<Sample>)
    requires Undisturbed(ss)
    ensures var due := COEFF_SETS * ActiveSamples(ss) - Run(RESET, ss).correction;
            -18 <= HALF_BAUD * Insertions(RESET, ss) - due <= 76
  {
    Balance(ss);
    AlwaysInRange(ss, Silent);
  }

  /** The receiver's timing fields, updated sample by sample. */
  class Receiver {
    var putStep: int
    var phase: Bit
    var integral: int
    var correction: int
    var step: GardnerStep
    var bauds: nat

    function View(): Clock
      reads this
    {
      Clock(putStep, phase, integral, correction, step, bauds)
    }

    constructor ()
      ensures View() == RESET
    {
      putStep, phase, integral, correction, step, bauds := START, 0, 0, 0, 256, 0;
    }

    method SymbolSync(late: bool)
      modifies this
      ensures View() == Sync(old(View()), late)
    {
      integral := if late then integral + step else integral - step;
      if Abs(integral) >= 16 {
        putStep := putStep + Sixteenth(integral);
        correction := correction + Sixteenth(integral);
        integral := 0;
      }
    }

    /** The timing part of the training switch. */
    method SwitchTraining(retrain: bool)
      modifies this
      ensures View() == if old(step) != 4 then Acquire(old(View()))
                        else if retrain then old(View()).(putStep := START) else old(View())
    {
      if step != 4 {
        bauds := bauds + 1;
        if bauds >= 40 {
          step := 4;
        } else if bauds == 30 {
          step := 32;
        }
      } else if retrain {
        putStep := START;
      }
    }

    method ProcessHalfBaud(late: bool, retrain: bool)
      modifies this
      ensures View() == Insert(old(View()), late, retrain)
    {
      phase := 1 - phase;
      if phase == 1 {
        return;
      }
      SymbolSync(late);
      SwitchTraining(retrain);
    }

    /** A sample with carrier; the filter set used if it inserts a half baud, after the clamp. */
    method Resample(late: bool, retrain: bool) returns (sets: seq<int>)
      requires putStep > 0
      modifies this
      ensures View() == Resampled(old(View()), late, retrain)
      ensures sets == if old(putStep) <= COEFF_SETS then [COEFF_SETS - old(putStep)] else []
    {
      sets := [];
      ghost var c := View();
      putStep := putStep - COEFF_SETS;
      if putStep <= 0 {
        sets := [if -putStep > COEFF_SETS - 1 then COEFF_SETS - 1 else -putStep];
        putStep := putStep + HALF_BAUD;
        assert View() == Due(c);
        ProcessHalfBaud(late, retrain);
      }
    }

    /** One sample of any kind. */
    method Accept(s: Sample) returns (sets: seq<int>)
      requires InRange(View())
      modifies this
      ensures View() == Tick(old(View()), s) && InRange(View())
      ensures sets == if Inserts(old(View()), s) then [FilterSet(old(View()))] else []
    {
      TickInRange(View(), s);
      sets := [];
      match s {
        case Silent =>
        case CarrierLost => putStep, phase, integral, correction, step, bauds := START, 0, 0, 0, 256, 0;
        case Active(late, retrain) => sets := Resample(late, retrain);
      }
    }

    /** The sample loop: returns the filter sets used. */
    method Receive(ss: seq<Sample>) returns (sets: seq<int>)
      requires InRange(View())
      modifies this
      ensures View() == Run(old(View()), ss) && InRange(View())
      ensures sets == FilterSets(old(View()), ss)
    {
      sets := [];
      for i := 0 to |ss|
        invariant View() == Run(old(View()), ss[..i]) && InRange(View())
        invariant sets == FilterSets(old(View()), ss[..i])
      {
        assert ss[..i + 1][..i] == ss[..i];
        var more := Accept(ss[i]);
        sets := sets + more;
      }
      assert ss[..|ss|] == ss;
    }
  }
}
