/**
 Differential quadrant coding (section 2.5.2 of ITU-T V.22bis), the 16-point
 constellation and the two slicers of the V.22bis modem, over exact reals.
 */
module Constellation {
  import opened Bits

  type Index = i: int | 0 <= i < 16

  /** A baseband point. */
  datatype Point = Point(re: real, im: real)

  const PHASE_STEPS: seq<Dibit> := [1, 0, 2, 3]

  const POINTS: seq<Point> := [
    Point(1.0, 1.0), Point(3.0, 1.0), Point(1.0, 3.0), Point(3.0, 3.0),
    Point(-1.0, 1.0), Point(-1.0, 3.0), Point(-3.0, 1.0), Point(-3.0, 3.0),
    Point(-1.0, -1.0), Point(-3.0, -1.0), Point(-1.0, -3.0), Point(-3.0, -3.0),
    Point(1.0, -1.0), Point(1.0, -3.0), Point(3.0, -1.0), Point(3.0, -3.0)
  ]

  const SPACE_MAP: seq<seq<Index>> := [
    [11, 9, 9, 6, 6, 7],
    [10, 8, 8, 4, 4, 5],
    [10, 8, 8, 4, 4, 5],
    [13, 12, 12, 0, 0, 2],
    [13, 12, 12, 0, 0, 2],
    [15, 14, 14, 1, 1, 3]
  ]

  // ------------------------------------------------------ differential code

  function Pair(hi: Bit, lo: Bit): Dibit {
    2 * hi + lo
  }

  /** Quadrant after a dibit. */
  function Advance(quadrant: Dibit, dibit: Dibit): Dibit {
    (quadrant + PHASE_STEPS[dibit]) % 4
  }

  /** Dibit recovered from the quadrants of two consecutive decisions. */
  function RawDibit(last: Index, nearest: Index): Dibit {
    PHASE_STEPS[(nearest / 4 - last / 4) % 4]
  }

  lemma {:induction false} PhaseStepsSelfInverse(d: Dibit)
    ensures PHASE_STEPS[PHASE_STEPS[d]] == d
  {
  }

  /** The receiver's dibit is the transmitter's, from any common quadrant. */
  lemma {:induction false} QuadrantRoundTrip(quadrant: Dibit, dibit: Dibit, last: Index, nearest: Index)
    requires last / 4 == quadrant && nearest / 4 == Advance(quadrant, dibit)
    ensures RawDibit(last, nearest) == dibit
  {
    var step := PHASE_STEPS[dibit];
    assert (nearest / 4 - last / 4) % 4 == step;
  }

  // -------------------------------------------------------------- slicers

  /** C's conversion of a floating value to int: toward zero. */
  function Truncate(x: real): int {
    if x >= 0.0 then x.Floor else -(-x).Floor
  }

  function Clamp5(n: int): int {
    if n > 5 then 5 else if n < 0 then 0 else n
  }

  function Slice16(z: Point): Index {
    SPACE_MAP[Clamp5(Truncate(z.re + 3.0))][Clamp5(Truncate(z.im + 3.0))]
  }

  /** Rotation by 26.565 degrees, with the program's rounded constants. */
  function Rot45(z: Point): Point {
    Point(z.re * 0.894427 - z.im * 0.44721, z.re * 0.44721 + z.im * 0.894427)
  }

  function Slice4(z: Point): Index {
    var zz := Rot45(z);
    if zz.im < 0.0 then (if zz.re < 0.0 then 9 else 13)
    else (if zz.re < 0.0 then 5 else 1)
  }

  function Slice(sixteen: bool, z: Point): Index {
    if sixteen then Slice16(z) else Slice4(z)
  }

  /** The level an axis is decided as: the boundaries are -2, 0 and 2, each going up. */
  function Axis(x: real): real {
    if x < -2.0 then -3.0 else if x < 0.0 then -1.0 else if x < 2.0 then 1.0 else 3.0
  }

  function CellOf(x: real): int {
    Clamp5(Truncate(x + 3.0))
  }

  lemma {:induction false} CellIs(x: real)
    ensures x < -2.0 ==> CellOf(x) == 0
    ensures -2.0 <= x < 0.0 ==> CellOf(x) == 1 || CellOf(x) == 2
    ensures 0.0 <= x < 2.0 ==> CellOf(x) == 3 || CellOf(x) == 4
    ensures 2.0 <= x ==> CellOf(x) == 5
  {
  }

  /** The whole 16-way decision: each axis on its own. */
  lemma {:induction false} Slice16Decides(z: Point)
    ensures POINTS[Slice16(z)] == Point(Axis(z.re), Axis(z.im))
  {
    CellIs(z.re);
    CellIs(z.im);
    TableIs(CellOf(z.re), CellOf(z.im));
  }

  function CellLevel(c: int): real {
    if c == 0 then -3.0 else if c <= 2 then -1.0 else if c <= 4 then 1.0 else 3.0
  }

  lemma {:induction false} TableIs(r: int, c: int)
    requires 0 <= r <= 5 && 0 <= c <= 5
    ensures POINTS[SPACE_MAP[r][c]] == Point(CellLevel(r), CellLevel(c))
  {
    var row := SPACE_MAP[r];
    assert POINTS[row[c]].re == CellLevel(r);
  }

  lemma {:induction false} PointsDistinct(i: Index, j: Index)
    requires POINTS[i] == POINTS[j]
    ensures i == j
  {
  }

  function Square(x: real): real {
    x * x
  }

  function DistanceSquared(a: Point, b: Point): real {
    Square(a.re - b.re) + Square(a.im - b.im)
  }

  lemma {:induction false} NearestLevel(x: real, level: real)
    requires level == -3.0 || level == -1.0 || level == 1.0 || level == 3.0
    ensures Square(x - Axis(x)) <= Square(x - level)
  {
    var a := Axis(x);
    assert Square(x - level) - Square(x - a) == (level - a) * (level + a - 2.0 * x);
  }

  /** The 16-way slicer picks a nearest constellation point. */
  lemma {:induction false} Slice16Nearest(z: Point, j: Index)
    ensures DistanceSquared(z, POINTS[Slice16(z)]) <= DistanceSquared(z, POINTS[j])
  {
    Slice16Decides(z);
    NearestLevel(z.re, POINTS[j].re);
    NearestLevel(z.im, POINTS[j].im);
  }

  /** Received within one unit per axis. */
  predicate Near(z: Point, p: Point) {
    -1.0 < z.re - p.re < 1.0 && -1.0 < z.im - p.im < 1.0
  }

  /**
   A sent point received within one unit per axis is decided correctly: any of the
   sixteen at 2400 bit/s, the four the transmitter uses at 1200 bit/s.
   */
  lemma {:induction false} SliceCorrects(sixteen: bool, sent: Index, z: Point)
    requires Near(z, POINTS[sent]) && (sixteen || sent % 4 == 1)
    ensures Slice(sixteen, z) == sent
  {
    if sixteen {
      Slice16Decides(z);
      assert Axis(z.re) == POINTS[sent].re && Axis(z.im) == POINTS[sent].im;
      PointsDistinct(Slice16(z), sent);
    } else {
      assert sent == 1 || sent == 5 || sent == 9 || sent == 13;
    }
  }

  // ----------------------------------------------------- rotation invariance

  /** A quarter turn, counter-clockwise. */
  function Turn(z: Point): Point {
    Point(-z.im, z.re)
  }

  function Turned(z: Point, quarters: nat): Point {
    if quarters == 0 then z else Turn(Turned(z, quarters - 1))
  }

  /** The index four places on: the point a quarter turn further. */
  function Next(i: Index): Index {
    (i + 4) % 16
  }

  function TurnedIndex(i: Index, quarters: nat): Index {
    if quarters == 0 then i else Next(TurnedIndex(i, quarters - 1))
  }

  /** Turning a constellation point adds 4 to its index. */
  lemma {:induction false} TurnedPoint(i: Index)
    ensures POINTS[Next(i)] == Turn(POINTS[i])
  {
  }

  lemma {:induction false} TurnedPoints(i: Index, quarters: nat)
    ensures POINTS[TurnedIndex(i, quarters)] == Turned(POINTS[i], quarters)
  {
    if quarters > 0 {
      TurnedPoints(i, quarters - 1);
      TurnedPoint(TurnedIndex(i, quarters - 1));
    }
  }

  function NextDibit(d: Dibit): Dibit {
    if d == 3 then 0 else d + 1
  }

  function TurnedQuadrant(quadrant: Dibit, quarters: nat): Dibit {
    if quarters == 0 then quadrant else NextDibit(TurnedQuadrant(quadrant, quarters - 1))
  }

  lemma {:induction false} TurnedPlace(quadrant: Dibit, place: Dibit, quarters: nat)
    ensures TurnedIndex(4 * quadrant + place, quarters) == 4 * TurnedQuadrant(quadrant, quarters) + place
  {
    if quarters > 0 {
      TurnedPlace(quadrant, place, quarters - 1);
      NextOf(TurnedQuadrant(quadrant, quarters - 1), place);
    }
  }

  lemma {:induction false} NextOf(quadrant: Dibit, place: Dibit)
    ensures Next(4 * quadrant + place) == 4 * NextDibit(quadrant) + place
  {
  }

  function Far(b: Bit): real {
    if b == 0 then 1.0 else 3.0
  }

  lemma {:induction false} FirstQuadrant(hi: Bit, lo: Bit)
    ensures POINTS[Pair(hi, lo)] == Point(Far(lo), Far(hi))
  {
  }

  lemma {:induction false} FromFirst(quadrant: Dibit)
    ensures TurnedQuadrant(0, quadrant) == quadrant
  {
    if quadrant > 0 { FromFirst(quadrant - 1); }
  }

  /** The sixteen points: in each quadrant one bit lengthens each axis, turned with the quadrant. */
  lemma {:induction false} PointIs(quadrant: Dibit, hi: Bit, lo: Bit)
    ensures POINTS[4 * quadrant + Pair(hi, lo)] == Turned(Point(Far(lo), Far(hi)), quadrant)
  {
    FirstQuadrant(hi, lo);
    FromFirst(quadrant);
    TurnedPlace(0, Pair(hi, lo), quadrant);
    TurnedPoints(Pair(hi, lo), quadrant);
  }

  /** A dibit's phase change, in quarter turns: 90, 0, 180 and 270 degrees for 00, 01, 10 and 11. */
  function Quarters(hi: Bit, lo: Bit): Dibit {
    if hi == 0 then 1 - lo else 2 + lo
  }

  lemma {:induction false} AdvanceTurns(quadrant: Dibit, hi: Bit, lo: Bit)
    ensures Advance(quadrant, Pair(hi, lo)) == TurnedQuadrant(quadrant, Quarters(hi, lo))
  {
    var once := NextDibit(quadrant);
    assert TurnedQuadrant(quadrant, 1) == once && TurnedQuadrant(quadrant, 2) == NextDibit(once);
    assert TurnedQuadrant(quadrant, 3) == NextDibit(NextDibit(once));
  }

  /** The carrier is turned by just that, whatever the other two bits are. */
  lemma {:induction false} PhaseAdvance(quadrant: Dibit, hi: Bit, lo: Bit, place: Dibit)
    ensures POINTS[4 * Advance(quadrant, Pair(hi, lo)) + place]
         == Turned(POINTS[4 * quadrant + place], Quarters(hi, lo))
  {
    AdvanceTurns(quadrant, hi, lo);
    TurnedPoints(4 * quadrant + place, Quarters(hi, lo));
    TurnedPlace(quadrant, place, Quarters(hi, lo));
  }

  /** A value on one of the slicer's decision boundaries. */
  predicate OnBoundary(x: real) {
    x == -2.0 || x == 0.0 || x == 2.0
  }

  /**
   The 16-way slicer follows a quarter turn exactly when the coordinate whose sign
   is flipped is not on a decision boundary.
   */
  lemma {:induction false} Slice16Turns(z: Point)
    ensures Slice16(Turn(z)) == Next(Slice16(z)) <==> !OnBoundary(z.im)
  {
    Slice16Decides(z);
    Slice16Decides(Turn(z));
    TurnedPoint(Slice16(z));
    if Slice16(Turn(z)) != Next(Slice16(z)) && !OnBoundary(z.im) {
      PointsDistinct(Slice16(Turn(z)), Next(Slice16(z)));
    }
  }

  /** Likewise for the 4-way slicer, whose boundary lies along one rotated axis. */
  lemma {:induction false} Slice4Turns(z: Point)
    ensures Slice4(Turn(z)) == Next(Slice4(z)) <==> Rot45(z).im != 0.0
  {
    assert Rot45(Turn(z)) == Turn(Rot45(z));
  }

  /** Clear of every boundary of the slicer in use, in every quarter-turned position. */
  predicate Clear(sixteen: bool, z: Point) {
    if sixteen then !OnBoundary(z.re) && !OnBoundary(z.im)
    else Rot45(z).re != 0.0 && Rot45(z).im != 0.0
  }

  lemma {:induction false} SliceTurn(sixteen: bool, z: Point)
    requires Clear(sixteen, z)
    ensures Clear(sixteen, Turn(z)) && Slice(sixteen, Turn(z)) == Next(Slice(sixteen, z))
  {
    if sixteen {
      Slice16Turns(z);
    } else {
      Slice4Turns(z);
      assert Rot45(Turn(z)) == Turn(Rot45(z));
    }
  }

  lemma {:induction false} SliceTurned(sixteen: bool, z: Point, quarters: nat)
    requires Clear(sixteen, z)
    ensures Clear(sixteen, Turned(z, quarters))
    ensures Slice(sixteen, Turned(z, quarters)) == TurnedIndex(Slice(sixteen, z), quarters)
  {
    if quarters > 0 {
      SliceTurned(sixteen, z, quarters - 1);
      SliceTurn(sixteen, Turned(z, quarters - 1));
    }
  }

  /** Raw (still scrambled) bits of one decision, as decode_baud passes them on. */
  function RawBits(sixteen: bool, last: Index, nearest: Index): seq<Bit> {
    var d := RawDibit(last, nearest);
    [d / 2, d % 2] + if sixteen then [nearest / 2 % 2, nearest % 2] else []
  }

  lemma {:induction false} PairParts(a: Bit, b: Bit)
    ensures Pair(a, b) / 2 == a && Pair(a, b) % 2 == b
  {
  }

  lemma {:induction false} LowParts(i: Index, a: Bit, b: Bit)
    requires i % 4 == Pair(a, b)
    ensures i / 2 % 2 == a && i % 2 == b
  {
    assert i == 4 * (i / 4) + 2 * a + b;
  }

  lemma {:induction false} RawBitsAre(sixteen: bool, last: Index, nearest: Index, line: seq<Bit>)
    requires |line| == if sixteen then 4 else 2
    requires RawDibit(last, nearest) == Pair(line[0], line[1])
    requires sixteen ==> nearest % 4 == Pair(line[2], line[3])
    ensures RawBits(sixteen, last, nearest) == line
  {
    PairParts(line[0], line[1]);
    if sixteen { LowParts(nearest, line[2], line[3]); }
  }

  /** Raw bits of a run of received points. */
  function Received(sixteen: bool, last: Index, zs: seq<Point>): seq<Bit>
    decreases |zs|
  {
    if zs == [] then []
    else
      var nearest := Slice(sixteen, zs[0]);
      RawBits(sixteen, last, nearest) + Received(sixteen, nearest, zs[1..])
  }

  function TurnAll(zs: seq<Point>, quarters: nat): seq<Point> {
    seq(|zs|, i requires 0 <= i < |zs| => Turned(zs[i], quarters))
  }

  lemma {:induction false} NextPlaces(i: Index)
    ensures Next(i) / 4 == (i / 4 + 1) % 4
  {
    assert Next(i) == if i < 12 then i + 4 else i - 12;
  }

  lemma {:induction false} NextLow(i: Index)
    ensures Next(i) % 2 == i % 2 && Next(i) / 2 % 2 == i / 2 % 2
  {
    assert Next(i) == if i < 12 then i + 4 else i - 12;
  }

  lemma {:induction false} SameDifference(a: Dibit, b: Dibit)
    ensures ((a + 1) % 4 - (b + 1) % 4) % 4 == (a - b) % 4
  {
  }

  lemma {:induction false} RawBitsTurn(sixteen: bool, last: Index, nearest: Index)
    ensures RawBits(sixteen, Next(last), Next(nearest)) == RawBits(sixteen, last, nearest)
  {
    NextPlaces(last);
    NextPlaces(nearest);
    NextLow(nearest);
    SameDifference(nearest / 4, last / 4);
  }

  lemma {:induction false} RawBitsTurned(sixteen: bool, last: Index, nearest: Index, quarters: nat)
    ensures RawBits(sixteen, TurnedIndex(last, quarters), TurnedIndex(nearest, quarters))
         == RawBits(sixteen, last, nearest)
  {
    if quarters > 0 {
      RawBitsTurned(sixteen, last, nearest, quarters - 1);
      RawBitsTurn(sixteen, TurnedIndex(last, quarters - 1), TurnedIndex(nearest, quarters - 1));
    }
  }

  lemma {:induction false} ReceivedTurned(sixteen: bool, last: Index, zs: seq<Point>, quarters: nat)
    requires forall i :: 0 <= i < |zs| ==> Clear(sixteen, zs[i])
    ensures Received(sixteen, TurnedIndex(last, quarters), TurnAll(zs, quarters))
         == Received(sixteen, last, zs)
    decreases |zs|
  {
    if zs != [] {
      var nearest := Slice(sixteen, zs[0]);
      SliceTurned(sixteen, zs[0], quarters);
      RawBitsTurned(sixteen, last, nearest, quarters);
      assert TurnAll(zs, quarters)[1..] == TurnAll(zs[1..], quarters);
      ReceivedTurned(sixteen, nearest, zs[1..], quarters);
    }
  }

  lemma {:induction false} RawBitsLength(sixteen: bool, last: Index, nearest: Index)
    ensures |RawBits(sixteen, last, nearest)| == if sixteen then 4 else 2
  {
  }

  /** The raw bits after the first symbol. */
  function Later(sixteen: bool, last: Index, zs: seq<Point>): seq<Bit>
    requires zs != []
  {
    RawBitsLength(sixteen, last, Slice(sixteen, zs[0]));
    Received(sixteen, last, zs)[if sixteen then 4 else 2..]
  }

  lemma {:induction false} LaterIs(sixteen: bool, last: Index, zs: seq<Point>)
    requires zs != []
    ensures Later(sixteen, last, zs) == Received(sixteen, Slice(sixteen, zs[0]), zs[1..])
  {
    RawBitsLength(sixteen, last, Slice(sixteen, zs[0]));
  }

  /**
   Rotation invariance: a constant phase error of any number of quarter turns
   changes no raw bit after the first symbol, whatever state the decoder was in.
   */
  lemma {:induction false} RotationInvariance(sixteen: bool, last: Index, zs: seq<Point>, quarters: nat)
    requires zs != [] && forall i :: 0 <= i < |zs| ==> Clear(sixteen, zs[i])
    ensures Later(sixteen, last, TurnAll(zs, quarters)) == Later(sixteen, last, zs)
  {
    var nearest := Slice(sixteen, zs[0]);
    SliceTurned(sixteen, zs[0], quarters);
    assert TurnAll(zs, quarters)[1..] == TurnAll(zs[1..], quarters);
    ReceivedTurned(sixteen, nearest, zs[1..], quarters);
    LaterIs(sixteen, last, zs);
    LaterIs(sixteen, last, TurnAll(zs, quarters));
  }

  // --------------------------------------------- exactly when it holds

  /** The number of quarter turns from one quadrant to another. */
  function Gap(a: Dibit, b: Dibit): Dibit {
    if b >= a then b - a else b - a + 4
  }

  /** By how many quadrants the decision on a point moves when the point is turned. */
  function Slip(sixteen: bool, z: Point, quarters: nat): Dibit {
    Gap(Slice(sixteen, z) / 4, Slice(sixteen, Turned(z, quarters)) / 4)
  }

  /** The place within the quadrant, which counts at 2400 bit/s only, is decided as before. */
  predicate SamePlace(sixteen: bool, z: Point, quarters: nat) {
    sixteen ==> Slice(sixteen, Turned(z, quarters)) % 4 == Slice(sixteen, z) % 4
  }

  /** The decisions on all points move by the same number of quadrants, and keep their places. */
  predicate MoveTogether(sixteen: bool, zs: seq<Point>, quarters: nat, slip: Dibit) {
    forall i :: 0 <= i < |zs| ==> Slip(sixteen, zs[i], quarters) == slip && SamePlace(sixteen, zs[i], quarters)
  }

  lemma {:induction false} RawDibitIs(last: Index, nearest: Index)
    ensures RawDibit(last, nearest) == PHASE_STEPS[Gap(last / 4, nearest / 4)]
  {
  }

  lemma {:induction false} StepsDiffer(a: Dibit, b: Dibit)
    ensures PHASE_STEPS[a] == PHASE_STEPS[b] <==> a == b
  {
  }

  lemma {:induction false} GapSwap(a: Dibit, b: Dibit, a': Dibit, b': Dibit)
    ensures Gap(a', b') == Gap(a, b) <==> Gap(b, b') == Gap(a, a')
  {
  }

  lemma {:induction false} HalvesDetermine(d: Dibit, d': Dibit)
    ensures d' / 2 == d / 2 && d' % 2 == d % 2 <==> d' == d
  {
  }

  lemma {:induction false} LowHalves(i: Index)
    ensures i / 2 % 2 == i % 4 / 2 && i % 2 == i % 4 % 2
  {
  }

  /** The raw bits of a symbol determine its dibit and its place. */
  lemma {:induction false} RawBitsDetermine(sixteen: bool, last: Index, nearest: Index, last': Index, nearest': Index)
    ensures RawBits(sixteen, last', nearest') == RawBits(sixteen, last, nearest)
      <==> RawDibit(last', nearest') == RawDibit(last, nearest) && (sixteen ==> nearest' % 4 == nearest % 4)
  {
    var x, x' := RawBits(sixteen, last, nearest), RawBits(sixteen, last', nearest');
    assert x' == x <==> x'[0] == x[0] && x'[1] == x[1] && (sixteen ==> x'[2] == x[2] && x'[3] == x[3]);
    HalvesDetermine(RawDibit(last, nearest), RawDibit(last', nearest'));
    if sixteen {
      LowHalves(nearest);
      LowHalves(nearest');
      HalvesDetermine(nearest % 4, nearest' % 4);
    }
  }

  lemma {:induction false} RawBitsExactly(sixteen: bool, last: Index, last': Index, z: Point, quarters: nat)
    ensures RawBits(sixteen, last', Slice(sixteen, Turned(z, quarters))) == RawBits(sixteen, last, Slice(sixteen, z))
      <==> Slip(sixteen, z, quarters) == Gap(last / 4, last' / 4) && SamePlace(sixteen, z, quarters)
  {
    var nearest, nearest' := Slice(sixteen, z), Slice(sixteen, Turned(z, quarters));
    RawBitsDetermine(sixteen, last, nearest, last', nearest');
    RawDibitIs(last, nearest);
    RawDibitIs(last', nearest');
    StepsDiffer(Gap(last / 4, nearest / 4), Gap(last' / 4, nearest' / 4));
    GapSwap(last / 4, nearest / 4, last' / 4, nearest' / 4);
  }

  lemma {:induction false} ConcatDetermines(a: seq<Bit>, b: seq<Bit>, a': seq<Bit>, b': seq<Bit>)
    requires |a| == |a'|
    ensures a + b == a' + b' <==> a == a' && b == b'
  {
    assert (a + b)[..|a|] == a && (a + b)[|a|..] == b;
    assert (a' + b')[..|a|] == a' && (a' + b')[|a|..] == b';
  }

  lemma {:induction false} MoveFirst(sixteen: bool, zs: seq<Point>, quarters: nat, slip: Dibit)
    requires zs != []
    ensures MoveTogether(sixteen, zs, quarters, slip)
      <==> Slip(sixteen, zs[0], quarters) == slip && SamePlace(sixteen, zs[0], quarters)
           && MoveTogether(sixteen, zs[1..], quarters, slip)
  {
    assert forall i :: 0 < i < |zs| ==> zs[i] == zs[1..][i - 1];
  }

  lemma {:induction false} ReceivedExactly(sixteen: bool, last: Index, last': Index, zs: seq<Point>, quarters: nat)
    ensures Received(sixteen, last', TurnAll(zs, quarters)) == Received(sixteen, last, zs)
      <==> MoveTogether(sixteen, zs, quarters, Gap(last / 4, last' / 4))
    decreases |zs|
  {
    if zs != [] {
      var nearest, nearest' := Slice(sixteen, zs[0]), Slice(sixteen, Turned(zs[0], quarters));
      assert TurnAll(zs, quarters)[1..] == TurnAll(zs[1..], quarters);
      ReceivedExactly(sixteen, nearest, nearest', zs[1..], quarters);
      RawBitsExactly(sixteen, last, last', zs[0], quarters);
      RawBitsLength(sixteen, last, nearest);
      RawBitsLength(sixteen, last', nearest');
      ConcatDetermines(RawBits(sixteen, last', nearest'), Received(sixteen, nearest', TurnAll(zs[1..], quarters)),
                       RawBits(sixteen, last, nearest), Received(sixteen, nearest, zs[1..]));
      MoveFirst(sixteen, zs, quarters, Gap(last / 4, last' / 4));
    }
  }

  /**
   For every run and every turn the raw bits after the first symbol are unchanged exactly
   when the decisions on all later points move by as many quadrants as the first and, at
   2400 bit/s, keep their places.
   */
  lemma {:induction false} TurnExactly(sixteen: bool, last: Index, zs: seq<Point>, quarters: nat)
    requires zs != []
    ensures Later(sixteen, last, TurnAll(zs, quarters)) == Later(sixteen, last, zs)
      <==> MoveTogether(sixteen, zs[1..], quarters, Slip(sixteen, zs[0], quarters))
  {
    LaterIs(sixteen, last, zs);
    LaterIs(sixteen, last, TurnAll(zs, quarters));
    assert TurnAll(zs, quarters)[1..] == TurnAll(zs[1..], quarters);
    ReceivedExactly(sixteen, Slice(sixteen, zs[0]), Slice(sixteen, Turned(zs[0], quarters)), zs[1..], quarters);
  }

  lemma {:induction false} NextExactly(i: Index, j: Index)
    ensures j == Next(i) <==> Gap(i / 4, j / 4) == 1 && j % 4 == i % 4
  {
  }

  lemma {:induction false} GapAdds(a: Dibit, b: Dibit, c: Dibit)
    requires Gap(a, b) == 1
    ensures Gap(a, c) == 2 <==> Gap(b, c) == 1
  {
  }

  lemma {:induction false} OneQuadrant(sixteen: bool, z: Point, z': Point)
    ensures !sixteen ==> Slice(sixteen, z) % 4 == Slice(sixteen, z') % 4
  {
  }

  lemma {:induction false} TurnedOnce(z: Point)
    ensures Turned(z, 1) == Turn(z) && Turned(z, 2) == Turn(Turn(z))
  {
    assert Turned(z, 0) == z;
  }

  /** One and two turns move the decision by one and two quadrants. */
  predicate FollowsTurns(sixteen: bool, z: Point) {
    Slip(sixteen, z, 1) == 1 && SamePlace(sixteen, z, 1) && Slip(sixteen, z, 2) == 2 && SamePlace(sixteen, z, 2)
  }

  lemma {:induction false} FollowsIs(sixteen: bool, z: Point)
    ensures FollowsTurns(sixteen, z)
      <==> Slice(sixteen, Turn(z)) == Next(Slice(sixteen, z))
           && Slice(sixteen, Turn(Turn(z))) == Next(Slice(sixteen, Turn(z)))
  {
    var i, j, k := Slice(sixteen, z), Slice(sixteen, Turn(z)), Slice(sixteen, Turn(Turn(z)));
    TurnedOnce(z);
    OneQuadrant(sixteen, z, Turn(z));
    OneQuadrant(sixteen, Turn(z), Turn(Turn(z)));
    NextExactly(i, j);
    NextExactly(j, k);
    if Gap(i / 4, j / 4) == 1 { GapAdds(i / 4, j / 4, k / 4); }
  }

  /** A decision follows both turns exactly when its point is clear of the boundaries. */
  lemma {:induction false} FollowsExactly(sixteen: bool, z: Point)
    ensures FollowsTurns(sixteen, z) <==> Clear(sixteen, z)
  {
    FollowsIs(sixteen, z);
    if sixteen {
      Slice16Turns(z);
      Slice16Turns(Turn(z));
    } else {
      Slice4Turns(z);
      Slice4Turns(Turn(z));
      assert Rot45(Turn(z)) == Turn(Rot45(z));
    }
  }

  /**
   A run that starts with a clear point keeps its raw bits under every turn exactly when
   all of its points are clear of the decision boundaries.
   */
  lemma {:induction false} InvarianceExactly(sixteen: bool, last: Index, zs: seq<Point>)
    requires zs != [] && Clear(sixteen, zs[0])
    ensures (forall quarters: nat :: Later(sixteen, last, TurnAll(zs, quarters)) == Later(sixteen, last, zs))
      <==> forall i :: 0 <= i < |zs| ==> Clear(sixteen, zs[i])
  {
    if forall i :: 0 <= i < |zs| ==> Clear(sixteen, zs[i]) {
      forall quarters: nat ensures Later(sixteen, last, TurnAll(zs, quarters)) == Later(sixteen, last, zs) {
        RotationInvariance(sixteen, last, zs, quarters);
      }
    } else {
      var i :| 0 <= i < |zs| && !Clear(sixteen, zs[i]);
      SomeTurnShows(sixteen, last, zs, i);
    }
  }

  lemma {:induction false} SomeTurnShows(sixteen: bool, last: Index, zs: seq<Point>, i: nat)
    requires 0 < i < |zs| && Clear(sixteen, zs[0]) && !Clear(sixteen, zs[i])
    ensures || Later(sixteen, last, TurnAll(zs, 1)) != Later(sixteen, last, zs)
            || Later(sixteen, last, TurnAll(zs, 2)) != Later(sixteen, last, zs)
  {
    FollowsExactly(sixteen, zs[0]);
    FollowsExactly(sixteen, zs[i]);
    TurnExactly(sixteen, last, zs, 1);
    TurnExactly(sixteen, last, zs, 2);
    assert zs[1..][i - 1] == zs[i];
  }

  /** A run of two points, the second on a boundary, whose raw bits a quarter turn changes. */
  lemma {:induction false} BoundaryBreaksInvariance()
    ensures var zs := [Point(1.0, 1.0), Point(1.0, 0.0)];
            Later(true, 0, TurnAll(zs, 1)) != Later(true, 0, zs)
  {
    var w, z := Point(1.0, 1.0), Point(1.0, 0.0);
    TurnExactly(true, 0, [w, z], 1);
    assert [w, z][1..] == [z];
    TurnedOnce(w);
    TurnedOnce(z);
    Slice16Turns(w);
    Slice16Turns(z);
    NextExactly(Slice16(w), Slice16(Turn(w)));
    NextExactly(Slice16(z), Slice16(Turn(z)));
    assert MoveTogether(true, [z], 1, 1) ==> Slip(true, [z][0], 1) == 1 && SamePlace(true, [z][0], 1);
  }
}
