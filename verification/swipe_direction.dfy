/**
 * The direction classifier of CardSwipeDirection.swift: each direction set maps a
 * drag angle to one of its cases (or to none), and gives every case a canonical
 * angle. Angles are exact real numbers of degrees, counter-clockwise from the
 * positive x axis (0 = right, 90 = up); the source's radian bounds k*pi/4 are the
 * degree bounds k*45.
 */
module SwipeDirection {
  import opened Wrappers

  /** One full turn, 2*pi radians. */
  const FullTurn: real := 360.0

  /** `Angle.normalized`: a negative angle is shifted up by exactly one full turn. */
  function Normalized(degrees: real): (r: real)
    ensures degrees < 0.0 ==> r == degrees + FullTurn
    ensures 0.0 <= degrees ==> r == degrees
    ensures -FullTurn <= degrees ==> 0.0 <= r
    ensures degrees < FullTurn ==> r < FullTurn
  {
    if degrees < 0.0 then degrees + FullTurn else degrees
  }

  /**
   * The raw angle lies in the half-open bucket [lo, hi) either as given or one full
   * turn lower; for 0 <= lo and hi <= FullTurn this is exactly "the normalized
   * angle lies in [lo, hi)".
   */
  predicate InBucket(angle: real, lo: real, hi: real) {
    (lo <= angle < hi) || (lo - FullTurn <= angle < hi - FullTurn)
  }

  lemma InBucketIsNormalizedRange(angle: real, lo: real, hi: real)
    requires 0.0 <= lo && hi <= FullTurn
    ensures InBucket(angle, lo, hi) <==> lo <= Normalized(angle) < hi
  {
  }

  /** Normalization is idempotent wherever it reaches [0, FullTurn). */
  lemma NormalizedIdempotent(degrees: real)
    requires -FullTurn <= degrees < FullTurn
    ensures 0.0 <= Normalized(degrees) < FullTurn
    ensures Normalized(Normalized(degrees)) == Normalized(degrees)
  {
  }

  /** The shorter arc between two angles of [0, FullTurn), in degrees. */
  function ArcDistance(x: real, y: real): (r: real)
    requires 0.0 <= x < FullTurn && 0.0 <= y < FullTurn
    ensures 0.0 <= r <= FullTurn / 2.0
    ensures r == 0.0 <==> x == y
  {
    var d := if x <= y then y - x else x - y;
    if d <= FullTurn / 2.0 then d else FullTurn - d
  }

  /** Two-way classification: horizontal swipes only, the vertical bands are dead. */
  datatype LeftRight = Left | Right {

    static function From(angle: real): (r: Option<LeftRight>)
      ensures r == Some(LeftRight.Left) <==> InBucket(angle, 135.0, 225.0)
      ensures r == Some(LeftRight.Right) <==> InBucket(angle, 0.0, 45.0) || InBucket(angle, 315.0, 360.0)
      ensures -FullTurn <= angle < FullTurn ==>
                (r == None <==> InBucket(angle, 45.0, 135.0) || InBucket(angle, 225.0, 315.0))
    {
      var n := Normalized(angle);
      if 135.0 <= n < 225.0 then Some(LeftRight.Left)
      else if 0.0 <= n < 45.0 then Some(LeftRight.Right)
      else if 315.0 <= n < 360.0 then Some(LeftRight.Right)
      else None
    }

    function Angle(): (r: real)
      ensures 0.0 <= r < FullTurn
      ensures From(r) == Some(this)
    {
      match this
      case Left => 180.0
      case Right => 0.0
    }
  }

  /** Four-way classification: quarter turns centred on the axes; nothing is dead. */
  datatype FourDirections = Top | Right | Bottom | Left {

    static function From(angle: real): (r: Option<FourDirections>)
      ensures r.Some?
      ensures r == Some(FourDirections.Top) <==> InBucket(angle, 45.0, 135.0)
      ensures r == Some(FourDirections.Left) <==> InBucket(angle, 135.0, 225.0)
      ensures r == Some(FourDirections.Bottom) <==> InBucket(angle, 225.0, 315.0)
      ensures r == Some(FourDirections.Right) <==> !InBucket(angle, 45.0, 315.0)
    {
      var n := Normalized(angle);
      if 45.0 <= n < 135.0 then Some(FourDirections.Top)
      else if 135.0 <= n < 225.0 then Some(FourDirections.Left)
      else if 225.0 <= n < 315.0 then Some(FourDirections.Bottom)
      else Some(FourDirections.Right)
    }

    function Angle(): (r: real)
      ensures 0.0 <= r < FullTurn
      ensures From(r) == Some(this)
    {
      match this
      case Top => 90.0
      case Right => 0.0
      case Bottom => 270.0
      case Left => 180.0
    }
  }

  /** Eight-way classification: eighth turns centred on the axes and the diagonals. */
  datatype EightDirections = Top | Right | Bottom | Left | TopLeft | TopRight | BottomLeft | BottomRight {

    static function From(angle: real): (r: Option<EightDirections>)
      ensures r.Some?
      ensures r == Some(EightDirections.TopRight) <==> InBucket(angle, 22.5, 67.5)
      ensures r == Some(EightDirections.Top) <==> InBucket(angle, 67.5, 112.5)
      ensures r == Some(EightDirections.TopLeft) <==> InBucket(angle, 112.5, 157.5)
      ensures r == Some(EightDirections.Left) <==> InBucket(angle, 157.5, 202.5)
      ensures r == Some(EightDirections.BottomLeft) <==> InBucket(angle, 202.5, 247.5)
      ensures r == Some(EightDirections.Bottom) <==> InBucket(angle, 247.5, 292.5)
      ensures r == Some(EightDirections.BottomRight) <==> InBucket(angle, 292.5, 337.5)
      ensures r == Some(EightDirections.Right) <==> !InBucket(angle, 22.5, 337.5)
    {
      var n := Normalized(angle);
      if 22.5 <= n < 67.5 then Some(EightDirections.TopRight)
      else if 67.5 <= n < 112.5 then Some(EightDirections.Top)
      else if 112.5 <= n < 157.5 then Some(EightDirections.TopLeft)
      else if 157.5 <= n < 202.5 then Some(EightDirections.Left)
      else if 202.5 <= n < 247.5 then Some(EightDirections.BottomLeft)
      else if 247.5 <= n < 292.5 then Some(EightDirections.Bottom)
      else if 292.5 <= n < 337.5 then Some(EightDirections.BottomRight)
      else Some(EightDirections.Right)
    }

    function Angle(): (r: real)
      ensures 0.0 <= r < FullTurn
      ensures From(r) == Some(this)
    {
      match this
      case Top => 90.0
      case Right => 0.0
      case Bottom => 270.0
      case Left => 180.0
      case TopLeft => 135.0
      case TopRight => 45.0
      case BottomLeft => 225.0
      case BottomRight => 315.0
    }
  }

  /**
   * Against an independent reading of the buckets: on one turn of input, the
   * two-way classifier reports a side only within 45 degrees of that side's
   * canonical angle, and the nearer side; it reports none only at 45 degrees or
   * more from both.
   */
  lemma LeftRightIsNearest(angle: real)
    requires -FullTurn <= angle < FullTurn
    ensures LeftRight.From(angle).Some? ==>
              var n, d := Normalized(angle), LeftRight.From(angle).value;
              ArcDistance(n, d.Angle()) <= 45.0 &&
              forall e: LeftRight :: ArcDistance(n, d.Angle()) <= ArcDistance(n, e.Angle())
    ensures LeftRight.From(angle).None? ==>
              forall e: LeftRight :: ArcDistance(Normalized(angle), e.Angle()) >= 45.0
  {
  }

  /** The four-way classifier picks a nearest canonical angle, at most 45 degrees away. */
  lemma FourDirectionsIsNearest(angle: real)
    requires -FullTurn <= angle < FullTurn
    ensures var n, d := Normalized(angle), FourDirections.From(angle).value;
            ArcDistance(n, d.Angle()) <= 45.0 &&
            forall e: FourDirections :: ArcDistance(n, d.Angle()) <= ArcDistance(n, e.Angle())
  {
  }

  /** The eight-way classifier picks a nearest canonical angle, at most 22.5 degrees away. */
  lemma EightDirectionsIsNearest(angle: real)
    requires -FullTurn <= angle < FullTurn
    ensures var n, d := Normalized(angle), EightDirections.From(angle).value;
            ArcDistance(n, d.Angle()) <= 22.5 &&
            forall e: EightDirections :: ArcDistance(n, d.Angle()) <= ArcDistance(n, e.Angle())
  {
  }

  /**
   * `ongoingSwipeDirection` of the card view: the classified direction counts only
   * once the drag has travelled strictly farther than the threshold.
   */
  function OngoingSwipeDirection<D>(from: real -> Option<D>, angle: real, distance: real, threshold: real): (r: Option<D>)
    ensures r.Some? <==> from(angle).Some? && distance > threshold
    ensures r.Some? ==> r == from(angle)
  {
    match from(angle)
    case None => None
    case Some(direction) => if distance > threshold then Some(direction) else None
  }

  /** Every canonical angle, dragged past the threshold, is classified as its own direction. */
  lemma GatedRoundTrip(threshold: real, a: LeftRight, b: FourDirections, c: EightDirections)
    ensures OngoingSwipeDirection(LeftRight.From, a.Angle(), threshold + 1.0, threshold) == Some(a)
    ensures OngoingSwipeDirection(FourDirections.From, b.Angle(), threshold + 1.0, threshold) == Some(b)
    ensures OngoingSwipeDirection(EightDirections.From, c.Angle(), threshold + 1.0, threshold) == Some(c)
  {
  }

  /**
   * The classifications the direction tests expect, the boundaries that open a
   * bucket, and the canonical angle of every direction.
   */
  lemma DirectionExamples()
    ensures LeftRight.From(0.0) == Some(LeftRight.Right) && LeftRight.From(90.0) == None
    ensures LeftRight.From(180.0) == Some(LeftRight.Left) && LeftRight.From(270.0) == None
    ensures FourDirections.From(0.0) == Some(FourDirections.Right) && FourDirections.From(90.0) == Some(FourDirections.Top)
    ensures FourDirections.From(180.0) == Some(FourDirections.Left) && FourDirections.From(270.0) == Some(FourDirections.Bottom)
    ensures EightDirections.From(0.0) == Some(EightDirections.Right) && EightDirections.From(45.0) == Some(EightDirections.TopRight)
    ensures EightDirections.From(90.0) == Some(EightDirections.Top) && EightDirections.From(135.0) == Some(EightDirections.TopLeft)
    ensures EightDirections.From(180.0) == Some(EightDirections.Left) && EightDirections.From(225.0) == Some(EightDirections.BottomLeft)
    ensures EightDirections.From(270.0) == Some(EightDirections.Bottom) && EightDirections.From(315.0) == Some(EightDirections.BottomRight)
    ensures LeftRight.From(135.0) == Some(LeftRight.Left) && LeftRight.From(45.0) == None
    ensures FourDirections.From(45.0) == Some(FourDirections.Top) && EightDirections.From(22.5) == Some(EightDirections.TopRight)
    ensures LeftRight.From(360.0) == None && FourDirections.From(-360.0) == Some(FourDirections.Right)
    ensures LeftRight.Left.Angle() == 180.0 && LeftRight.Right.Angle() == 0.0
    ensures FourDirections.Top.Angle() == 90.0 && FourDirections.Right.Angle() == 0.0
    ensures FourDirections.Bottom.Angle() == 270.0 && FourDirections.Left.Angle() == 180.0
    ensures EightDirections.Top.Angle() == 90.0 && EightDirections.Right.Angle() == 0.0
    ensures EightDirections.Bottom.Angle() == 270.0 && EightDirections.Left.Angle() == 180.0
    ensures EightDirections.TopLeft.Angle() == 135.0 && EightDirections.TopRight.Angle() == 45.0
    ensures EightDirections.BottomLeft.Angle() == 225.0 && EightDirections.BottomRight.Angle() == 315.0
  {
  }
}
