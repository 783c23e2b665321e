/**
 * The steering rule of Agent.computeNewDirection, stated on values: each owned
 * marker contributes its unit displacement weighted by (1 + cos θ) / (1 + d),
 * the weighted sum is divided by the total weight, and the result is capped
 * at MAX_SPEED. `targets` are the owned markers' positions, `plane` the
 * agent's ground-plane position, `goal` its goal direction.
 */
module Steering {
  import opened Wrappers
  import opened Vectors

  const MAX_SPEED: real := 8.0

  // ---- real arithmetic helpers ----

  lemma MulNonneg(a: real, b: real, c: real)
    requires 0.0 <= a && 0.0 <= b && c == a * b
    ensures 0.0 <= c
  {
    if a > 0.0 && b > 0.0 {
      MulPositive(a, b, c);
    }
  }

  /** 0 <= a <= b implies a * a <= b * b. */
  lemma SquareMonotone(a: real, b: real, aa: real, bb: real)
    requires 0.0 <= a <= b && aa == a * a && bb == b * b
    ensures aa <= bb
  {
    var ab := a * b;
    MulNonneg(b - a, a, ab - aa);
    MulNonneg(b - a, b, bb - ab);
  }

  /** A quotient with numerator in [0, 2] and denominator at least 1 lies in [0, 2]. */
  lemma QuotientRange(n: real, den: real)
    requires 0.0 <= n <= 2.0 && 1.0 <= den
    ensures 0.0 <= n / den <= 2.0
  {
    var q := n / den;
    assert q * den == n;
    if q < 0.0 {
      MulPositive(-q, den, -n);
    }
    MulNonneg(q, den - 1.0, n - q);
  }

  /** The weight formula stays in [0, 2] for a cosine in [-1, 1] and a distance >= 0. */
  lemma WeightRange(cosTheta: real, dist: real)
    requires -1.0 <= cosTheta <= 1.0 && 0.0 <= dist
    ensures 0.0 <= (1.0 + cosTheta) / (1.0 + dist) <= 2.0
  {
    QuotientRange(1.0 + cosTheta, 1.0 + dist);
  }

  // ---- the per-marker weight ----

  /** (1 + cos θ) / (1 + |d|) for the displacement d from the agent to a marker. */
  function Weight(sqrt: real -> real, disp: Vec3, goal: Vec3): real
    requires IsSqrt(sqrt)
  {
    LengthOfSquare(sqrt, disp);
    (1.0 + Dot(Normalize(sqrt, disp), goal)) / (1.0 + Length(sqrt, disp))
  }

  /** With a goal direction of length at most 1, every weight lies in [0, 2]. */
  lemma WeightBounds(sqrt: real -> real, disp: Vec3, goal: Vec3)
    requires IsSqrt(sqrt) && LengthSq(goal) <= 1.0
    ensures 0.0 <= Weight(sqrt, disp, goal) <= 2.0
  {
    NormalizeUnit(sqrt, disp);
    DotBounded(Normalize(sqrt, disp), goal);
    LengthOfSquare(sqrt, disp);
    WeightRange(Dot(Normalize(sqrt, disp), goal), Length(sqrt, disp));
  }

  /** A weight is zero exactly when the marker lies straight against the goal direction. */
  lemma WeightZero(sqrt: real -> real, disp: Vec3, goal: Vec3)
    requires IsSqrt(sqrt)
    ensures Weight(sqrt, disp, goal) == 0.0 <==> Dot(Normalize(sqrt, disp), goal) == -1.0
  {
    LengthOfSquare(sqrt, disp);
    var n, den := 1.0 + Dot(Normalize(sqrt, disp), goal), 1.0 + Length(sqrt, disp);
    assert (n / den) * den == n;
  }

  // ---- accumulation over the owned markers ----

  /** totalContribution after the loop over `targets`. */
  function TotalWeight(sqrt: real -> real, targets: seq<Vec3>, plane: Vec3, goal: Vec3): real
    requires IsSqrt(sqrt)
    decreases |targets|
  {
    if targets == [] then 0.0
    else
      TotalWeight(sqrt, targets[..|targets| - 1], plane, goal)
      + Weight(sqrt, Sub(targets[|targets| - 1], plane), goal)
  }

  /** weightedDirection after the loop over `targets`. */
  function WeightedSum(sqrt: real -> real, targets: seq<Vec3>, plane: Vec3, goal: Vec3): Vec3
    requires IsSqrt(sqrt)
    decreases |targets|
  {
    if targets == [] then Zero
    else
      var disp := Sub(targets[|targets| - 1], plane);
      Add(WeightedSum(sqrt, targets[..|targets| - 1], plane, goal),
          Scale(Normalize(sqrt, disp), Weight(sqrt, disp, goal)))
  }

  /** Extending the markers seen by one more adds its weight and its weighted unit displacement. */
  lemma SumsSnoc(sqrt: real -> real, targets: seq<Vec3>, plane: Vec3, goal: Vec3, i: int)
    requires IsSqrt(sqrt) && 0 <= i < |targets|
    ensures var disp := Sub(targets[i], plane);
            && TotalWeight(sqrt, targets[..i + 1], plane, goal) ==
                 TotalWeight(sqrt, targets[..i], plane, goal) + Weight(sqrt, disp, goal)
            && WeightedSum(sqrt, targets[..i + 1], plane, goal) ==
                 Add(WeightedSum(sqrt, targets[..i], plane, goal), Scale(Normalize(sqrt, disp), Weight(sqrt, disp, goal)))
  {
    assert targets[..i + 1][..i] == targets[..i];
  }

  /**
   * The total weight lies in [0, 2n] for n markers, and it is zero exactly when
   * every marker has weight zero (in particular when there are none).
   */
  lemma {:induction false} TotalWeightFacts(sqrt: real -> real, targets: seq<Vec3>, plane: Vec3, goal: Vec3)
    requires IsSqrt(sqrt) && LengthSq(goal) <= 1.0
    ensures 0.0 <= TotalWeight(sqrt, targets, plane, goal) <= 2.0 * |targets| as real
    ensures TotalWeight(sqrt, targets, plane, goal) == 0.0 <==>
              forall k | 0 <= k < |targets| :: Weight(sqrt, Sub(targets[k], plane), goal) == 0.0
    decreases |targets|
  {
    if targets != [] {
      var n := |targets|;
      var prefix := targets[..n - 1];
      TotalWeightFacts(sqrt, prefix, plane, goal);
      WeightBounds(sqrt, Sub(targets[n - 1], plane), goal);
      assert forall k | 0 <= k < n - 1 :: prefix[k] == targets[k];
    }
  }

  // ---- the cap and the blended direction ----

  /** Vector3.setLength(MAX_SPEED) when the length exceeds MAX_SPEED. */
  function Cap(sqrt: real -> real, v: Vec3): Vec3 {
    if Length(sqrt, v) > MAX_SPEED then Scale(Normalize(sqrt, v), MAX_SPEED) else v
  }

  /**
   * The capped vector is never longer than MAX_SPEED; a vector within the limit
   * is left alone, and a longer one comes out with length exactly MAX_SPEED.
   */
  lemma CapBound(sqrt: real -> real, v: Vec3)
    requires IsSqrt(sqrt)
    ensures LengthSq(Cap(sqrt, v)) <= MAX_SPEED * MAX_SPEED
    ensures Length(sqrt, v) <= MAX_SPEED ==> Cap(sqrt, v) == v
    ensures Length(sqrt, v) > MAX_SPEED ==> LengthSq(Cap(sqrt, v)) == MAX_SPEED * MAX_SPEED
  {
    LengthOfSquare(sqrt, v);
    var len := Length(sqrt, v);
    if len > MAX_SPEED {
      NormalizeUnit(sqrt, v);
      LengthSqScale(Normalize(sqrt, v), MAX_SPEED);
    } else {
      SquareMonotone(len, MAX_SPEED, len * len, MAX_SPEED * MAX_SPEED);
    }
  }

  /**
   * The new direction: the weighted sum divided by the total weight, capped.
   * None stands for the division by a zero total.
   */
  function Steer(sqrt: real -> real, targets: seq<Vec3>, plane: Vec3, goal: Vec3): (r: Option<Vec3>)
    requires IsSqrt(sqrt)
    ensures targets == [] ==> r.None?
    ensures r.Some? ==> LengthSq(r.value) <= MAX_SPEED * MAX_SPEED
  {
    var total := TotalWeight(sqrt, targets, plane, goal);
    if total == 0.0 then None
    else
      var blended := Scale(WeightedSum(sqrt, targets, plane, goal), 1.0 / total);
      CapBound(sqrt, blended);
      Some(Cap(sqrt, blended))
  }

  /**
   * The division by zero happens exactly when every owned marker lies straight
   * against the goal direction, which includes owning no marker at all.
   */
  lemma SteerUndefined(sqrt: real -> real, targets: seq<Vec3>, plane: Vec3, goal: Vec3)
    requires IsSqrt(sqrt) && LengthSq(goal) <= 1.0
    ensures Steer(sqrt, targets, plane, goal).None? <==>
              forall k | 0 <= k < |targets| ::
                Dot(Normalize(sqrt, Sub(targets[k], plane)), goal) == -1.0
  {
    TotalWeightFacts(sqrt, targets, plane, goal);
    forall k | 0 <= k < |targets| {
      WeightZero(sqrt, Sub(targets[k], plane), goal);
    }
  }
}
