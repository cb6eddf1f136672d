/**
 * The threshold classifiers of the eco overlays (src/App.tsx): the air-cell
 * colour index, the traffic colour, the five-colour air scale, the traffic
 * line width, and the road-tag width and load bonus.
 *
 * Each if-chain is related to one reference definition, `Bucket`: the number
 * of ascending thresholds a value has reached. Monotonicity of every
 * classifier then follows from monotonicity of `Bucket`.
 */
module Classifiers {
  import opened Geometry

  /** A CSS colour string with an alpha, as given to `Color.fromCssColorString(css).withAlpha(alpha)`. */
  datatype Color = Color(css: string, alpha: real)

  /** Number of entries of `thresholds` that are at most v. */
  function Bucket(thresholds: seq<real>, v: real): (r: nat)
    ensures r <= |thresholds|
  {
    if thresholds == [] then 0
    else (if thresholds[0] <= v then 1 else 0) + Bucket(thresholds[1..], v)
  }

  lemma {:induction false} BucketMonotone(thresholds: seq<real>, v1: real, v2: real)
    requires v1 <= v2
    ensures Bucket(thresholds, v1) <= Bucket(thresholds, v2)
  {
    if thresholds != [] {
      BucketMonotone(thresholds[1..], v1, v2);
    }
  }

  /** For ascending thresholds, `Bucket` is the index of the interval holding v. */
  lemma {:induction false} BucketLocates(thresholds: seq<real>, v: real, k: nat)
    requires forall m, n :: 0 <= m < n < |thresholds| ==> thresholds[m] < thresholds[n]
    requires k <= |thresholds|
    requires k > 0 ==> thresholds[k - 1] <= v
    requires k < |thresholds| ==> v < thresholds[k]
    ensures Bucket(thresholds, v) == k
  {
    if thresholds != [] {
      var tail := thresholds[1..];
      if k == 0 {
        BucketLocates(tail, v, 0);
      } else {
        BucketLocates(tail, v, k - 1);
      }
    }
  }

  // Air cells (:199-201): t is already clamped by the caller.

  const AirThresholds: seq<real> := [0.33, 0.66]
  const AirCellColors: seq<Color> := [Color("#22c55e", 0.52), Color("#eab308", 0.52), Color("#ef4444", 0.52)]

  /** `colorIndex = t < 0.33 ? 0 : t < 0.66 ? 1 : 2` */
  function AirIndex(t: real): (r: nat)
    ensures r == Bucket(AirThresholds, t)
    ensures r < |AirCellColors|
  {
    BucketLocates(AirThresholds, t, if t < 0.33 then 0 else if t < 0.66 then 1 else 2);
    if t < 0.33 then 0 else if t < 0.66 then 1 else 2
  }

  // Road colours (:234-239)

  const TrafficThresholds: seq<real> := [0.4, 0.78]
  const TrafficColors: seq<Color> := [Color("#22c55e", 0.85), Color("#eab308", 0.85), Color("#ef4444", 0.85)]

  /** Index of `trafficColor(t)` in TrafficColors. */
  function TrafficIndex(t: real): (r: nat)
    ensures r == Bucket(TrafficThresholds, t)
    ensures r < |TrafficColors|
  {
    BucketLocates(TrafficThresholds, t, if t < 0.4 then 0 else if t < 0.78 then 1 else 2);
    if t < 0.4 then 0 else if t < 0.78 then 1 else 2
  }

  /** `trafficColor(t)` */
  function TrafficColor(t: real): Color {
    TrafficColors[TrafficIndex(t)]
  }

  // The five-colour air scale `getAirColor` (:435-444)

  const AirScaleThresholds: seq<real> := [0.2, 0.4, 0.6, 0.8]
  const AirScaleColors: seq<Color> :=
    [Color("#22c55e", 0.92), Color("#84cc16", 0.92), Color("#eab308", 0.92), Color("#f97316", 0.92), Color("#ef4444", 0.92)]

  /** Index of `getAirColor(value)` in AirScaleColors: the value is clamped first. */
  function AirScaleIndex(value: real): (r: nat)
    ensures r == Bucket(AirScaleThresholds, Clamp(value))
    ensures r < |AirScaleColors|
  {
    var v := Clamp(value);
    var k := if v < 0.2 then 0 else if v < 0.4 then 1 else if v < 0.6 then 2 else if v < 0.8 then 3 else 4;
    BucketLocates(AirScaleThresholds, v, k);
    k
  }

  /** `getAirColor(value)` */
  function GetAirColor(value: real): Color {
    AirScaleColors[AirScaleIndex(value)]
  }

  // `getTrafficStyle` (:446-462)

  const StyleThresholds: seq<real> := [0.3, 0.6, 0.8]

  /** `getTrafficStyle(value).width`: 2, 4, 6 or 8 by bucket of the clamped value. */
  function TrafficStyleWidth(value: real): (w: nat)
    ensures w == 2 * (Bucket(StyleThresholds, Clamp(value)) + 1)
  {
    var v := Clamp(value);
    var w := if v < 0.3 then 2 else if v < 0.6 then 4 else if v < 0.8 then 6 else 8;
    BucketLocates(StyleThresholds, v, w / 2 - 1);
    w
  }

  /** Every classifier is non-decreasing in its input. */
  lemma ClassifiersMonotone(v1: real, v2: real)
    requires v1 <= v2
    ensures AirIndex(v1) <= AirIndex(v2)
    ensures TrafficIndex(v1) <= TrafficIndex(v2)
    ensures AirScaleIndex(v1) <= AirScaleIndex(v2)
    ensures TrafficStyleWidth(v1) <= TrafficStyleWidth(v2)
  {
    BucketMonotone(AirThresholds, v1, v2);
    BucketMonotone(TrafficThresholds, v1, v2);
    ClampMonotone(v1, v2);
    BucketMonotone(AirScaleThresholds, Clamp(v1), Clamp(v2));
    BucketMonotone(StyleThresholds, Clamp(v1), Clamp(v2));
  }

  // Road tags (:263-264, :274); `hw` is the lower-cased `highway` tag.

  /** `roadBonus` */
  function RoadBonus(hw: string): (b: real)
    ensures 0.0 <= b <= 0.35
    ensures b > 0.0 <==> hw in {"motorway", "trunk", "primary", "secondary"}
  {
    if hw == "motorway" || hw == "trunk" then 0.35
    else if hw == "primary" then 0.25
    else if hw == "secondary" then 0.15
    else 0.0
  }

  /** The `width` of a road polyline. */
  function RoadWidth(hw: string): (w: nat)
    ensures 2 <= w <= 4
    ensures w > 2 <==> RoadBonus(hw) > 0.15
  {
    if hw == "motorway" || hw == "trunk" then 4
    else if hw == "primary" then 3
    else 2
  }

  /** A tag with a larger load bonus never gets a thinner line. */
  lemma RoadWidthFollowsBonus(hw1: string, hw2: string)
    requires RoadBonus(hw1) <= RoadBonus(hw2)
    ensures RoadWidth(hw1) <= RoadWidth(hw2)
  {
  }
}
