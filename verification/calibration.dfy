/** Confidence calibration. */
module Calibration {
  // Piecewise linear, after recognition.py.  Confidences are exact reals.

  datatype Point = Point(raw: real, calibrated: real)

  predicate IsScore(x: real) {
    0.0 <= x <= 1.0
  }

  // What the constructors of CalibrationPoint and ConfidenceCalibrator admit.
  ghost predicate ValidCurve(points: seq<Point>) {
    && (forall i | 0 <= i < |points| :: IsScore(points[i].raw) && IsScore(points[i].calibrated))
    && (forall i | 0 <= i < |points| - 1 :: points[i].raw < points[i + 1].raw)
  }

  function Blend(a: real, b: real, t: real): real {
    a + t * (b - a)
  }

  function Between(left: Point, right: Point, raw: real): real
    requires left.raw < right.raw
  {
    Blend(left.calibrated, right.calibrated, (raw - left.raw) / (right.raw - left.raw))
  }

  function ApplyFrom(points: seq<Point>, raw: real, i: nat): real
    requires ValidCurve(points) && i < |points|
    decreases |points| - i
  {
    if i == |points| - 1 then points[i].calibrated
    else if raw <= points[i + 1].raw then Between(points[i], points[i + 1], raw)
    else ApplyFrom(points, raw, i + 1)
  }

  function Calibrated(points: seq<Point>, raw: real): real
    requires ValidCurve(points)
  {
    if points == [] then raw
    else if raw <= points[0].raw then points[0].calibrated
    else ApplyFrom(points, raw, 0)
  }

  method Apply(points: seq<Point>, raw: real) returns (confidence: real)
    requires ValidCurve(points)
    ensures confidence == Calibrated(points, raw)
  {
    if points == [] {
      return raw;
    }
    if raw <= points[0].raw {
      return points[0].calibrated;
    }
    for i := 0 to |points| - 1
      invariant ApplyFrom(points, raw, 0) == ApplyFrom(points, raw, i)
    {
      var left, right := points[i], points[i + 1];
      if raw <= right.raw {
        var fraction := (raw - left.raw) / (right.raw - left.raw);
        return left.calibrated + fraction * (right.calibrated - left.calibrated);
      }
    }
    return points[|points| - 1].calibrated;
  }

  lemma NotNegative(x: real, y: real)
    requires x >= 0.0 && y >= 0.0
    ensures x * y >= 0.0
  {
  }

  lemma SignOfFactor(x: real, y: real)
    requires y > 0.0 && x * y >= 0.0
    ensures x >= 0.0
  {
  }

  lemma Scaled(t: real, d: real)
    requires 0.0 <= t <= 1.0 && d >= 0.0
    ensures 0.0 <= t * d <= d
  {
    NotNegative(t, d);
    NotNegative(1.0 - t, d);
    assert t * d + (1.0 - t) * d == d;
  }

  lemma BlendUp(a: real, b: real, t: real)
    requires 0.0 <= t <= 1.0 && a <= b
    ensures a <= Blend(a, b, t) <= b
  {
    var rise := b - a;
    Scaled(t, rise);
    assert Blend(a, b, t) == a + t * rise;
  }

  lemma BlendSwaps(a: real, b: real, t: real)
    ensures Blend(a, b, t) == Blend(b, a, 1.0 - t)
  {
    assert (1.0 - t) * (a - b) == a - b + t * (b - a);
  }

  lemma BlendStays(a: real, b: real, t: real)
    requires 0.0 <= t <= 1.0
    ensures a <= b ==> a <= Blend(a, b, t) <= b
    ensures b <= a ==> b <= Blend(a, b, t) <= a
  {
    hide Blend;
    if a <= b {
      BlendUp(a, b, t);
    }
    if b <= a {
      BlendSwaps(a, b, t);
      BlendUp(b, a, 1.0 - t);
    }
  }

  lemma Share(left: Point, right: Point, raw: real)
    requires left.raw <= raw <= right.raw && left.raw < right.raw
    ensures 0.0 <= (raw - left.raw) / (right.raw - left.raw) <= 1.0
    ensures raw == right.raw ==> (raw - left.raw) / (right.raw - left.raw) == 1.0
  {
    var t := (raw - left.raw) / (right.raw - left.raw);
    assert t * (right.raw - left.raw) == raw - left.raw;
  }

  lemma SegmentStays(left: Point, right: Point, raw: real)
    requires left.raw <= raw <= right.raw && left.raw < right.raw
    ensures left.calibrated <= right.calibrated ==> left.calibrated <= Between(left, right, raw) <= right.calibrated
    ensures right.calibrated <= left.calibrated ==> right.calibrated <= Between(left, right, raw) <= left.calibrated
    ensures raw == right.raw ==> Between(left, right, raw) == right.calibrated
  {
    Share(left, right, raw);
    BlendStays(left.calibrated, right.calibrated, (raw - left.raw) / (right.raw - left.raw));
  }

  lemma {:induction false} ApplyFromIsAScore(points: seq<Point>, raw: real, i: nat)
    requires ValidCurve(points) && i < |points| && points[i].raw <= raw
    ensures IsScore(ApplyFrom(points, raw, i))
    decreases |points| - i
  {
    if i < |points| - 1 {
      if raw <= points[i + 1].raw {
        SegmentStays(points[i], points[i + 1], raw);
      } else {
        ApplyFromIsAScore(points, raw, i + 1);
      }
    }
  }

  /** A calibrated confidence is again a confidence. */
  lemma CalibrationStaysAScore(points: seq<Point>, raw: real)
    requires ValidCurve(points) && IsScore(raw)
    ensures IsScore(Calibrated(points, raw))
  {
    if points != [] && points[0].raw < raw {
      ApplyFromIsAScore(points, raw, 0);
    }
  }

  lemma {:induction false} RawOrder(points: seq<Point>, i: nat, j: nat)
    requires ValidCurve(points) && i < j < |points|
    ensures points[i].raw < points[j].raw
  {
    if i + 1 < j {
      RawOrder(points, i, j - 1);
    }
  }

  lemma {:induction false} ApplyFromHits(points: seq<Point>, i: nat, j: nat)
    requires ValidCurve(points) && i < j < |points|
    ensures ApplyFrom(points, points[j].raw, i) == points[j].calibrated
    decreases j - i
  {
    if i + 1 == j {
      SegmentStays(points[i], points[j], points[j].raw);
    } else {
      RawOrder(points, i + 1, j);
      ApplyFromHits(points, i + 1, j);
    }
  }

  /** The curve passes through every calibration point. */
  lemma CurveHitsItsPoints(points: seq<Point>, j: nat)
    requires ValidCurve(points) && j < |points|
    ensures Calibrated(points, points[j].raw) == points[j].calibrated
  {
    if j > 0 {
      RawOrder(points, 0, j);
      ApplyFromHits(points, 0, j);
    }
  }

  lemma SegmentGrows(left: Point, right: Point, raw: real, more: real)
    requires left.raw <= raw <= more <= right.raw && left.raw < right.raw && left.calibrated <= right.calibrated
    ensures Between(left, right, raw) <= Between(left, right, more)
  {
    var width := right.raw - left.raw;
    var s, t := (raw - left.raw) / width, (more - left.raw) / width;
    assert s * width == raw - left.raw && t * width == more - left.raw;
    assert (t - s) * width == more - raw;
    SignOfFactor(t - s, width);
    NotNegative(t - s, right.calibrated - left.calibrated);
    assert (t - s) * (right.calibrated - left.calibrated)
           == t * (right.calibrated - left.calibrated) - s * (right.calibrated - left.calibrated);
  }

  ghost predicate Rising(points: seq<Point>) {
    forall i | 0 <= i < |points| - 1 :: points[i].calibrated <= points[i + 1].calibrated
  }

  lemma {:induction false} ApplyFromAbove(points: seq<Point>, raw: real, i: nat)
    requires ValidCurve(points) && Rising(points) && i < |points| && points[i].raw <= raw
    ensures points[i].calibrated <= ApplyFrom(points, raw, i)
    decreases |points| - i
  {
    if i < |points| - 1 {
      if raw <= points[i + 1].raw {
        SegmentStays(points[i], points[i + 1], raw);
      } else {
        ApplyFromAbove(points, raw, i + 1);
      }
    }
  }

  lemma {:induction false} ApplyFromGrows(points: seq<Point>, raw: real, more: real, i: nat)
    requires ValidCurve(points) && Rising(points) && i < |points| && points[i].raw <= raw <= more
    ensures ApplyFrom(points, raw, i) <= ApplyFrom(points, more, i)
    decreases |points| - i
  {
    if i < |points| - 1 {
      if more <= points[i + 1].raw {
        SegmentGrows(points[i], points[i + 1], raw, more);
      } else if raw <= points[i + 1].raw {
        SegmentStays(points[i], points[i + 1], raw);
        ApplyFromAbove(points, more, i + 1);
      } else {
        ApplyFromGrows(points, raw, more, i + 1);
      }
    }
  }

  /** A rising curve never reverses the order of two confidences. */
  lemma CalibrationKeepsOrder(points: seq<Point>, raw: real, more: real)
    requires ValidCurve(points) && Rising(points) && raw <= more
    ensures Calibrated(points, raw) <= Calibrated(points, more)
  {
    if points != [] {
      if points[0].raw < raw {
        ApplyFromGrows(points, raw, more, 0);
      } else if points[0].raw < more {
        ApplyFromAbove(points, more, 0);
      }
    }
  }
}
