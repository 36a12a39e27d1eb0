/** Scores, calibrated confidences and timestamps. */
module ValueEffects {
  // The values themselves: what a candidate scores (prisoner-identity-matcher.ts), where a
  // calibrated confidence lies (recognition.py), and how a moment is written (storage.py).

  import opened EditDistance
  import opened Sorting
  import opened Numerals
  import IdentityMatching
  import Calibration
  import Timestamps

  // ------------------------------------------------------------------------------- candidates

  predicate Agrees(rules: IdentityMatching.Rules, f: IdentityMatching.Option<IdentityMatching.Field>, text: string) {
    rules.normalize(if f.Some? then f.value.raw else "") == rules.normalize(text)
  }

  function Likeness(rules: IdentityMatching.Rules, f: IdentityMatching.Option<IdentityMatching.Field>, text: string): real {
    Similarity(rules.normalize(if f.Some? then f.value.raw else ""), rules.normalize(text))
  }

  predicate NameEarns(rules: IdentityMatching.Rules, e: IdentityMatching.Evidence, c: IdentityMatching.Candidate,
                      reason: IdentityMatching.Reason, points: int) {
    var likeness := Likeness(rules, e.name, c.name);
    if Agrees(rules, e.name, c.name) then points == 40 && reason == IdentityMatching.NameExact
    else if likeness >= 0.5 then
      points as real - 0.5 <= 30.0 * likeness < points as real + 0.5 && reason == IdentityMatching.NameSimilar
    else points == 0 && reason == IdentityMatching.NameMismatch
  }

  predicate IdEarns(rules: IdentityMatching.Rules, e: IdentityMatching.Evidence, c: IdentityMatching.Candidate,
                    reason: IdentityMatching.Reason, points: int) {
    if e.prisonerId.None? || !e.prisonerId.value.recognized || rules.normalize(e.prisonerId.value.raw) == ""
    then points == 0 && reason == IdentityMatching.OptionalIdAbsent
    else if Agrees(rules, e.prisonerId, c.legacyId) then points == 50 && reason == IdentityMatching.IdExact
    else points == -50 && reason == IdentityMatching.IdConflict
  }

  /** A prisoner of the right cell has 100 points: 40 more for the same name, 30 times the likeness,
      rounded, for a likeness of at least one half; 50 more for the same identifier and 50 less for
      another, where one was read. */
  lemma ScoreIs(rules: IdentityMatching.Rules, e: IdentityMatching.Evidence, c: IdentityMatching.Candidate)
    ensures var r := IdentityMatching.Rating(rules, e, c);
            && r.candidate == c && |r.reasons| == 3 && r.reasons[0] == IdentityMatching.CellExact
            && exists name, id ::
                 NameEarns(rules, e, c, r.reasons[1], name) && IdEarns(rules, e, c, r.reasons[2], id) && r.score == 100 + name + id
  {
    hide Similarity;
    var byName, byId := IdentityMatching.NameReason(rules, e, c), IdentityMatching.IdReason(rules, e, c);
    var name, id := IdentityMatching.Points(rules, e, c, byName), IdentityMatching.Points(rules, e, c, byId);
    assert NameEarns(rules, e, c, byName, name) && IdEarns(rules, e, c, byId, id);
    var r := IdentityMatching.Rating(rules, e, c);
    assert r.reasons[1] == byName && r.reasons[2] == byId && r.score == 100 + name + id;
    assert NameEarns(rules, e, c, r.reasons[1], name) && IdEarns(rules, e, c, r.reasons[2], id);
  }

  /** Nobody is listed without a readable name and cell; otherwise as many as asked for, at most ten. */
  lemma ListedAre(rules: IdentityMatching.Rules, e: IdentityMatching.Evidence, cs: seq<IdentityMatching.Candidate>, limit: int)
    requires TotalPreorder(IdentityMatching.Order(rules))
    ensures var n := |IdentityMatching.Shortlist(rules, e, cs, limit)|;
            if e.name.Some? && e.name.value.recognized && !rules.blank(e.name.value.raw)
               && e.cell.Some? && e.cell.value.recognized && !rules.blank(e.cell.value.raw)
            then n <= |cs| && n <= 10 && (n == |cs| || n == 10 || n == limit || (n == 0 && limit < 0)) && (limit >= 0 ==> n <= limit)
            else n == 0
  {
    SortIsOrderedPermutation(IdentityMatching.Ratings(rules, e, cs), IdentityMatching.Order(rules));
    hide Sort, IdentityMatching.Rating;
  }

  // ------------------------------------------------------------------------------- calibration

  lemma Fraction(x: real, whole: real)
    requires whole != 0.0
    ensures x / whole * whole == x
  {
  }

  lemma OnTheLine(left: Calibration.Point, right: Calibration.Point, raw: real)
    requires left.raw < right.raw
    ensures (Calibration.Between(left, right, raw) - left.calibrated) * (right.raw - left.raw)
            == (raw - left.raw) * (right.calibrated - left.calibrated)
  {
    var width, rise := right.raw - left.raw, right.calibrated - left.calibrated;
    var t := (raw - left.raw) / width;
    Fraction(raw - left.raw, width);
    assert Calibration.Between(left, right, raw) - left.calibrated == t * rise;
    Reorder(t, rise, width);
  }

  lemma Reorder(t: real, rise: real, width: real)
    ensures t * rise * width == t * width * rise
  {
  }

  lemma {:induction false} FoundSegment(points: seq<Calibration.Point>, raw: real, from: nat, i: nat)
    requires Calibration.ValidCurve(points) && from <= i < |points| - 1 && points[i].raw < raw <= points[i + 1].raw
    ensures Calibration.ApplyFrom(points, raw, from) == Calibration.Between(points[i], points[i + 1], raw)
    decreases i - from
  {
    if from < i {
      Rising(points, from + 1, i);
      FoundSegment(points, raw, from + 1, i);
    }
  }

  lemma {:induction false} Rising(points: seq<Calibration.Point>, i: nat, j: nat)
    requires Calibration.ValidCurve(points) && i <= j < |points|
    ensures points[i].raw <= points[j].raw
    decreases j
  {
    if i < j {
      Rising(points, i, j - 1);
    }
  }

  lemma {:induction false} BeyondTheLast(points: seq<Calibration.Point>, raw: real, from: nat)
    requires Calibration.ValidCurve(points) && from < |points| && points[|points| - 1].raw < raw
    ensures Calibration.ApplyFrom(points, raw, from) == points[|points| - 1].calibrated
    decreases |points| - from
  {
    if from < |points| - 1 {
      Rising(points, from + 1, |points| - 1);
      BeyondTheLast(points, raw, from + 1);
    }
  }

  /** A calibrated confidence lies on the straight line between the two points around it, at the first
      or last point's height outside them, and is the raw one without points. */
  lemma CalibratedIs(points: seq<Calibration.Point>, raw: real, i: nat)
    requires Calibration.ValidCurve(points)
    ensures points == [] ==> Calibration.Calibrated(points, raw) == raw
    ensures points != [] && raw <= points[0].raw ==> Calibration.Calibrated(points, raw) == points[0].calibrated
    ensures points != [] && raw > points[|points| - 1].raw ==>
              Calibration.Calibrated(points, raw) == points[|points| - 1].calibrated
    ensures i + 1 < |points| && points[i].raw < raw <= points[i + 1].raw ==>
              (Calibration.Calibrated(points, raw) - points[i].calibrated) * (points[i + 1].raw - points[i].raw)
              == (raw - points[i].raw) * (points[i + 1].calibrated - points[i].calibrated)
  {
    hide Calibration.ApplyFrom, Calibration.Between;
    if points != [] && raw > points[|points| - 1].raw {
      Rising(points, 0, |points| - 1);
      BeyondTheLast(points, raw, 0);
    }
    if i + 1 < |points| && points[i].raw < raw <= points[i + 1].raw {
      Rising(points, 0, i);
      FoundSegment(points, raw, 0, i);
      OnTheLine(points[i], points[i + 1], raw);
    }
  }

  // -------------------------------------------------------------------------------- timestamps

  lemma FieldIs(n: nat, width: nat)
    requires width >= 1 && n < Power(10, width)
    ensures |Timestamps.Field(n, width)| == width && Value(Timestamps.Field(n, width), 10) == n
    ensures Timestamps.Digits(Timestamps.Field(n, width))
  {
    PaddedReads(n, 10, width);
    hide Numeral, Value;
  }

  predicate Holds(s: string, from: nat, to: nat, n: nat) {
    from <= to <= |s| && Timestamps.Digits(s[from..to]) && Value(s[from..to], 10) == n
  }

  lemma StampParts(y: string, mo: string, d: string, h: string, mi: string, s: string, u: string)
    requires |y| == 4 && |mo| == 2 && |d| == 2 && |h| == 2 && |mi| == 2 && |s| == 2 && |u| == 6
    ensures var t := y + ("-" + (mo + ("-" + (d + ("T" + (h + (":" + (mi + (":" + (s + ("." + (u + "Z"))))))))))));
            && |t| == 27 && t[4] == '-' && t[7] == '-' && t[10] == 'T' && t[13] == ':' && t[16] == ':' && t[19] == '.'
            && t[26] == 'Z'
            && t[..4] == y && t[5..7] == mo && t[8..10] == d && t[11..13] == h && t[14..16] == mi && t[17..19] == s && t[20..26] == u
  {
    var t := y + ("-" + (mo + ("-" + (d + ("T" + (h + (":" + (mi + (":" + (s + ("." + (u + "Z"))))))))))));
    assert t == y + "-" + mo + "-" + d + "T" + h + ":" + mi + ":" + s + "." + u + "Z";
  }

  /** A moment is written as YYYY-MM-DDTHH:MM:SS.ffffffZ, and every part reads back. */
  lemma StampIs(m: Timestamps.Moment)
    requires Timestamps.Valid(m)
    ensures var t := Timestamps.Stamp(m);
            && |t| == 27 && t[4] == '-' && t[7] == '-' && t[10] == 'T' && t[13] == ':' && t[16] == ':' && t[19] == '.'
            && t[26] == 'Z'
            && Holds(t, 0, 4, m.year) && Holds(t, 5, 7, m.month) && Holds(t, 8, 10, m.day) && Holds(t, 11, 13, m.hour)
            && Holds(t, 14, 16, m.minute) && Holds(t, 17, 19, m.second) && Holds(t, 20, 26, m.micro)
  {
    Timestamps.Widths();
    FieldIs(m.year, 4);
    FieldIs(m.month, 2);
    FieldIs(m.day, 2);
    FieldIs(m.hour, 2);
    FieldIs(m.minute, 2);
    FieldIs(m.second, 2);
    FieldIs(m.micro, 6);
    hide Timestamps.Field, Value, Power, Timestamps.Digits;
    StampParts(Timestamps.Field(m.year, 4), Timestamps.Field(m.month, 2), Timestamps.Field(m.day, 2), Timestamps.Field(m.hour, 2),
               Timestamps.Field(m.minute, 2), Timestamps.Field(m.second, 2), Timestamps.Field(m.micro, 6));
  }
}
