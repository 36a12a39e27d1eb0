/** Stored timestamps (storage.py). */
module Timestamps {
  // UTC, fixed width, microseconds, so that comparing texts in SQL compares moments.

  import opened Numerals
  import opened TextOrder

  datatype Moment = Moment(year: nat, month: nat, day: nat, hour: nat, minute: nat, second: nat, micro: nat)

  predicate Valid(m: Moment) {
    m.year <= 9999 && m.month <= 99 && m.day <= 99 && m.hour <= 99 && m.minute <= 99 && m.second <= 99 && m.micro <= 999999
  }

  function Field(n: nat, width: nat): string {
    PadStart(Numeral(n, 10), width)
  }

  /** isoformat(timespec="microseconds") with Z for the UTC offset. */
  function Stamp(m: Moment): string {
    Field(m.year, 4) + ("-" + (Field(m.month, 2) + ("-" + (Field(m.day, 2) + ("T" + (Field(m.hour, 2)
    + (":" + (Field(m.minute, 2) + (":" + (Field(m.second, 2) + ("." + (Field(m.micro, 6) + "Z"))))))))))))
  }

  predicate Earlier(a: Moment, b: Moment) {
    a.year < b.year || (a.year == b.year && (
    a.month < b.month || (a.month == b.month && (
    a.day < b.day || (a.day == b.day && (
    a.hour < b.hour || (a.hour == b.hour && (
    a.minute < b.minute || (a.minute == b.minute && (
    a.second < b.second || (a.second == b.second && a.micro < b.micro)))))))))))
  }

  predicate Digits(s: string) {
    forall i | 0 <= i < |s| :: IsDigit(s[i])
  }

  /** Numerals of one width are in text order exactly when their values are in order. */
  lemma {:induction false} SameWidthOrder(s: string, t: string)
    requires |s| == |t| && Digits(s) && Digits(t)
    ensures Less(s, t) <==> Value(s, 10) < Value(t, 10)
    ensures s == t <==> Value(s, 10) == Value(t, 10)
  {
    if s != "" {
      var n := |s| - 1;
      SameWidthOrder(s[..n], t[..n]);
      assert s == s[..n] + [s[n]] && t == t[..n] + [t[n]];
      LastCharacter(s[..n], t[..n], s[n], t[n]);
    }
  }

  lemma FieldOrder(a: nat, b: nat, width: nat)
    requires width >= 1 && a < Power(10, width) && b < Power(10, width)
    ensures |Field(a, width)| == |Field(b, width)|
    ensures Less(Field(a, width), Field(b, width)) <==> a < b
    ensures Field(a, width) == Field(b, width) <==> a == b
  {
    PaddedReads(a, 10, width);
    PaddedReads(b, 10, width);
    hide Numeral, Value, Less;
    SameWidthOrder(Field(a, width), Field(b, width));
  }

  /** One fixed-width field in front of two texts. */
  lemma FieldFirst(a: nat, b: nat, width: nat, s: string, t: string)
    requires width >= 1 && a < Power(10, width) && b < Power(10, width)
    ensures Less(Field(a, width) + s, Field(b, width) + t) <==> a < b || (a == b && Less(s, t))
  {
    FieldOrder(a, b, width);
    hide Field, Less;
    if a == b {
      SamePrefix(Field(a, width), s, t);
    } else {
      FirstDifference(Field(a, width), Field(b, width), s, t);
    }
  }

  lemma Widths()
    ensures Power(10, 2) == 100 && Power(10, 4) == 10000 && Power(10, 6) == 1000000
  {
  }

  /** Comparing two stored timestamps as text compares the moments: the lease and retry queries
      may compare text. */
  lemma TextOrderIsTimeOrder(a: Moment, b: Moment)
    requires Valid(a) && Valid(b)
    ensures Less(Stamp(a), Stamp(b)) <==> Earlier(a, b)
  {
    Widths();
    hide Field, Less, Power;
    var a6, b6 := Field(a.micro, 6) + "Z", Field(b.micro, 6) + "Z";
    FieldFirst(a.micro, b.micro, 6, "Z", "Z");
    LessIsStrictTotal("Z", "Z");
    var a5, b5 := Field(a.second, 2) + ("." + a6), Field(b.second, 2) + ("." + b6);
    SamePrefix(".", a6, b6);
    FieldFirst(a.second, b.second, 2, "." + a6, "." + b6);
    var a4, b4 := Field(a.minute, 2) + (":" + a5), Field(b.minute, 2) + (":" + b5);
    SamePrefix(":", a5, b5);
    FieldFirst(a.minute, b.minute, 2, ":" + a5, ":" + b5);
    var a3, b3 := Field(a.hour, 2) + (":" + a4), Field(b.hour, 2) + (":" + b4);
    SamePrefix(":", a4, b4);
    FieldFirst(a.hour, b.hour, 2, ":" + a4, ":" + b4);
    var a2, b2 := Field(a.day, 2) + ("T" + a3), Field(b.day, 2) + ("T" + b3);
    SamePrefix("T", a3, b3);
    FieldFirst(a.day, b.day, 2, "T" + a3, "T" + b3);
    var a1, b1 := Field(a.month, 2) + ("-" + a2), Field(b.month, 2) + ("-" + b2);
    SamePrefix("-", a2, b2);
    FieldFirst(a.month, b.month, 2, "-" + a2, "-" + b2);
    SamePrefix("-", a1, b1);
    FieldFirst(a.year, b.year, 4, "-" + a1, "-" + b1);
  }
}
