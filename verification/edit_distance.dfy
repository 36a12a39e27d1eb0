/** Edit distance between two texts. */
module EditDistance {
  // It is computed twice in the system: with two rows in the scanner (catalogue.py) and with one
  // array rewritten in place in the backend (prisoner-identity-matcher.ts).  The meaning is given
  // by single edits on whole texts: insert, delete or replace one character anywhere.  Distance
  // is the recurrence both loops fill in, and is proved to be the length of a shortest chain of
  // edits.

  type Text = string

  function Min(a: int, b: int): int {
    if a <= b then a else b
  }

  function Max(a: int, b: int): int {
    if a >= b then a else b
  }

  function Cost(x: char, y: char): nat {
    if x == y then 0 else 1
  }

  function Init<T>(s: seq<T>): seq<T>
    requires s != []
  {
    s[..|s| - 1]
  }

  function Last<T>(s: seq<T>): T
    requires s != []
  {
    s[|s| - 1]
  }

  function Distance(a: Text, b: Text): nat
    decreases |a| + |b|
  {
    if a == [] then |b|
    else if b == [] then |a|
    else Min(Min(Distance(a, Init(b)) + 1, Distance(Init(a), b) + 1),
             Distance(Init(a), Init(b)) + Cost(Last(a), Last(b)))
  }

  // ----------------------------------------------------------------------- the two programs

  /** The cell of row i and column j in the table both loops fill. */
  function At(a: Text, b: Text, i: nat, j: nat): nat
    requires i <= |a| && j <= |b|
  {
    Distance(a[..i], b[..j])
  }

  lemma Edges(a: Text, b: Text)
    ensures forall i | 0 <= i <= |a| :: At(a, b, i, 0) == i
    ensures forall j | 0 <= j <= |b| :: At(a, b, 0, j) == j
    ensures At(a, b, |a|, |b|) == Distance(a, b)
  {
    assert a[..|a|] == a && b[..|b|] == b;
  }

  lemma Recurrence(a: Text, b: Text, i: nat, j: nat)
    requires i < |a| && j < |b|
    ensures At(a, b, i + 1, j + 1)
            == Min(Min(At(a, b, i + 1, j) + 1, At(a, b, i, j + 1) + 1), At(a, b, i, j) + Cost(a[i], b[j]))
  {
    var left, right := a[..i + 1], b[..j + 1];
    assert Init(left) == a[..i] && Init(right) == b[..j];
    assert Last(left) == a[i] && Last(right) == b[j];
  }

  /** catalogue.py: a fresh row per character of the left text. */
  method Levenshtein(left: Text, right: Text) returns (distance: nat)
    ensures distance == Distance(left, right)
  {
    hide At, Distance;
    Edges(left, right);
    var previous := seq(|right| + 1, k => k);
    for i := 0 to |left|
      invariant |previous| == |right| + 1
      invariant forall j | 0 <= j <= |right| :: previous[j] == At(left, right, i, j)
    {
      var current: seq<nat> := [i + 1];
      for j := 0 to |right|
        invariant |current| == j + 1
        invariant forall k | 0 <= k <= j :: current[k] == At(left, right, i + 1, k)
      {
        Recurrence(left, right, i, j);
        current := current + [Min(Min(current[j] + 1, previous[j + 1] + 1),
                                  previous[j] + Cost(left[i], right[j]))];
      }
      previous := current;
    }
    distance := previous[|right|];
  }

  /** prisoner-identity-matcher.ts: one array, overwritten from the left, with the overwritten
      cell kept as the next diagonal. */
  method EditDistanceInPlace(left: Text, right: Text) returns (distance: nat)
    ensures distance == Distance(left, right)
  {
    hide At;
    Edges(left, right);
    if left == [] {
      return |right|;
    }
    if right == [] {
      return |left|;
    }
    hide Distance;
    var previous := new nat[|right| + 1](k => k);
    for i := 0 to |left|
      invariant forall j | 0 <= j <= |right| :: previous[j] == At(left, right, i, j)
    {
      var diagonal := previous[0];
      previous[0] := i + 1;
      for j := 0 to |right|
        invariant diagonal == At(left, right, i, j)
        invariant forall k | 0 <= k <= j :: previous[k] == At(left, right, i + 1, k)
        invariant forall k | j < k <= |right| :: previous[k] == At(left, right, i, k)
      {
        Recurrence(left, right, i, j);
        var above := previous[j + 1];
        previous[j + 1] := Min(Min(previous[j + 1] + 1, previous[j] + 1), diagonal + Cost(left[i], right[j]));
        diagonal := above;
      }
    }
    distance := previous[|right|];
  }

  // ------------------------------------------------------------------------ the metric laws

  lemma {:induction false} Symmetric(a: Text, b: Text)
    ensures Distance(a, b) == Distance(b, a)
    decreases |a| + |b|
  {
    if a != [] && b != [] {
      Symmetric(a, Init(b));
      Symmetric(Init(a), b);
      Symmetric(Init(a), Init(b));
    }
  }

  lemma {:induction false} LengthBounds(a: Text, b: Text)
    ensures Max(|a|, |b|) - Min(|a|, |b|) <= Distance(a, b) <= Max(|a|, |b|)
    decreases |a| + |b|
  {
    if a != [] && b != [] {
      LengthBounds(a, Init(b));
      LengthBounds(Init(a), b);
      LengthBounds(Init(a), Init(b));
    }
  }

  lemma {:induction false} ZeroMeansEqual(a: Text, b: Text)
    ensures Distance(a, b) == 0 <==> a == b
    decreases |a| + |b|
  {
    if a != [] && b != [] {
      ZeroMeansEqual(Init(a), Init(b));
      assert a == Init(a) + [Last(a)] && b == Init(b) + [Last(b)];
    }
  }

  lemma LastStep(a: Text, b: Text)
    requires a != [] && b != []
    ensures Distance(a, b)
            == Min(Min(Distance(a, Init(b)) + 1, Distance(Init(a), b) + 1),
                   Distance(Init(a), Init(b)) + Cost(Last(a), Last(b)))
  {
    hide Distance;
    Recurrence(a, b, |a| - 1, |b| - 1);
    assert a[..|a|] == a && b[..|b|] == b;
  }

  lemma {:induction false} Triangle(a: Text, b: Text, c: Text)
    ensures Distance(a, c) <= Distance(a, b) + Distance(b, c)
    decreases |a| + |b| + |c|
  {
    LengthBounds(a, b);
    LengthBounds(b, c);
    LengthBounds(a, c);
    hide Distance;
    if a != [] && b != [] && c != [] {
      LastStep(a, b);
      LastStep(b, c);
      LastStep(a, c);
      Triangle(Init(a), b, c);
      Triangle(a, b, Init(c));
      Triangle(a, Init(b), c);
      Triangle(a, Init(b), Init(c));
      Triangle(Init(a), Init(b), c);
      Triangle(Init(a), Init(b), Init(c));
    }
  }

  // ------------------------------------------------------------- shortest chains of edits

  /** b is a with one character inserted, deleted or replaced at some position. */
  ghost predicate OneEdit(a: Text, b: Text) {
    || (exists p: Text, x: char, q: Text :: a == p + q && b == p + [x] + q)
    || (exists p: Text, x: char, q: Text :: a == p + [x] + q && b == p + q)
    || (exists p: Text, x: char, y: char, q: Text :: a == p + [x] + q && b == p + [y] + q)
  }

  /** A chain of texts, each one edit away from the next. */
  ghost predicate Chain(texts: seq<Text>) {
    texts != [] && forall i | 0 <= i < |texts| - 1 :: OneEdit(texts[i], texts[i + 1])
  }

  ghost predicate Connects(texts: seq<Text>, a: Text, b: Text) {
    Chain(texts) && texts[0] == a && Last(texts) == b
  }

  /** b is n edits away from a, in some order and at some places. */
  ghost predicate Reaches(a: Text, b: Text, n: nat) {
    exists texts: seq<Text> :: Connects(texts, a, b) && |texts| == n + 1
  }

  lemma SuffixParts(a: Text, q: Text)
    requires q != []
    ensures a + q != [] && Init(a + q) == a + Init(q) && Last(a + q) == Last(q)
  {
  }

  lemma {:induction false} CommonSuffix(a: Text, b: Text, q: Text)
    ensures Distance(a + q, b + q) <= Distance(a, b)
    decreases |q|
  {
    if q == [] {
      assert a + q == a && b + q == b;
    } else {
      CommonSuffix(a, b, Init(q));
      SuffixParts(a, q);
      SuffixParts(b, q);
      hide Distance, Init, Last;
      LastStep(a + q, b + q);
    }
  }

  lemma {:induction false} SamePrefix(p: Text, x: char, y: char)
    ensures Distance(p, p + [x]) <= 1 && Distance(p + [x], p) <= 1 && Distance(p + [x], p + [y]) <= 1
  {
    ZeroMeansEqual(p, p);
    Symmetric(p, p + [x]);
    assert Init(p + [x]) == p && Init(p + [y]) == p;
  }

  lemma OneEditCostsOne(a: Text, b: Text)
    requires OneEdit(a, b)
    ensures Distance(a, b) <= 1
  {
    if p: Text, x: char, q: Text :| a == p + q && b == p + [x] + q {
      SamePrefix(p, x, x);
      CommonSuffix(p, p + [x], q);
    } else if p: Text, x: char, q: Text :| a == p + [x] + q && b == p + q {
      SamePrefix(p, x, x);
      CommonSuffix(p + [x], p, q);
    } else {
      var p: Text, x: char, y: char, q: Text :| a == p + [x] + q && b == p + [y] + q;
      SamePrefix(p, x, y);
      CommonSuffix(p + [x], p + [y], q);
    }
  }

  /** No chain of edits is shorter than the distance. */
  lemma {:induction false} NoShorterChain(texts: seq<Text>)
    requires Chain(texts)
    ensures Distance(texts[0], Last(texts)) <= |texts| - 1
  {
    if |texts| == 1 {
      ZeroMeansEqual(texts[0], texts[0]);
    } else {
      var rest := texts[1..];
      forall i | 0 <= i < |rest| - 1 ensures OneEdit(rest[i], rest[i + 1]) {
        assert OneEdit(texts[i + 1], texts[i + 1 + 1]);
      }
      NoShorterChain(rest);
      assert OneEdit(texts[0], texts[0 + 1]);
      OneEditCostsOne(texts[0], rest[0]);
      Triangle(texts[0], rest[0], Last(texts));
    }
  }

  lemma EditsBeforeTheEnd(a: Text, b: Text, x: char)
    requires OneEdit(a, b)
    ensures OneEdit(a + [x], b + [x])
  {
    if p: Text, y: char, q: Text :| a == p + q && b == p + [y] + q {
      assert a + [x] == p + (q + [x]) && b + [x] == p + [y] + (q + [x]);
    } else if p: Text, y: char, q: Text :| a == p + [y] + q && b == p + q {
      assert a + [x] == p + [y] + (q + [x]) && b + [x] == p + (q + [x]);
    } else {
      var p: Text, y: char, z: char, q: Text :| a == p + [y] + q && b == p + [z] + q;
      assert a + [x] == p + [y] + (q + [x]) && b + [x] == p + [z] + (q + [x]);
    }
  }

  /** Appending one character to every text of a chain. */
  lemma AppendToAll(a: Text, b: Text, n: nat, x: char)
    requires Reaches(a, b, n)
    ensures Reaches(a + [x], b + [x], n)
  {
    hide OneEdit;
    var texts: seq<Text> :| Connects(texts, a, b) && |texts| == n + 1;
    var longer := seq(|texts|, i requires 0 <= i < |texts| => texts[i] + [x]);
    forall i | 0 <= i < |longer| - 1 ensures OneEdit(longer[i], longer[i + 1]) {
      assert OneEdit(texts[i], texts[i + 1]);
      EditsBeforeTheEnd(texts[i], texts[i + 1], x);
    }
    assert Connects(longer, a + [x], b + [x]);
  }

  lemma Follow(a: Text, b: Text, c: Text, n: nat)
    requires Reaches(a, b, n) && OneEdit(b, c)
    ensures Reaches(a, c, n + 1)
  {
    hide OneEdit;
    var texts: seq<Text> :| Connects(texts, a, b) && |texts| == n + 1;
    var longer := texts + [c];
    forall i | 0 <= i < |longer| - 1 ensures OneEdit(longer[i], longer[i + 1]) {
      if i < |texts| - 1 {
        assert OneEdit(texts[i], texts[i + 1]);
      }
    }
    assert Connects(longer, a, c);
  }

  lemma Precede(a: Text, b: Text, c: Text, n: nat)
    requires OneEdit(a, b) && Reaches(b, c, n)
    ensures Reaches(a, c, n + 1)
  {
    hide OneEdit;
    var texts: seq<Text> :| Connects(texts, b, c) && |texts| == n + 1;
    var longer := [a] + texts;
    forall i | 0 <= i < |longer| - 1 ensures OneEdit(longer[i], longer[i + 1]) {
      if i > 0 {
        assert OneEdit(texts[i - 1], texts[i - 1 + 1]);
      }
    }
    assert Connects(longer, a, c);
  }

  lemma EditsAtTheEnd(p: Text, x: char, y: char)
    ensures OneEdit(p, p + [x]) && OneEdit(p + [x], p) && OneEdit(p + [x], p + [y])
  {
    assert p == p + [] && p + [x] == p + [x] + [] && p + [y] == p + [y] + [];
  }

  lemma NoEdits(a: Text)
    ensures Reaches(a, a, 0)
  {
    assert Connects([a], a, a);
  }

  lemma OneSideEmpty(a: Text)
    ensures Distance(a, []) == |a| == Distance([], a)
  {
  }

  /** Some chain has exactly Distance edits. */
  lemma {:induction false} ShortestChain(a: Text, b: Text)
    ensures Reaches(a, b, Distance(a, b))
    decreases |a| + |b|, 1
  {
    hide OneEdit, Reaches, Distance;
    OneSideEmpty(a);
    OneSideEmpty(b);
    if a != [] {
      OneSideEmpty(Init(a));
      assert a == Init(a) + [Last(a)];
      EditsAtTheEnd(Init(a), Last(a), Last(a));
    }
    if b != [] {
      OneSideEmpty(Init(b));
      assert b == Init(b) + [Last(b)];
      EditsAtTheEnd(Init(b), Last(b), Last(b));
    }
    if a == [] && b == [] {
      NoEdits(a);
    } else if a != [] && b != [] {
      ShortestByLastStep(a, b);
    } else if a == [] {
      ShortestChain(a, Init(b));
      Follow(a, Init(b), b, Distance(a, Init(b)));
    } else {
      ShortestChain(Init(a), b);
      Precede(a, Init(a), b, Distance(Init(a), b));
    }
  }

  lemma {:induction false} ShortestByLastStep(a: Text, b: Text)
    requires a != [] && b != []
    ensures Reaches(a, b, Distance(a, b))
    decreases |a| + |b|, 0
  {
    hide OneEdit, Reaches, Distance;
    LastStep(a, b);
    assert a == Init(a) + [Last(a)] && b == Init(b) + [Last(b)];
    EditsAtTheEnd(Init(a), Last(a), Last(a));
    EditsAtTheEnd(Init(b), Last(b), Last(b));
    EditsAtTheEnd(Init(b), Last(a), Last(b));
    if Distance(a, b) == Distance(a, Init(b)) + 1 {
      ShortestChain(a, Init(b));
      Follow(a, Init(b), b, Distance(a, Init(b)));
    } else if Distance(a, b) == Distance(Init(a), b) + 1 {
      ShortestChain(Init(a), b);
      Precede(a, Init(a), b, Distance(Init(a), b));
    } else {
      var n := Distance(Init(a), Init(b));
      ShortestChain(Init(a), Init(b));
      AppendToAll(Init(a), Init(b), n, Last(a));
      if Last(a) != Last(b) {
        Follow(a, Init(b) + [Last(a)], b, n);
      }
    }
  }

  /** Distance is the least number of single-character edits that turns one text into the other,
      whatever the order and the places of the edits. */
  lemma DistanceIsLeastEditCount(a: Text, b: Text)
    ensures Reaches(a, b, Distance(a, b))
    ensures forall n: nat | Reaches(a, b, n) :: Distance(a, b) <= n
  {
    ShortestChain(a, b);
    forall n: nat | Reaches(a, b, n) ensures Distance(a, b) <= n {
      var texts: seq<Text> :| Connects(texts, a, b) && |texts| == n + 1;
      NoShorterChain(texts);
    }
  }

  // --------------------------------------------------------------------------- similarity

  function Similarity(a: Text, b: Text): real {
    var width := Max(|a|, |b|);
    if width == 0 then 1.0 else 1.0 - Distance(a, b) as real / width as real
  }

  lemma Share(part: nat, whole: nat)
    requires part <= whole && whole > 0
    ensures 0.0 <= part as real / whole as real <= 1.0
    ensures part as real / whole as real == 0.0 <==> part == 0
  {
  }

  /** Similarity lies in [0, 1], ignores the order of the texts and is 1 exactly for equal texts;
      the clamp at 0 in the backend's copy therefore never acts. */
  lemma SimilarityIsAScore(a: Text, b: Text)
    ensures 0.0 <= Similarity(a, b) <= 1.0
    ensures Similarity(a, b) == 1.0 <==> a == b
    ensures Similarity(a, b) == Similarity(b, a)
  {
    hide Distance;
    LengthBounds(a, b);
    ZeroMeansEqual(a, b);
    Symmetric(a, b);
    var width := Max(|a|, |b|);
    if width != 0 {
      Share(Distance(a, b), width);
    }
  }

  method SimilarityInPlace(left: Text, right: Text) returns (score: real)
    ensures score == Similarity(left, right)
  {
    SimilarityIsAScore(left, right);
    var width := Max(|left|, |right|);
    if width == 0 {
      return 1.0;
    }
    var distance := EditDistanceInPlace(left, right);
    var raw := 1.0 - distance as real / width as real;
    score := if raw < 0.0 then 0.0 else raw;
  }
}
