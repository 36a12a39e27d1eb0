/** What a ranking scores (catalogue.py). */
module RankingEffects {
  // The values behind the ranking, in terms of least edit counts, accents and confidences.

  import opened EditDistance
  import opened Sorting
  import opened CatalogueRanking

  /** One minus the least number of edits over the length of the longer text. */
  lemma SimilarityCountsEdits(a: Text, b: Text, edits: nat)
    requires a != b && Reaches(a, b, edits) && forall n: nat | Reaches(a, b, n) :: edits <= n
    ensures var width := if |a| >= |b| then |a| else |b|;
            width > 0 && Similarity(a, b) == 1.0 - edits as real / width as real
  {
    DistanceIsLeastEditCount(a, b);
  }

  /** Equal texts score 1; others the better of their similarity and 97 hundredths of the
      similarity without accents, and so at least 0.97 if only accents differ. */
  lemma MatchScoreIs(rules: TextRules, left: string, right: string)
    ensures left == right ==> MatchScore(rules, left, right) == 1.0
    ensures left != right ==>
              var plain, bare := Similarity(left, right), 0.97 * Similarity(rules.stripAccents(left), rules.stripAccents(right));
              && MatchScore(rules, left, right) >= plain && MatchScore(rules, left, right) >= bare
              && (MatchScore(rules, left, right) == plain || MatchScore(rules, left, right) == bare)
    ensures rules.stripAccents(left) == rules.stripAccents(right) ==> MatchScore(rules, left, right) >= 0.97
  {
    SimilarityIsAScore(rules.stripAccents(left), rules.stripAccents(right));
    hide Similarity;
  }

  /** What one hypothesis earns at one name. */
  function Earned(rules: TextRules, h: Hypothesis, e: Entry): real {
    h.confidence * MatchScore(rules, rules.normalize(h.text), e.key)
  }

  /** The readings that count: those of the recogniser, or the raw text for certain. */
  ghost predicate Counted(rules: TextRules, raw: string, hs: seq<Hypothesis>, h: Hypothesis) {
    (if hs == [] then h == Hypothesis(raw, 1.0) else h in hs) && rules.normalize(h.text) != ""
  }

  lemma CountedIs(rules: TextRules, raw: string, hs: seq<Hypothesis>, h: Hypothesis)
    ensures Counted(rules, raw, hs, h) <==> h in Observations(raw, hs) && rules.normalize(h.text) != ""
  {
  }

  ghost predicate EarnedBy(rules: TextRules, entries: seq<Entry>, raw: string, hs: seq<Hypothesis>, m: Match, h: Hypothesis, e: Entry) {
    && Counted(rules, raw, hs, h) && e in entries
    && m.itemId == e.item.id && m.name == e.item.name && m.alias == e.alias && m.score == Earned(rules, h, e)
  }

  /** A ranking is refused exactly on a confidence outside [0, 1], and empty for a blank text without
      hypotheses.  Otherwise every match carries the name at which some reading earned its score, and
      no reading earned more at any name of its item. */
  lemma RankedScores(rules: TextRules, entries: seq<Entry>, raw: string, hs: seq<Hypothesis>, policy: Policy)
    ensures Ranking(rules, entries, raw, hs, policy).Err? <==> exists h :: h in hs && !(0.0 <= h.confidence <= 1.0)
    ensures rules.blank(raw) && hs == [] ==> Ranking(rules, entries, raw, hs, policy) == Ok([])
    ensures Ranking(rules, entries, raw, hs, policy).Ok? && !(rules.blank(raw) && hs == []) ==>
              forall m | m in Ranking(rules, entries, raw, hs, policy).value ::
                && (exists h, e :: EarnedBy(rules, entries, raw, hs, m, h, e))
                && (forall h, e | Counted(rules, raw, hs, h) && e in entries && e.item.id == m.itemId ::
                      Earned(rules, h, e) <= m.score)
  {
    if Ranking(rules, entries, raw, hs, policy).Ok? && !(rules.blank(raw) && hs == []) {
      var ms := Ranking(rules, entries, raw, hs, policy).value;
      RankIsSound(rules, entries, raw, hs, policy);
      hide Ranking, MatchScore, Placed, Ahead;
      forall m | m in ms
        ensures exists h, e :: EarnedBy(rules, entries, raw, hs, m, h, e)
        ensures forall h, e | Counted(rules, raw, hs, h) && e in entries && e.item.id == m.itemId ::
                  Earned(rules, h, e) <= m.score {
        var i :| 0 <= i < |ms| && ms[i] == m;
        BestIsEarned(rules, entries, raw, hs, m);
      }
    }
  }

  lemma BestIsEarned(rules: TextRules, entries: seq<Entry>, raw: string, hs: seq<Hypothesis>, m: Match)
    requires BestOfItem(rules, entries, Observations(raw, hs), m)
    ensures exists h, e :: EarnedBy(rules, entries, raw, hs, m, h, e)
    ensures forall h, e | Counted(rules, raw, hs, h) && e in entries && e.item.id == m.itemId :: Earned(rules, h, e) <= m.score
  {
    hide MatchScore;
    var observations := Observations(raw, hs);
    var o :| Offered(rules, entries, observations, o) && Represents(m, o);
    var h, e :| h in observations && e in entries && rules.normalize(h.text) != "" && o == OfferOf(rules, h, e);
    CountedIs(rules, raw, hs, h);
    assert EarnedBy(rules, entries, raw, hs, m, h, e);
    forall h, e | Counted(rules, raw, hs, h) && e in entries && e.item.id == m.itemId ensures Earned(rules, h, e) <= m.score {
      CountedIs(rules, raw, hs, h);
      assert Offered(rules, entries, observations, OfferOf(rules, h, e));
    }
  }

  /** The margin of a match is its lead over the next; that of the last of a short list its score. */
  lemma MarginsAre(rules: TextRules, entries: seq<Entry>, raw: string, hs: seq<Hypothesis>, policy: Policy, i: nat)
    requires Ranking(rules, entries, raw, hs, policy).Ok? && i < |Ranking(rules, entries, raw, hs, policy).value|
    ensures var ms := Ranking(rules, entries, raw, hs, policy).value;
            && (i + 1 < |ms| ==> ms[i].margin == ms[i].score - ms[i + 1].score)
            && (i + 1 == |ms| < policy.limit ==> ms[i].margin == ms[i].score)
  {
    hide AllOffers, Best, Sort;
  }

  // -------------------------------------------------------------------------------- the index

  /** What adding one name to an index may do: it takes its key, from an earlier name of the same item
      if need be, and leaves every other entry; it is refused if it normalises to nothing or another
      item has the key. */
  ghost predicate NameAdded(before: seq<Entry>, key: string, n: Named, r: Result<seq<Entry>>) {
    match r
    case Ok(after) =>
      && key != "" && (forall e | e in before && e.key == key :: e.item.id == n.item.id)
      && (forall e :: e in after <==> e == Entry(key, n.item, n.value) || (e in before && e.key != key))
    case Err(EmptyEntry(id)) => key == "" && id == n.item.id
    case Err(Collision(previous, id)) =>
      key != "" && id == n.item.id != previous && exists e :: e in before && e.key == key && e.item.id == previous
    case Err(BadConfidence) => false
  }

  lemma NextNameIndexed(rules: TextRules, names: seq<Named>, n: Named)
    requires AddAll(rules, names).Ok?
    ensures NameAdded(AddAll(rules, names).value, rules.normalize(n.value), n, AddAll(rules, names + [n]))
  {
    NextName(rules, names, n);
    KeysDiffer(rules, names);
    hide *;
    EntryAdded(rules, AddAll(rules, names).value, n);
  }

  ghost predicate DistinctKeys(entries: seq<Entry>) {
    forall i, j | 0 <= i < j < |entries| :: entries[i].key != entries[j].key
  }

  lemma KeysDiffer(rules: TextRules, names: seq<Named>)
    requires AddAll(rules, names).Ok?
    ensures DistinctKeys(AddAll(rules, names).value)
  {
    BuiltIndex(rules, names);
    hide AddAll, FromName, HasEntry;
  }

  lemma EntryAdded(rules: TextRules, before: seq<Entry>, n: Named)
    requires DistinctKeys(before)
    ensures NameAdded(before, rules.normalize(n.value), n, AddEntry(rules, before, n))
  {
    var key := rules.normalize(n.value);
    var k := FindKey(before, key);
    if k < |before| {
      assert before[k] in before;
      hide FindKey;
      forall e | e in before && e.key == key ensures e == before[k] {
        var i :| 0 <= i < |before| && before[i] == e;
      }
      ReplacedOne(before, k, Entry(key, n.item, n.value));
    }
  }

  lemma ReplacedOne(entries: seq<Entry>, k: nat, e: Entry)
    requires k < |entries| && entries[k].key == e.key
    requires DistinctKeys(entries)
    ensures forall x :: x in entries[k := e] <==> x == e || (x in entries && x.key != e.key)
  {
    forall x ensures x in entries[k := e] <==> x == e || (x in entries && x.key != e.key) {
      if x in entries && x.key != e.key {
        var i :| 0 <= i < |entries| && entries[i] == x;
        assert entries[k := e][i] == x;
      }
      if x in entries[k := e] && x != e {
        var i :| 0 <= i < |entries| && entries[k := e][i] == x;
        assert i != k && entries[i] == x;
      }
      assert entries[k := e][k] == e;
    }
  }
}
