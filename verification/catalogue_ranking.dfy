/** Item ranking (catalogue.py). */
module CatalogueRanking {
  // Unicode normalisation, accent stripping and the blank test are parameters; nothing below
  // depends on what they do.  Scores are exact reals.

  import opened EditDistance
  import opened Sorting
  import opened TextOrder

  datatype Result<+T> = Ok(value: T) | Err(error: Error)
  datatype Error = EmptyEntry(id: string) | Collision(previous: string, id: string) | BadConfidence

  datatype TextRules = TextRules(
    normalize: string -> string, stripAccents: string -> string, blank: string -> bool)

  datatype Item = Item(id: string, name: string, aliases: seq<string>)
  datatype Named = Named(item: Item, value: string)
  datatype Entry = Entry(key: string, item: Item, alias: string)

  datatype Hypothesis = Hypothesis(text: string, confidence: real)
  datatype Scored = Scored(item: Item, alias: string, score: real)
  datatype Match = Match(itemId: string, name: string, score: real, margin: real, alias: string, accepted: bool)

  datatype PolicyFields = PolicyFields(minimumScore: real, minimumMargin: real, limit: nat)

  // What the constructor of RankingPolicy admits.
  type Policy = p: PolicyFields |
      0.0 <= p.minimumScore <= 1.0 && 0.0 <= p.minimumMargin <= 1.0 && p.limit >= 1
    witness PolicyFields(0.0, 0.0, 1)

  const DEFAULT_POLICY: Policy := PolicyFields(0.82, 0.08, 5)

  // ------------------------------------------------------------------------------- the index

  function FindKey(entries: seq<Entry>, key: string): (k: nat)
    ensures k <= |entries|
    ensures k < |entries| ==> entries[k].key == key
    ensures forall i | 0 <= i < k :: entries[i].key != key
  {
    if entries == [] || entries[0].key == key then 0 else 1 + FindKey(entries[1..], key)
  }

  function AddEntry(rules: TextRules, entries: seq<Entry>, n: Named): Result<seq<Entry>> {
    var key := rules.normalize(n.value);
    var k := FindKey(entries, key);
    if key == "" then Err(EmptyEntry(n.item.id))
    else if k == |entries| then Ok(entries + [Entry(key, n.item, n.value)])
    else if entries[k].item.id != n.item.id then Err(Collision(entries[k].item.id, n.item.id))
    else Ok(entries[k := Entry(key, n.item, n.value)])
  }

  function AddAll(rules: TextRules, names: seq<Named>): Result<seq<Entry>> {
    if names == [] then Ok([])
    else
      match AddAll(rules, names[..|names| - 1])
      case Err(e) => Err(e)
      case Ok(entries) => AddEntry(rules, entries, names[|names| - 1])
  }

  function NamesOf(item: Item): seq<Named> {
    seq(1 + |item.aliases|, i requires 0 <= i <= |item.aliases| =>
      Named(item, if i == 0 then item.name else item.aliases[i - 1]))
  }

  function AllNames(items: seq<Item>): seq<Named> {
    if items == [] then [] else AllNames(items[..|items| - 1]) + NamesOf(items[|items| - 1])
  }

  /** The constructor of CatalogueIndex. */
  method BuildIndex(rules: TextRules, items: seq<Item>) returns (r: Result<seq<Entry>>)
    ensures r == AddAll(rules, AllNames(items))
  {
    hide AddAll, AllNames, AddEntry;
    var entries: seq<Entry> := [];
    NoNames(rules, items);
    for i := 0 to |items|
      invariant AddAll(rules, AllNames(items[..i])) == Ok(entries)
    {
      ghost var done := AllNames(items[..i]);
      var values := NamesOf(items[i]);
      assert done + values[..0] == done;
      for j := 0 to |values|
        invariant AddAll(rules, done + values[..j]) == Ok(entries)
      {
        NextName(rules, done + values[..j], values[j]);
        assert done + values[..j + 1] == done + values[..j] + [values[j]];
        var added := AddEntry(rules, entries, values[j]);
        if added.Err? {
          ErrorIsFinal(rules, items, i, j + 1);
          return Err(added.error);
        }
        entries := added.value;
      }
      assert values[..|values|] == values;
      NextItem(items, i);
    }
    assert items[..|items|] == items;
    return Ok(entries);
  }

  lemma NoNames(rules: TextRules, items: seq<Item>)
    ensures AddAll(rules, AllNames(items[..0])) == Ok([])
  {
  }

  lemma NextName(rules: TextRules, names: seq<Named>, n: Named)
    requires AddAll(rules, names).Ok?
    ensures AddAll(rules, names + [n]) == AddEntry(rules, AddAll(rules, names).value, n)
  {
  }

  lemma NextItem(items: seq<Item>, i: nat)
    requires i < |items|
    ensures AllNames(items[..i + 1]) == AllNames(items[..i]) + NamesOf(items[i])
  {
    assert items[..i + 1][..i] == items[..i];
  }

  lemma ErrorIsFinal(rules: TextRules, items: seq<Item>, i: nat, j: nat)
    requires i < |items| && j <= |NamesOf(items[i])|
    requires AddAll(rules, AllNames(items[..i]) + NamesOf(items[i])[..j]).Err?
    ensures AddAll(rules, AllNames(items)) == AddAll(rules, AllNames(items[..i]) + NamesOf(items[i])[..j])
  {
    var values, all := NamesOf(items[i]), AllNames(items);
    var now := AllNames(items[..i]) + values[..j];
    NextItem(items, i);
    AllNamesPrefix(items, i + 1);
    assert AllNames(items[..i]) + values == now + values[j..];
    assert now <= now + values[j..] <= all;
    assert all == now + all[|now|..];
    ErrorStays(rules, now, all[|now|..]);
  }

  lemma {:induction false} ErrorStays(rules: TextRules, names: seq<Named>, more: seq<Named>)
    requires AddAll(rules, names).Err?
    ensures AddAll(rules, names + more) == AddAll(rules, names)
    decreases |more|
  {
    if more == [] {
      assert names + more == names;
    } else {
      var n := |more| - 1;
      ErrorStays(rules, names, more[..n]);
      assert (names + more)[..|names| + n] == names + more[..n];
    }
  }

  lemma {:induction false} AllNamesPrefix(items: seq<Item>, k: nat)
    requires k <= |items|
    ensures AllNames(items[..k]) <= AllNames(items)
  {
    var n := |items| - 1;
    if k <= n {
      assert items[..n][..k] == items[..k];
      AllNamesPrefix(items[..n], k);
    } else {
      assert items[..k] == items;
    }
  }

  ghost predicate NoEmptyName(rules: TextRules, names: seq<Named>) {
    forall n | n in names :: rules.normalize(n.value) != ""
  }

  ghost predicate NoSharedName(rules: TextRules, names: seq<Named>) {
    forall n, m | n in names && m in names && rules.normalize(n.value) == rules.normalize(m.value) ::
      n.item.id == m.item.id
  }

  ghost predicate FromName(rules: TextRules, e: Entry, names: seq<Named>) {
    Named(e.item, e.alias) in names && e.key == rules.normalize(e.alias) && e.key != ""
  }

  ghost predicate HasEntry(rules: TextRules, n: Named, entries: seq<Entry>) {
    exists k :: 0 <= k < |entries| && entries[k].key == rules.normalize(n.value) && entries[k].item.id == n.item.id
  }

  ghost predicate Indexes(rules: TextRules, entries: seq<Entry>, names: seq<Named>) {
    && (forall i, j | 0 <= i < j < |entries| :: entries[i].key != entries[j].key)
    && (forall i | 0 <= i < |entries| :: FromName(rules, entries[i], names))
    && (forall n | n in names :: HasEntry(rules, n, entries))
  }

  lemma {:induction false} BuiltIndex(rules: TextRules, names: seq<Named>)
    requires AddAll(rules, names).Ok?
    ensures Indexes(rules, AddAll(rules, names).value, names)
  {
    if names != [] {
      var before, n := names[..|names| - 1], names[|names| - 1];
      BuiltIndex(rules, before);
      assert names == before + [n];
      AddedEntry(rules, AddAll(rules, before).value, before, n);
    }
  }

  lemma IndexedNamesAreClean(rules: TextRules, entries: seq<Entry>, names: seq<Named>)
    requires Indexes(rules, entries, names)
    ensures NoEmptyName(rules, names) && NoSharedName(rules, names)
  {
  }

  lemma {:induction false} CleanNamesAreAccepted(rules: TextRules, names: seq<Named>)
    requires NoEmptyName(rules, names) && NoSharedName(rules, names)
    ensures AddAll(rules, names).Ok?
  {
    if names != [] {
      var before, n := names[..|names| - 1], names[|names| - 1];
      assert names == before + [n];
      CleanNamesAreAccepted(rules, before);
      BuiltIndex(rules, before);
      var entries := AddAll(rules, before).value;
      var k := FindKey(entries, rules.normalize(n.value));
      if k < |entries| {
        assert FromName(rules, entries[k], before);
        assert Named(entries[k].item, entries[k].alias) in names && n in names;
      }
    }
  }

  /** A catalogue is accepted exactly when no name normalises to nothing and no two items share a
      normalised name; the index then holds each normalised name once, bound to its item. */
  lemma IndexAcceptedExactlyWhen(rules: TextRules, names: seq<Named>)
    ensures AddAll(rules, names).Ok? <==> NoEmptyName(rules, names) && NoSharedName(rules, names)
    ensures AddAll(rules, names).Ok? ==> Indexes(rules, AddAll(rules, names).value, names)
  {
    hide AddAll, Indexes, NoEmptyName, NoSharedName;
    if AddAll(rules, names).Ok? {
      BuiltIndex(rules, names);
      IndexedNamesAreClean(rules, AddAll(rules, names).value, names);
    } else if NoEmptyName(rules, names) && NoSharedName(rules, names) {
      CleanNamesAreAccepted(rules, names);
    }
  }

  lemma AddedEntry(rules: TextRules, entries: seq<Entry>, before: seq<Named>, n: Named)
    requires Indexes(rules, entries, before) && AddEntry(rules, entries, n).Ok?
    ensures Indexes(rules, AddEntry(rules, entries, n).value, before + [n])
  {
    PutKeepsIndex(rules, entries, before, n, FindKey(entries, rules.normalize(n.value)));
  }

  lemma PutKeepsIndex(rules: TextRules, entries: seq<Entry>, before: seq<Named>, n: Named, k: nat)
    requires Indexes(rules, entries, before) && rules.normalize(n.value) != "" && k <= |entries|
    requires forall i | 0 <= i < k :: entries[i].key != rules.normalize(n.value)
    requires k < |entries| ==> entries[k].key == rules.normalize(n.value) && entries[k].item.id == n.item.id
    ensures var e := Entry(rules.normalize(n.value), n.item, n.value);
            Indexes(rules, if k == |entries| then entries + [e] else entries[k := e], before + [n])
  {
    var e := Entry(rules.normalize(n.value), n.item, n.value);
    var after := if k == |entries| then entries + [e] else entries[k := e];
    forall i | 0 <= i < |after| ensures FromName(rules, after[i], before + [n]) {
      if i != k {
        assert FromName(rules, entries[i], before);
      }
    }
    forall m | m in before + [n] ensures HasEntry(rules, m, after) {
      if m in before {
        assert HasEntry(rules, m, entries);
        var i :| 0 <= i < |entries| && entries[i].key == rules.normalize(m.value) && entries[i].item.id == m.item.id;
        assert after[i].key == rules.normalize(m.value) && after[i].item.id == m.item.id;
      } else {
        assert after[k] == e;
      }
    }
  }

  // ------------------------------------------------------------------------------- the scores

  function MaxReal(a: real, b: real): real {
    if a >= b then a else b
  }

  function MatchScore(rules: TextRules, left: string, right: string): real {
    if left == right then 1.0
    else MaxReal(Similarity(left, right),
                 Similarity(rules.stripAccents(left), rules.stripAccents(right)) * 0.97)
  }

  /** A score lies in [0, 1] and is 1 for equal texts only. */
  lemma MatchScoreIsAScore(rules: TextRules, left: string, right: string)
    ensures 0.0 <= MatchScore(rules, left, right) <= 1.0
    ensures MatchScore(rules, left, right) == 1.0 <==> left == right
  {
    SimilarityIsAScore(left, right);
    SimilarityIsAScore(rules.stripAccents(left), rules.stripAccents(right));
  }

  function OfferOf(rules: TextRules, h: Hypothesis, e: Entry): Scored {
    Scored(e.item, e.alias, MatchScore(rules, rules.normalize(h.text), e.key) * h.confidence)
  }

  function Offers(rules: TextRules, entries: seq<Entry>, h: Hypothesis): seq<Scored> {
    if rules.normalize(h.text) == "" then []
    else seq(|entries|, i requires 0 <= i < |entries| => OfferOf(rules, h, entries[i]))
  }

  function AllOffers(rules: TextRules, entries: seq<Entry>, hs: seq<Hypothesis>): seq<Scored> {
    if hs == [] then []
    else AllOffers(rules, entries, hs[..|hs| - 1]) + Offers(rules, entries, hs[|hs| - 1])
  }

  function FindItem(scored: seq<Scored>, id: string): (k: nat)
    ensures k <= |scored|
    ensures k < |scored| ==> scored[k].item.id == id
    ensures forall i | 0 <= i < k :: scored[i].item.id != id
  {
    if scored == [] || scored[0].item.id == id then 0 else 1 + FindItem(scored[1..], id)
  }

  function Keep(scored: seq<Scored>, o: Scored): seq<Scored> {
    var k := FindItem(scored, o.item.id);
    if k == |scored| then scored + [o]
    else if o.score > scored[k].score then scored[k := o]
    else scored
  }

  function Best(offers: seq<Scored>): seq<Scored> {
    if offers == [] then [] else Keep(Best(offers[..|offers| - 1]), offers[|offers| - 1])
  }

  // ------------------------------------------------------------------------------ the ranking

  predicate InRank(a: Scored, b: Scored) {
    a.score > b.score || (a.score == b.score && !Less(b.item.id, a.item.id))
  }

  function MinNat(a: nat, b: nat): nat {
    if a <= b then a else b
  }

  function MatchAt(ordered: seq<Scored>, i: nat, policy: Policy): Match
    requires i < |ordered|
  {
    var margin := ordered[i].score - (if i + 1 < |ordered| then ordered[i + 1].score else 0.0);
    Match(ordered[i].item.id, ordered[i].item.name, ordered[i].score, margin, ordered[i].alias,
          i == 0 && ordered[i].score >= policy.minimumScore && margin >= policy.minimumMargin)
  }

  function Matches(ordered: seq<Scored>, policy: Policy): seq<Match> {
    seq(MinNat(|ordered|, policy.limit), i requires 0 <= i < |ordered| => MatchAt(ordered, i, policy))
  }

  function Observations(raw: string, hs: seq<Hypothesis>): seq<Hypothesis> {
    if hs == [] then [Hypothesis(raw, 1.0)] else hs
  }

  predicate ConfidencesOk(hs: seq<Hypothesis>) {
    forall h | h in hs :: 0.0 <= h.confidence <= 1.0
  }

  function Ranking(rules: TextRules, entries: seq<Entry>, raw: string, hs: seq<Hypothesis>, policy: Policy)
    : Result<seq<Match>>
  {
    if rules.blank(raw) && hs == [] then Ok([])
    else
      var observations := Observations(raw, hs);
      if !ConfidencesOk(observations) then Err(BadConfidence)
      else Ok(Matches(Sort(Best(AllOffers(rules, entries, observations)), InRank), policy))
  }

  method Rank(rules: TextRules, entries: seq<Entry>, raw: string, hs: seq<Hypothesis>, policy: Policy)
    returns (r: Result<seq<Match>>)
    ensures r == Ranking(rules, entries, raw, hs, policy)
  {
    if rules.blank(raw) && hs == [] {
      return Ok([]);
    }
    var scored := ScoreAll(rules, entries, Observations(raw, hs));
    if scored.Err? {
      return Err(scored.error);
    }
    var ordered := Sort(scored.value, InRank);
    var matches := Report(ordered, policy);
    return Ok(matches);
  }

  /** The outer loop of rank: every hypothesis in turn, stopping at a bad confidence. */
  method ScoreAll(rules: TextRules, entries: seq<Entry>, hs: seq<Hypothesis>) returns (r: Result<seq<Scored>>)
    ensures r == if ConfidencesOk(hs) then Ok(Best(AllOffers(rules, entries, hs))) else Err(BadConfidence)
  {
    hide AllOffers, Best, ConfidencesOk, Offers;
    var scored: seq<Scored> := [];
    NoOffers(rules, entries, hs);
    for i := 0 to |hs|
      invariant scored == Best(AllOffers(rules, entries, hs[..i]))
      invariant forall k | 0 <= k < i :: 0.0 <= hs[k].confidence <= 1.0
    {
      var h := hs[i];
      if !(0.0 <= h.confidence <= 1.0) {
        NotAScore(hs, i);
        return Err(BadConfidence);
      }
      ghost var done := AllOffers(rules, entries, hs[..i]);
      NextHypothesis(rules, entries, hs, i);
      scored := Consider(rules, entries, h, scored, done);
    }
    assert hs[..|hs|] == hs;
    AllScores(hs);
    return Ok(scored);
  }

  /** The inner loop of rank: one hypothesis against every entry. */
  method Consider(rules: TextRules, entries: seq<Entry>, h: Hypothesis, scored: seq<Scored>, ghost done: seq<Scored>)
    returns (updated: seq<Scored>)
    requires scored == Best(done)
    ensures updated == Best(done + Offers(rules, entries, h))
  {
    hide Best, MatchScore;
    updated := scored;
    ghost var mine := Offers(rules, entries, h);
    var hypothesis := rules.normalize(h.text);
    assert done + mine[..0] == done;
    if hypothesis == "" {
      return;
    }
    for j := 0 to |entries|
      invariant updated == Best(done + mine[..j])
    {
      NextOffer(done + mine[..j], mine[j]);
      assert done + mine[..j + 1] == done + mine[..j] + [mine[j]];
      var offer := Scored(entries[j].item, entries[j].alias, MatchScore(rules, hypothesis, entries[j].key) * h.confidence);
      assert offer == mine[j];
      var k := FindItem(updated, offer.item.id);
      if k == |updated| {
        updated := updated + [offer];
      } else if offer.score > updated[k].score {
        updated := updated[k := offer];
      }
    }
    assert mine[..|entries|] == mine;
  }

  method Report(ordered: seq<Scored>, policy: Policy) returns (matches: seq<Match>)
    ensures matches == Matches(ordered, policy)
  {
    matches := [];
    for index := 0 to MinNat(|ordered|, policy.limit)
      invariant |matches| == index
      invariant forall i | 0 <= i < index :: matches[i] == MatchAt(ordered, i, policy)
    {
      var runnerUp := if index + 1 < |ordered| then ordered[index + 1].score else 0.0;
      var margin := ordered[index].score - runnerUp;
      matches := matches + [Match(ordered[index].item.id, ordered[index].item.name, ordered[index].score, margin,
                                  ordered[index].alias,
                                  index == 0 && ordered[index].score >= policy.minimumScore
                                  && margin >= policy.minimumMargin)];
    }
  }

  lemma NotAScore(hs: seq<Hypothesis>, i: nat)
    requires i < |hs| && !(0.0 <= hs[i].confidence <= 1.0)
    ensures !ConfidencesOk(hs)
  {
  }

  lemma AllScores(hs: seq<Hypothesis>)
    requires forall k | 0 <= k < |hs| :: 0.0 <= hs[k].confidence <= 1.0
    ensures ConfidencesOk(hs)
  {
  }

  lemma NoOffers(rules: TextRules, entries: seq<Entry>, hs: seq<Hypothesis>)
    ensures Best(AllOffers(rules, entries, hs[..0])) == []
  {
  }

  lemma NextHypothesis(rules: TextRules, entries: seq<Entry>, hs: seq<Hypothesis>, i: nat)
    requires i < |hs|
    ensures AllOffers(rules, entries, hs[..i + 1]) == AllOffers(rules, entries, hs[..i]) + Offers(rules, entries, hs[i])
  {
    assert hs[..i + 1][..i] == hs[..i];
  }

  lemma NextOffer(offers: seq<Scored>, o: Scored)
    ensures Best(offers + [o]) == Keep(Best(offers), o)
  {
  }

  // -------------------------------------------------------------------------------- properties

  ghost predicate Offered(rules: TextRules, entries: seq<Entry>, hs: seq<Hypothesis>, o: Scored) {
    exists h, e :: h in hs && e in entries && rules.normalize(h.text) != "" && o == OfferOf(rules, h, e)
  }

  lemma {:induction false} OffersAreThePairs(rules: TextRules, entries: seq<Entry>, hs: seq<Hypothesis>, o: Scored)
    ensures o in AllOffers(rules, entries, hs) <==> Offered(rules, entries, hs, o)
  {
    if hs != [] {
      var before, last := hs[..|hs| - 1], hs[|hs| - 1];
      OffersAreThePairs(rules, entries, before, o);
      assert hs == before + [last];
      if o in Offers(rules, entries, last) {
        var i :| 0 <= i < |entries| && o == OfferOf(rules, last, entries[i]);
        assert entries[i] in entries;
      }
      if e :| rules.normalize(last.text) != "" && e in entries && o == OfferOf(rules, last, e) {
        var i :| 0 <= i < |entries| && entries[i] == e;
        assert Offers(rules, entries, last)[i] == o;
      }
    }
  }

  ghost predicate Dominated(o: Scored, scored: seq<Scored>) {
    exists k :: 0 <= k < |scored| && scored[k].item.id == o.item.id && o.score <= scored[k].score
  }

  ghost predicate DistinctItems(scored: seq<Scored>) {
    forall i, j | 0 <= i < j < |scored| :: scored[i].item.id != scored[j].item.id
  }

  lemma KeepDominates(scored: seq<Scored>, o: Scored)
    requires DistinctItems(scored)
    ensures DistinctItems(Keep(scored, o))
    ensures forall s | s in Keep(scored, o) :: s == o || s in scored
    ensures Dominated(o, Keep(scored, o))
    ensures forall p | Dominated(p, scored) :: Dominated(p, Keep(scored, o))
  {
    var after := Keep(scored, o);
    var k := FindItem(scored, o.item.id);
    assert after[k].item.id == o.item.id && o.score <= after[k].score;
    forall p | Dominated(p, scored) ensures Dominated(p, after) {
      var i :| 0 <= i < |scored| && scored[i].item.id == p.item.id && p.score <= scored[i].score;
      assert after[i].item.id == p.item.id && p.score <= after[i].score;
    }
  }

  lemma {:induction false} BestIsMaximum(offers: seq<Scored>)
    ensures DistinctItems(Best(offers))
    ensures forall s | s in Best(offers) :: s in offers
    ensures forall o | o in offers :: Dominated(o, Best(offers))
  {
    if offers != [] {
      var before, last := offers[..|offers| - 1], offers[|offers| - 1];
      BestIsMaximum(before);
      KeepDominates(Best(before), last);
      assert offers == before + [last];
    }
  }

  lemma InRankIsTotal()
    ensures TotalPreorder(InRank)
  {
    forall a, b ensures InRank(a, b) || InRank(b, a) {
      LessIsStrictTotal(a.item.id, b.item.id);
    }
    forall a, b, c | InRank(a, b) && InRank(b, c) ensures InRank(a, c) {
      if a.score == b.score == c.score {
        LessIsTransitive(a.item.id, b.item.id, c.item.id);
      }
    }
  }

  ghost predicate IsRanked(rules: TextRules, entries: seq<Entry>, hs: seq<Hypothesis>, ordered: seq<Scored>) {
    && DistinctItems(ordered)
    && Ordered(ordered, InRank)
    && (forall s | s in ordered :: Offered(rules, entries, hs, s))
    && (forall o | Offered(rules, entries, hs, o) :: Dominated(o, ordered))
  }

  lemma {:induction false} InsertKeepsDistinct(x: Scored, xs: seq<Scored>)
    requires DistinctItems(xs) && forall y | y in xs :: y.item.id != x.item.id
    ensures DistinctItems(Insert(x, xs, InRank))
    ensures forall y | y in Insert(x, xs, InRank) :: y == x || y in xs
  {
    if xs != [] && !InRank(x, xs[0]) {
      InsertKeepsDistinct(x, xs[1..]);
      var rest := Insert(x, xs[1..], InRank);
      forall j | 0 <= j < |rest| ensures rest[j].item.id != xs[0].item.id {
        assert rest[j] in rest;
        if rest[j] in xs[1..] {
          var q :| 0 <= q < |xs[1..]| && xs[1..][q] == rest[j];
        }
      }
    }
  }

  lemma {:induction false} SortKeepsDistinct(xs: seq<Scored>)
    requires DistinctItems(xs)
    ensures DistinctItems(Sort(xs, InRank))
    ensures forall y | y in Sort(xs, InRank) :: y in xs
  {
    if xs != [] {
      SortKeepsDistinct(xs[1..]);
      InsertKeepsDistinct(xs[0], Sort(xs[1..], InRank));
    }
  }

  lemma OrderedIsRanked(rules: TextRules, entries: seq<Entry>, hs: seq<Hypothesis>)
    ensures IsRanked(rules, entries, hs, Sort(Best(AllOffers(rules, entries, hs)), InRank))
  {
    var offers := AllOffers(rules, entries, hs);
    var best := Best(offers);
    var ordered := Sort(best, InRank);
    BestIsMaximum(offers);
    InRankIsTotal();
    SortIsOrderedPermutation(best, InRank);
    SortKeepsDistinct(best);
    hide AllOffers, Best, Sort, InRank, Offered, Dominated, DistinctItems, Ordered;
    forall s | s in ordered ensures Offered(rules, entries, hs, s) {
      assert s in best;
      OffersAreThePairs(rules, entries, hs, s);
    }
    forall o | Offered(rules, entries, hs, o) ensures Dominated(o, ordered) {
      OffersAreThePairs(rules, entries, hs, o);
      assert Dominated(o, best);
      DominatedStays(o, best, ordered);
    }
  }

  lemma DominatedStays(o: Scored, best: seq<Scored>, ordered: seq<Scored>)
    requires Dominated(o, best) && multiset(best) == multiset(ordered)
    ensures Dominated(o, ordered)
  {
    var k :| 0 <= k < |best| && best[k].item.id == o.item.id && o.score <= best[k].score;
    assert best[k] in multiset(ordered);
    var i :| 0 <= i < |ordered| && ordered[i] == best[k];
  }

  /** Strict order: higher score first, then the smaller id. */
  predicate Ahead(a: Match, b: Match) {
    a.score > b.score || (a.score == b.score && Less(a.itemId, b.itemId))
  }

  ghost predicate Represents(m: Match, o: Scored) {
    m.itemId == o.item.id && m.name == o.item.name && m.alias == o.alias && m.score == o.score
  }

  /** The match carries one of its item's offers, and none of them scores higher. */
  ghost predicate BestOfItem(rules: TextRules, entries: seq<Entry>, hs: seq<Hypothesis>, m: Match) {
    && (exists o :: Offered(rules, entries, hs, o) && Represents(m, o))
    && (forall o | Offered(rules, entries, hs, o) && o.item.id == m.itemId :: o.score <= m.score)
  }

  lemma MatchIsBest(rules: TextRules, entries: seq<Entry>, hs: seq<Hypothesis>, ordered: seq<Scored>, policy: Policy, i: nat)
    requires IsRanked(rules, entries, hs, ordered) && i < |Matches(ordered, policy)|
    ensures BestOfItem(rules, entries, hs, Matches(ordered, policy)[i])
  {
    hide Offered;
    var m := Matches(ordered, policy)[i];
    assert Offered(rules, entries, hs, ordered[i]) && Represents(m, ordered[i]);
    forall o | Offered(rules, entries, hs, o) && o.item.id == m.itemId ensures o.score <= m.score {
      assert Dominated(o, ordered);
    }
  }

  lemma StrictOrder(ordered: seq<Scored>, policy: Policy, i: nat, j: nat)
    requires DistinctItems(ordered) && Ordered(ordered, InRank) && i < j < |Matches(ordered, policy)|
    ensures Ahead(Matches(ordered, policy)[i], Matches(ordered, policy)[j])
    ensures Matches(ordered, policy)[i].itemId != Matches(ordered, policy)[j].itemId
  {
    LessIsStrictTotal(ordered[i].item.id, ordered[j].item.id);
  }

  /** Where an offer ends up: under its item's match, or behind a full list. */
  ghost predicate Placed(o: Scored, ms: seq<Match>, policy: Policy) {
    || (exists i :: 0 <= i < |ms| && ms[i].itemId == o.item.id && o.score <= ms[i].score)
    || (|ms| == policy.limit && forall i | 0 <= i < |ms| :: o.score <= ms[i].score)
  }

  lemma OfferIsPlaced(ordered: seq<Scored>, policy: Policy, o: Scored)
    requires DistinctItems(ordered) && Ordered(ordered, InRank) && Dominated(o, ordered)
    ensures Placed(o, Matches(ordered, policy), policy)
  {
    var ms := Matches(ordered, policy);
    var k :| 0 <= k < |ordered| && ordered[k].item.id == o.item.id && o.score <= ordered[k].score;
    if k < |ms| {
      assert ms[k].itemId == o.item.id && o.score <= ms[k].score;
    } else {
      forall i | 0 <= i < |ms| ensures o.score <= ms[i].score {
        assert InRank(ordered[i], ordered[k]);
      }
    }
  }

  /** The matches come in strict (descending score, id) order, so no item repeats; each carries
      the best score its item got from any hypothesis and any name, with the name that earned it;
      and an item left out lost to every match while the limit was reached. */
  lemma RankIsSound(rules: TextRules, entries: seq<Entry>, raw: string, hs: seq<Hypothesis>, policy: Policy)
    requires Ranking(rules, entries, raw, hs, policy).Ok? && !(rules.blank(raw) && hs == [])
    ensures var ms := Ranking(rules, entries, raw, hs, policy).value;
            var observations := Observations(raw, hs);
            && |ms| <= policy.limit
            && (forall i, j | 0 <= i < j < |ms| :: Ahead(ms[i], ms[j]) && ms[i].itemId != ms[j].itemId)
            && (forall i | 0 <= i < |ms| :: BestOfItem(rules, entries, observations, ms[i]))
            && (forall o | Offered(rules, entries, observations, o) :: Placed(o, ms, policy))
  {
    var observations := Observations(raw, hs);
    var ordered := Sort(Best(AllOffers(rules, entries, observations)), InRank);
    var ms := Matches(ordered, policy);
    OrderedIsRanked(rules, entries, observations);
    hide AllOffers, Best, Sort, Offered, InRank, Placed, Ahead, BestOfItem;
    forall i, j | 0 <= i < j < |ms| ensures Ahead(ms[i], ms[j]) && ms[i].itemId != ms[j].itemId {
      StrictOrder(ordered, policy, i, j);
    }
    forall i | 0 <= i < |ms| ensures BestOfItem(rules, entries, observations, ms[i]) {
      MatchIsBest(rules, entries, observations, ordered, policy, i);
    }
    forall o | Offered(rules, entries, observations, o)
      ensures Placed(o, ms, policy) {
      OfferIsPlaced(ordered, policy, o);
    }
  }

  /** A match is accepted exactly when it is the first, reaches the minimum score, and beats zero
      and every name of every other item, the ones cut off by the limit included, by the minimum
      margin.  At most one match is accepted. */
  lemma AcceptedExactlyWhen(rules: TextRules, entries: seq<Entry>, raw: string, hs: seq<Hypothesis>, policy: Policy, i: nat)
    requires Ranking(rules, entries, raw, hs, policy).Ok? && !(rules.blank(raw) && hs == [])
    requires i < |Ranking(rules, entries, raw, hs, policy).value|
    ensures var ms := Ranking(rules, entries, raw, hs, policy).value;
            ms[i].accepted <==>
              && i == 0
              && ms[0].score >= policy.minimumScore
              && ms[0].score >= policy.minimumMargin
              && (forall o | Offered(rules, entries, Observations(raw, hs), o) && o.item.id != ms[0].itemId ::
                    ms[0].score - o.score >= policy.minimumMargin)
  {
    var observations := Observations(raw, hs);
    var ordered := Sort(Best(AllOffers(rules, entries, observations)), InRank);
    OrderedIsRanked(rules, entries, observations);
    if |ordered| > 1 {
      assert Offered(rules, entries, observations, ordered[1]);
      assert ordered[0].item.id != ordered[1].item.id;
      OfferedIsAScore(rules, entries, observations, ordered[1]);
    }
    forall o | Offered(rules, entries, observations, o) && o.item.id != ordered[0].item.id
      ensures |ordered| > 1 && o.score <= ordered[1].score {
      assert Dominated(o, ordered);
      var k :| 0 <= k < |ordered| && ordered[k].item.id == o.item.id && o.score <= ordered[k].score;
      if k > 1 {
        assert InRank(ordered[1], ordered[k]);
      }
    }
  }

  ghost predicate CertainExact(rules: TextRules, h: Hypothesis, e: Entry) {
    h.confidence == 1.0 && rules.normalize(h.text) == e.key
  }

  lemma OfferIsAScore(rules: TextRules, h: Hypothesis, e: Entry)
    requires 0.0 <= h.confidence <= 1.0
    ensures 0.0 <= OfferOf(rules, h, e).score <= 1.0
    ensures OfferOf(rules, h, e).score == 1.0 <==> CertainExact(rules, h, e)
  {
    MatchScoreIsAScore(rules, rules.normalize(h.text), e.key);
    ProductIsAScore(MatchScore(rules, rules.normalize(h.text), e.key), h.confidence);
  }

  lemma OfferedIsAScore(rules: TextRules, entries: seq<Entry>, hs: seq<Hypothesis>, o: Scored)
    requires Offered(rules, entries, hs, o) && ConfidencesOk(hs)
    ensures 0.0 <= o.score <= 1.0
    ensures exists e :: e in entries && e.item == o.item
  {
    var h, e :| h in hs && e in entries && rules.normalize(h.text) != "" && o == OfferOf(rules, h, e);
    OfferIsAScore(rules, h, e);
  }

  lemma ProductIsAScore(a: real, b: real)
    requires 0.0 <= a <= 1.0 && 0.0 <= b <= 1.0
    ensures 0.0 <= a * b <= 1.0
    ensures a * b == 1.0 <==> a == 1.0 && b == 1.0
  {
    assert a * b <= b && a * b <= a;
  }

  /** Every score handed on is in [0, 1] and belongs to an item of the catalogue. */
  lemma ScoresAreScores(rules: TextRules, entries: seq<Entry>, raw: string, hs: seq<Hypothesis>, policy: Policy)
    requires Ranking(rules, entries, raw, hs, policy).Ok?
    ensures forall m | m in Ranking(rules, entries, raw, hs, policy).value ::
              && 0.0 <= m.score <= 1.0
              && (exists e :: e in entries && e.item.id == m.itemId && e.item.name == m.name)
  {
    if !(rules.blank(raw) && hs == []) {
      var observations := Observations(raw, hs);
      var ordered := Sort(Best(AllOffers(rules, entries, observations)), InRank);
      OrderedIsRanked(rules, entries, observations);
      var ms := Matches(ordered, policy);
      forall m | m in ms
        ensures 0.0 <= m.score <= 1.0
        ensures exists e :: e in entries && e.item.id == m.itemId && e.item.name == m.name {
        var i :| 0 <= i < |ms| && ms[i] == m;
        assert Offered(rules, entries, observations, ordered[i]);
        OfferedIsAScore(rules, entries, observations, ordered[i]);
      }
    }
  }
}
