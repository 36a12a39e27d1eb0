/** Ranking prisoners. */
module IdentityMatching {
  // The prisoners of one cell against handwritten evidence (prisoner-identity-matcher.ts).  Text
  // normalisation, the blank test and the locale comparison that breaks ties are parameters.

  import opened EditDistance
  import opened Sorting

  datatype Option<+T> = None | Some(value: T)

  datatype Field = Field(recognized: bool, raw: string)
  datatype Evidence = Evidence(name: Option<Field>, cell: Option<Field>, prisonerId: Option<Field>)
  datatype Candidate = Candidate(userId: string, legacyId: string, name: string)

  datatype Reason =
    | CellExact | NameExact | NameSimilar | NameMismatch | IdExact | IdConflict | OptionalIdAbsent
  datatype Flag = RequiredFieldUnusable | CellCollision | OptionalIdConflict

  datatype Ranked = Ranked(candidate: Candidate, score: int, reasons: seq<Reason>)
  datatype Outcome = Outcome(candidates: seq<Ranked>, usable: bool, flags: seq<Flag>)

  datatype Rules = Rules(
    normalize: string -> string, blank: string -> bool, tieBreak: (Candidate, Candidate) -> bool)

  function RawText(f: Option<Field>): string {
    if f.Some? then f.value.raw else ""
  }

  predicate Usable(rules: Rules, f: Option<Field>) {
    f.Some? && f.value.recognized && !rules.blank(f.value.raw)
  }

  predicate RequiredUsable(rules: Rules, e: Evidence) {
    Usable(rules, e.name) && Usable(rules, e.cell)
  }

  // Math.round of a non-negative number.
  function Round(x: real): int {
    (x + 0.5).Floor
  }

  function NameReason(rules: Rules, e: Evidence, c: Candidate): Reason {
    var wanted, known := rules.normalize(RawText(e.name)), rules.normalize(c.name);
    if wanted == known then NameExact else if Similarity(wanted, known) >= 0.5 then NameSimilar else NameMismatch
  }

  function IdReason(rules: Rules, e: Evidence, c: Candidate): Reason {
    var wanted := rules.normalize(RawText(e.prisonerId));
    if e.prisonerId.Some? && e.prisonerId.value.recognized && wanted != ""
    then if rules.normalize(c.legacyId) == wanted then IdExact else IdConflict
    else OptionalIdAbsent
  }

  function Points(rules: Rules, e: Evidence, c: Candidate, r: Reason): int {
    match r
    case CellExact => 100
    case NameExact => 40
    case NameSimilar => Round(Similarity(rules.normalize(RawText(e.name)), rules.normalize(c.name)) * 30.0)
    case NameMismatch => 0
    case IdExact => 50
    case IdConflict => -50
    case OptionalIdAbsent => 0
  }

  function Rating(rules: Rules, e: Evidence, c: Candidate): Ranked {
    var byName, byId := NameReason(rules, e, c), IdReason(rules, e, c);
    Ranked(c, 100 + Points(rules, e, c, byName) + Points(rules, e, c, byId), [CellExact, byName, byId])
  }

  predicate InOrder(rules: Rules, a: Ranked, b: Ranked) {
    a.score > b.score || (a.score == b.score && rules.tieBreak(a.candidate, b.candidate))
  }

  function Order(rules: Rules): (Ranked, Ranked) -> bool {
    (a, b) => InOrder(rules, a, b)
  }

  function Ratings(rules: Rules, e: Evidence, cs: seq<Candidate>): seq<Ranked> {
    if RequiredUsable(rules, e)
    then seq(|cs|, i requires 0 <= i < |cs| => Rating(rules, e, cs[i]))
    else []
  }

  function Bound(n: nat, limit: int): nat {
    var wanted := Max(0, Min(limit, 10));
    Min(n, wanted)
  }

  function Shortlist(rules: Rules, e: Evidence, cs: seq<Candidate>, limit: int): (r: seq<Ranked>)
    ensures |r| <= 10
  {
    var ordered := Sort(Ratings(rules, e, cs), Order(rules));
    ordered[..Bound(|ordered|, limit)]
  }

  // ------------------------------------------------------------------------------ the program

  method Rate(rules: Rules, e: Evidence, c: Candidate) returns (r: Ranked)
    ensures r == Rating(rules, e, c)
  {
    var reasons, score := [CellExact], 100;
    var wantedName, wantedId := rules.normalize(RawText(e.name)), rules.normalize(RawText(e.prisonerId));
    var candidateName := rules.normalize(c.name);
    var nameSimilarity := SimilarityInPlace(wantedName, candidateName);
    if wantedName == candidateName {
      score := score + 40;
      reasons := reasons + [NameExact];
    } else if nameSimilarity >= 0.5 {
      score := score + Round(nameSimilarity * 30.0);
      reasons := reasons + [NameSimilar];
    } else {
      reasons := reasons + [NameMismatch];
    }
    if e.prisonerId.Some? && e.prisonerId.value.recognized && wantedId != "" {
      if rules.normalize(c.legacyId) == wantedId {
        score := score + 50;
        reasons := reasons + [IdExact];
      } else {
        score := score - 50;
        reasons := reasons + [IdConflict];
      }
    } else {
      reasons := reasons + [OptionalIdAbsent];
    }
    r := Ranked(c, score, reasons);
  }

  method RankPrisonerCandidates(rules: Rules, e: Evidence, cs: seq<Candidate>, limit: int) returns (r: Outcome)
    ensures r.candidates == Shortlist(rules, e, cs, limit)
    ensures r.usable == RequiredUsable(rules, e)
    ensures RequiredFieldUnusable in r.flags <==> !r.usable
    ensures CellCollision in r.flags <==> |cs| > 1
    ensures OptionalIdConflict in r.flags <==> exists i | 0 <= i < |r.candidates| :: IdConflict in r.candidates[i].reasons
  {
    var flags: seq<Flag> := [];
    var usable := RequiredUsable(rules, e);
    if !usable {
      flags := flags + [RequiredFieldUnusable];
    }
    var ranked: seq<Ranked> := [];
    if usable {
      for i := 0 to |cs|
        invariant |ranked| == i
        invariant forall k | 0 <= k < i :: ranked[k] == Rating(rules, e, cs[k])
      {
        var rated := Rate(rules, e, cs[i]);
        ranked := ranked + [rated];
      }
    }
    assert ranked == Ratings(rules, e, cs);
    ranked := Sort(ranked, Order(rules));
    var bounded := ranked[..Bound(|ranked|, limit)];
    if |cs| > 1 {
      flags := flags + [CellCollision];
    }
    if exists i | 0 <= i < |bounded| :: IdConflict in bounded[i].reasons {
      flags := flags + [OptionalIdConflict];
    }
    r := Outcome(bounded, usable, flags);
  }

  // ------------------------------------------------------------------------------- properties

  function NameTier(r: Reason): int {
    if r == NameExact then 2 else if r == NameSimilar then 1 else 0
  }

  function IdTier(r: Reason): int {
    if r == IdExact then 2 else if r == IdConflict then 0 else 1
  }

  lemma SimilarPoints(rules: Rules, e: Evidence, c: Candidate)
    requires NameReason(rules, e, c) == NameSimilar
    ensures 15 <= Points(rules, e, c, NameSimilar) <= 30
  {
    var s := Similarity(rules.normalize(RawText(e.name)), rules.normalize(c.name));
    SimilarityIsAScore(rules.normalize(RawText(e.name)), rules.normalize(c.name));
    assert 15.5 <= s * 30.0 + 0.5 <= 30.5;
  }

  /** A better identifier verdict is never outweighed by the name, and between equal identifier
      verdicts a better name verdict always scores more. */
  lemma VerdictsDecide(rules: Rules, e: Evidence, c: Candidate, d: Candidate)
    ensures var a, b := Rating(rules, e, c), Rating(rules, e, d);
            (IdTier(a.reasons[2]) > IdTier(b.reasons[2])
             || (a.reasons[2] == b.reasons[2] && NameTier(a.reasons[1]) > NameTier(b.reasons[1])))
            ==> a.score > b.score
    ensures 50 <= Rating(rules, e, c).score <= 190
  {
    if NameReason(rules, e, c) == NameSimilar {
      SimilarPoints(rules, e, c);
    }
    if NameReason(rules, e, d) == NameSimilar {
      SimilarPoints(rules, e, d);
    }
  }

  lemma InOrderIsTotal(rules: Rules)
    requires TotalPreorder(rules.tieBreak)
    ensures TotalPreorder(Order(rules))
  {
  }

  ghost predicate IsHead(rules: Rules, kept: seq<Ranked>, rest: seq<Ranked>, all: seq<Ranked>, limit: int) {
    && multiset(kept + rest) == multiset(all)
    && Ordered(kept + rest, Order(rules))
    && (rest != [] ==> |kept| == Max(0, Min(limit, 10)))
  }

  /** The shortlist is the head of an ordered permutation of all rated candidates. */
  lemma ShortlistIsTheHead(rules: Rules, e: Evidence, cs: seq<Candidate>, limit: int)
    requires TotalPreorder(rules.tieBreak)
    ensures exists rest :: IsHead(rules, Shortlist(rules, e, cs, limit), rest, Ratings(rules, e, cs), limit)
  {
    var all := Ratings(rules, e, cs);
    InOrderIsTotal(rules);
    hide TotalPreorder, Ordered, Order;
    var ordered := Sort(all, Order(rules));
    SortIsOrderedPermutation(all, Order(rules));
    var kept, rest := Shortlist(rules, e, cs, limit), ordered[Bound(|ordered|, limit)..];
    assert kept + rest == ordered;
    assert IsHead(rules, kept, rest, all, limit);
  }
}
