/** What ingestion guarantees (ingestion.py, storage.py).

    When a receipt is accepted, what it enters, what stays true of it in every later database, and
    how two receipts get in each other's way.  A database evolves by new receipts and by the queue,
    which may set the state of any job at any time; so each law speaks of an earlier and a later
    database of which the later has every row of the earlier. */
module IngestionLaws {
  import opened Ingestion

  // ------------------------------------------------------------------------ how databases evolve

  /** e has every row of db, unchanged but for job states and dates that were missing. */
  ghost predicate Grows(db: Db, e: Db) {
    && (forall s | s in db.sources ::
          && s in e.sources && e.sources[s].mediaType == db.sources[s].mediaType
          && (db.sources[s].serviceDate.Some? ==> e.sources[s].serviceDate == db.sources[s].serviceDate))
    && db.documents <= e.documents
    && (forall d | d in db.jobs :: d in e.jobs && e.jobs[d].bundle == db.jobs[d].bundle)
    && (forall d | d in db.evidence :: d in e.evidence && e.evidence[d] == db.evidence[d])
    && (forall a | a in db.artifacts :: a in e.artifacts && e.artifacts[a] == db.artifacts[a])
  }

  ghost predicate Extends(db: Db, e: Db) {
    Grows(db, e) && forall i | 0 <= i < |db.discoveries| :: db.discoveries[i] in e.discoveries
  }

  ghost predicate SlotsUnique(db: Db) {
    forall a, b | a in db.artifacts && b in db.artifacts && a != b :: !SameSlot(db.artifacts[a], db.artifacts[b])
  }

  lemma GrowsFurther(db: Db, e: Db, f: Db)
    requires Grows(db, e) && Grows(e, f)
    ensures Grows(db, f)
  {
  }

  // ----------------------------------------------------------------- inserting only adds

  ghost predicate ArtifactsIn(db: Db, r: Receipt, page: nat, k: nat)
    requires k <= |r.artifacts|
  {
    forall i | 0 <= i < k && r.artifacts[i].page == page ::
      r.artifacts[i].id in db.artifacts && db.artifacts[r.artifacts[i].id] == RowOf(r, r.artifacts[i])
  }

  lemma {:induction false} ArtifactsAdd(db: Db, r: Receipt, page: nat, k: nat)
    requires k <= |r.artifacts| && SlotsUnique(db) && InsertArtifacts(db, r, page, k).Some?
    ensures var e := InsertArtifacts(db, r, page, k).value;
            Grows(db, e) && e.discoveries == db.discoveries && SlotsUnique(e) && ArtifactsIn(e, r, page, k)
  {
    if k > 0 {
      ArtifactsAdd(db, r, page, k - 1);
    }
  }

  ghost predicate PageIn(db: Db, r: Receipt, page: nat) {
    var doc := Document(r.source, page);
    && doc in db.documents
    && doc in db.jobs && db.jobs[doc].bundle == r.bundle
    && (page in r.evidence ==> doc in db.evidence && db.evidence[doc] == r.evidence[page])
    && ArtifactsIn(db, r, page, |r.artifacts|)
  }

  lemma PageAdds(db: Db, r: Receipt, page: nat)
    requires SlotsUnique(db) && InsertPage(db, r, page).Some?
    ensures var e := InsertPage(db, r, page).value;
            Grows(db, e) && e.discoveries == db.discoveries && SlotsUnique(e) && PageIn(e, r, page)
  {
    var placed := InsertDocument(db, r, page).value;
    var evident := InsertEvidence(placed, r, page).value;
    ArtifactsAdd(evident, r, page, |r.artifacts|);
  }

  lemma PageStaysIn(db: Db, e: Db, r: Receipt, page: nat)
    requires PageIn(db, r, page) && Grows(db, e)
    ensures PageIn(e, r, page)
  {
  }

  lemma {:induction false} PagesAdd(db: Db, r: Receipt, n: nat)
    requires SlotsUnique(db) && InsertPages(db, r, n).Some?
    ensures var e := InsertPages(db, r, n).value;
            Grows(db, e) && e.discoveries == db.discoveries && SlotsUnique(e) && forall p | 0 <= p < n :: PageIn(e, r, p)
  {
    hide PageIn, SlotsUnique, InsertPage, Grows;
    if n == 0 {
      GrowsItself(db);
    } else {
      PagesAdd(db, r, n - 1);
      var before := InsertPages(db, r, n - 1).value;
      PageAdds(before, r, n - 1);
      var e := InsertPage(before, r, n - 1).value;
      GrowsFurther(db, before, e);
      forall p | 0 <= p < n ensures PageIn(e, r, p) {
        if p < n - 1 {
          PageStaysIn(before, e, r, p);
        }
      }
    }
  }

  lemma GrowsItself(db: Db)
    ensures Grows(db, db)
  {
  }

  // -------------------------------------------------------- a larger database accepts no more

  lemma {:induction false} ArtifactsMonotone(db: Db, e: Db, r: Receipt, page: nat, k: nat)
    requires k <= |r.artifacts| && Grows(db, e) && SlotsUnique(e) && InsertArtifacts(e, r, page, k).Some?
    ensures InsertArtifacts(db, r, page, k).Some?
    ensures Grows(InsertArtifacts(db, r, page, k).value, InsertArtifacts(e, r, page, k).value)
  {
    hide Grows, SlotsUnique, InsertArtifact, ArtifactsIn;
    if k > 0 {
      ArtifactsMonotone(db, e, r, page, k - 1);
      ArtifactsAdd(e, r, page, k - 1);
      if r.artifacts[k - 1].page == page {
        ArtifactMonotone(InsertArtifacts(db, r, page, k - 1).value, InsertArtifacts(e, r, page, k - 1).value, r, r.artifacts[k - 1]);
      }
    }
  }

  lemma ArtifactMonotone(db: Db, e: Db, r: Receipt, a: Artifact)
    requires Grows(db, e) && SlotsUnique(e) && InsertArtifact(e, r, a).Some?
    ensures InsertArtifact(db, r, a).Some?
    ensures Grows(InsertArtifact(db, r, a).value, InsertArtifact(e, r, a).value)
  {
  }

  lemma DocumentMonotone(db: Db, e: Db, r: Receipt, page: nat)
    requires Grows(db, e) && SlotsUnique(e) && InsertDocument(e, r, page).Some?
    ensures InsertDocument(db, r, page).Some? && SlotsUnique(InsertDocument(e, r, page).value)
    ensures Grows(InsertDocument(db, r, page).value, InsertDocument(e, r, page).value)
  {
  }

  lemma EvidenceMonotone(db: Db, e: Db, r: Receipt, page: nat)
    requires Grows(db, e) && SlotsUnique(e) && InsertEvidence(e, r, page).Some?
    ensures InsertEvidence(db, r, page).Some? && SlotsUnique(InsertEvidence(e, r, page).value)
    ensures Grows(InsertEvidence(db, r, page).value, InsertEvidence(e, r, page).value)
  {
  }

  lemma PageMonotone(db: Db, e: Db, r: Receipt, page: nat)
    requires Grows(db, e) && SlotsUnique(e) && InsertPage(e, r, page).Some?
    ensures InsertPage(db, r, page).Some?
    ensures Grows(InsertPage(db, r, page).value, InsertPage(e, r, page).value)
  {
    hide Grows, SlotsUnique, InsertDocument, InsertEvidence, InsertArtifacts;
    DocumentMonotone(db, e, r, page);
    var placed, placedE := InsertDocument(db, r, page).value, InsertDocument(e, r, page).value;
    EvidenceMonotone(placed, placedE, r, page);
    var evident, evidentE := InsertEvidence(placed, r, page).value, InsertEvidence(placedE, r, page).value;
    ArtifactsMonotone(evident, evidentE, r, page, |r.artifacts|);
  }

  lemma {:induction false} PagesMonotone(db: Db, e: Db, r: Receipt, n: nat)
    requires Grows(db, e) && SlotsUnique(e) && InsertPages(e, r, n).Some?
    ensures InsertPages(db, r, n).Some?
    ensures Grows(InsertPages(db, r, n).value, InsertPages(e, r, n).value)
  {
    hide Grows, SlotsUnique, InsertPage, PageIn;
    if n > 0 {
      PagesMonotone(db, e, r, n - 1);
      PagesAdd(e, r, n - 1);
      PageMonotone(InsertPages(db, r, n - 1).value, InsertPages(e, r, n - 1).value, r, n - 1);
    }
  }

  /** A receipt the database refuses now is refused by every later database. */
  lemma RefusalPersists(db: Db, e: Db, files: Files, r: Receipt)
    requires Grows(db, e) && SlotsUnique(e) && Create(db, files, r).None?
    ensures Create(e, files, r).None?
  {
    if Create(e, files, r).Some? {
      var f, g := InsertSource(db, r), InsertSource(e, r);
      assert !SourceConflict(db, r);
      assert Grows(f, g);
      assert SlotsUnique(g);
      PagesMonotone(f, g, r, r.pageCount);
    }
  }

  // ------------------------------------------------------------------------------ applied receipts

  /** Everything the receipt speaks of is in the database. */
  ghost predicate Applied(db: Db, r: Receipt) {
    && r.source in db.sources && db.sources[r.source] == SourceRow(r.mediaType, Some(r.serviceDate))
    && Known(db, r)
    && (forall p | 0 <= p < r.pageCount :: PageIn(db, r, p))
  }

  lemma SourceAdds(db: Db, r: Receipt)
    requires !SourceConflict(db, r)
    ensures var e := InsertSource(db, r);
            && Extends(db, e) && Known(e, r) && e.artifacts == db.artifacts
            && e.sources[r.source] == SourceRow(r.mediaType, Some(r.serviceDate))
  {
    var e := InsertSource(db, r);
    if !Known(db, r) {
      assert e.discoveries[|db.discoveries|].receipt == r.id;
    }
  }

  /** A receipt that is accepted is entered whole, and nothing already there is touched. */
  lemma CreateAppliesAll(db: Db, files: Files, r: Receipt)
    requires SlotsUnique(db) && Create(db, files, r).Some?
    ensures var e := Create(db, files, r).value;
            && Applied(e, r) && Extends(db, e) && SlotsUnique(e)
            && JobsKept(db, e)
  {
    SourceAdds(db, r);
    var start := InsertSource(db, r);
    PagesAdd(start, r, r.pageCount);
    JobsUntouched(start, r, r.pageCount);
    var e := InsertPages(start, r, r.pageCount).value;
    hide PageIn, SlotsUnique, InsertPages;
    GrowsFurther(db, start, e);
  }

  lemma {:induction false} ArtifactsKeepJobs(db: Db, r: Receipt, page: nat, k: nat)
    requires k <= |r.artifacts| && InsertArtifacts(db, r, page, k).Some?
    ensures InsertArtifacts(db, r, page, k).value.jobs == db.jobs
  {
    if k > 0 {
      ArtifactsKeepJobs(db, r, page, k - 1);
    }
  }

  /** Old jobs are left alone, new ones are queued. */
  ghost predicate JobsKept(db: Db, e: Db) {
    && (forall d | d in db.jobs :: d in e.jobs && e.jobs[d] == db.jobs[d])
    && (forall d | d in e.jobs && d !in db.jobs :: e.jobs[d].state == QUEUED)
  }

  lemma PageKeepsJobs(db: Db, r: Receipt, page: nat)
    requires InsertPage(db, r, page).Some?
    ensures JobsKept(db, InsertPage(db, r, page).value)
  {
    var placed := InsertDocument(db, r, page).value;
    var evident := InsertEvidence(placed, r, page).value;
    ArtifactsKeepJobs(evident, r, page, |r.artifacts|);
    hide InsertArtifacts;
  }

  lemma {:induction false} JobsUntouched(db: Db, r: Receipt, n: nat)
    requires InsertPages(db, r, n).Some?
    ensures JobsKept(db, InsertPages(db, r, n).value)
  {
    hide InsertPage;
    if n > 0 {
      JobsUntouched(db, r, n - 1);
      PageKeepsJobs(InsertPages(db, r, n - 1).value, r, n - 1);
    }
  }

  lemma AppliedPersists(db: Db, e: Db, r: Receipt)
    requires Applied(db, r) && Extends(db, e)
    ensures Applied(e, r)
  {
    forall p | 0 <= p < r.pageCount ensures PageIn(e, r, p) {
      PageStaysIn(db, e, r, p);
    }
  }

  lemma {:induction false} ArtifactsAgain(db: Db, r: Receipt, page: nat, k: nat)
    requires k <= |r.artifacts| && ArtifactsIn(db, r, page, |r.artifacts|)
    ensures InsertArtifacts(db, r, page, k) == Some(db)
  {
    if k > 0 {
      ArtifactsAgain(db, r, page, k - 1);
    }
  }

  lemma PageAgain(db: Db, r: Receipt, page: nat)
    requires PageIn(db, r, page)
    ensures InsertPage(db, r, page) == Some(db)
  {
    ArtifactsAgain(db, r, page, |r.artifacts|);
    assert db.documents + {Document(r.source, page)} == db.documents;
  }

  lemma {:induction false} PagesAgain(db: Db, r: Receipt, n: nat)
    requires forall p | 0 <= p < n :: PageIn(db, r, p)
    ensures InsertPages(db, r, n) == Some(db)
  {
    hide PageIn, InsertPage;
    if n > 0 {
      PagesAgain(db, r, n - 1);
      PageAgain(db, r, n - 1);
    }
  }

  /** Entering an entered receipt again changes no row of the model: no discovery, document, job,
      artifact or event is added, and no job is re-opened, whatever its state is by now. */
  lemma ReplayChangesNothing(db: Db, files: Files, r: Receipt)
    requires Applied(db, r) && WellFormed(files, r)
    ensures Create(db, files, r) == Some(db)
  {
    PagesAgain(db, r, r.pageCount);
    assert db.sources[r.source := db.sources[r.source]] == db.sources;
    assert InsertSource(db, r) == db;
  }

  // ------------------------------------------------------------------------- two receipts

  /** Two artifact rows that cannot both be stored. */
  predicate Clash(a: ArtifactId, row: ArtifactRow, b: ArtifactId, other: ArtifactRow) {
    if a == b then row != other else SameSlot(row, other)
  }

  predicate ArtifactsClash(q: Receipt, r: Receipt) {
    exists i, j | 0 <= i < |q.artifacts| && 0 <= j < |r.artifacts| ::
      Clash(q.artifacts[i].id, RowOf(q, q.artifacts[i]), r.artifacts[j].id, RowOf(r, r.artifacts[j]))
  }

  /** Receipts of one source must agree on its media type, service date and bundle and on the
      evidence of the pages both name; of any sources, on the artifacts both name. */
  predicate Compatible(q: Receipt, r: Receipt) {
    && (q.source == r.source ==>
          && q.mediaType == r.mediaType && q.serviceDate == r.serviceDate && q.bundle == r.bundle
          && (forall p | p in q.evidence && p in r.evidence :: q.evidence[p] == r.evidence[p]))
    && !ArtifactsClash(q, r)
  }

  ghost predicate OneOf(q: Receipt, a: ArtifactId, row: ArtifactRow) {
    exists i | 0 <= i < |q.artifacts| :: q.artifacts[i].id == a && row == RowOf(q, q.artifacts[i])
  }

  /** e is db and rows of q. */
  ghost predicate Plus(db: Db, e: Db, q: Receipt) {
    && Grows(db, e)
    && (forall s | s in e.sources ::
          || (s == q.source && e.sources[s] == SourceRow(q.mediaType, Some(q.serviceDate)))
          || (s in db.sources && e.sources[s] == db.sources[s]))
    && (forall d | d in e.jobs && d !in db.jobs :: d.source == q.source && e.jobs[d].bundle == q.bundle)
    && (forall d | d in e.evidence && d !in db.evidence ::
          d.source == q.source && d.page in q.evidence && e.evidence[d] == q.evidence[d.page])
    && (forall a | a in e.artifacts && a !in db.artifacts :: OneOf(q, a, e.artifacts[a]))
  }

  lemma {:induction false} ArtifactsArePlus(db: Db, e: Db, q: Receipt, page: nat, k: nat)
    requires Plus(db, e, q) && k <= |q.artifacts| && InsertArtifacts(e, q, page, k).Some?
    ensures Plus(db, InsertArtifacts(e, q, page, k).value, q)
  {
    if k > 0 {
      ArtifactsArePlus(db, e, q, page, k - 1);
      assert OneOf(q, q.artifacts[k - 1].id, RowOf(q, q.artifacts[k - 1]));
    }
  }

  lemma DocumentIsPlus(db: Db, e: Db, q: Receipt, page: nat)
    requires Plus(db, e, q) && InsertDocument(e, q, page).Some?
    ensures Plus(db, InsertDocument(e, q, page).value, q)
  {
    hide OneOf;
  }

  lemma EvidenceIsPlus(db: Db, e: Db, q: Receipt, page: nat)
    requires Plus(db, e, q) && InsertEvidence(e, q, page).Some?
    ensures Plus(db, InsertEvidence(e, q, page).value, q)
  {
    hide OneOf;
  }

  lemma {:induction false} PagesArePlus(db: Db, e: Db, q: Receipt, n: nat)
    requires Plus(db, e, q) && InsertPages(e, q, n).Some?
    ensures Plus(db, InsertPages(e, q, n).value, q)
  {
    hide Plus, InsertDocument, InsertEvidence, InsertArtifacts;
    if n > 0 {
      PagesArePlus(db, e, q, n - 1);
      var before := InsertPages(e, q, n - 1).value;
      DocumentIsPlus(db, before, q, n - 1);
      var placed := InsertDocument(before, q, n - 1).value;
      EvidenceIsPlus(db, placed, q, n - 1);
      ArtifactsArePlus(db, InsertEvidence(placed, q, n - 1).value, q, n - 1, |q.artifacts|);
    }
  }

  /** Entering a receipt adds rows of that receipt only. */
  lemma CreateIsPlus(db: Db, files: Files, q: Receipt)
    requires Create(db, files, q).Some?
    ensures Plus(db, Create(db, files, q).value, q)
  {
    var start := InsertSource(db, q);
    assert Plus(db, start, q);
    PagesArePlus(db, start, q, q.pageCount);
  }

  // What db accepts of r, db and rows of a compatible q accepts too.

  lemma SourceFits(db: Db, e: Db, q: Receipt, r: Receipt)
    requires Plus(db, e, q) && Compatible(q, r) && !SourceConflict(db, r)
    ensures !SourceConflict(e, r) && Plus(InsertSource(db, r), InsertSource(e, r), q)
  {
    hide OneOf, ArtifactsClash, Known;
  }

  lemma DocumentFits(db: Db, e: Db, q: Receipt, r: Receipt, page: nat)
    requires Plus(db, e, q) && Compatible(q, r) && InsertDocument(db, r, page).Some?
    ensures InsertDocument(e, r, page).Some?
    ensures Plus(InsertDocument(db, r, page).value, InsertDocument(e, r, page).value, q)
  {
    hide OneOf, ArtifactsClash;
  }

  lemma EvidenceFits(db: Db, e: Db, q: Receipt, r: Receipt, page: nat)
    requires Plus(db, e, q) && Compatible(q, r) && InsertEvidence(db, r, page).Some?
    ensures InsertEvidence(e, r, page).Some?
    ensures Plus(InsertEvidence(db, r, page).value, InsertEvidence(e, r, page).value, q)
  {
    EvidenceAccepted(db, e, q, r, page);
    EvidenceInserted(db, r, page);
    EvidenceInserted(e, r, page);
    hide OneOf, ArtifactsClash, InsertEvidence;
  }

  lemma EvidenceAccepted(db: Db, e: Db, q: Receipt, r: Receipt, page: nat)
    requires Plus(db, e, q) && Compatible(q, r) && InsertEvidence(db, r, page).Some?
    ensures InsertEvidence(e, r, page).Some?
  {
    hide OneOf, ArtifactsClash;
  }

  lemma EvidenceInserted(db: Db, r: Receipt, page: nat)
    requires InsertEvidence(db, r, page).Some?
    ensures InsertEvidence(db, r, page).value
            == if page in r.evidence then db.(evidence := db.evidence[Document(r.source, page) := r.evidence[page]]) else db
  {
    if page in r.evidence && Document(r.source, page) in db.evidence {
      assert db.evidence[Document(r.source, page) := r.evidence[page]] == db.evidence;
    }
  }

  lemma ArtifactAccepted(db: Db, e: Db, q: Receipt, r: Receipt, j: nat)
    requires Plus(db, e, q) && !ArtifactsClash(q, r) && j < |r.artifacts|
    requires InsertArtifact(db, r, r.artifacts[j]).Some?
    ensures InsertArtifact(e, r, r.artifacts[j]).Some?
  {
    var a := r.artifacts[j];
    forall id | id in e.artifacts && id !in db.artifacts ensures !Clash(id, e.artifacts[id], a.id, RowOf(r, a)) {
      assert OneOf(q, id, e.artifacts[id]);
    }
    hide OneOf, ArtifactsClash;
  }

  lemma ArtifactFits(db: Db, e: Db, q: Receipt, r: Receipt, j: nat)
    requires Plus(db, e, q) && !ArtifactsClash(q, r) && j < |r.artifacts|
    requires InsertArtifact(db, r, r.artifacts[j]).Some?
    ensures InsertArtifact(e, r, r.artifacts[j]).Some?
    ensures Plus(InsertArtifact(db, r, r.artifacts[j]).value, InsertArtifact(e, r, r.artifacts[j]).value, q)
  {
    hide *;
    ArtifactAccepted(db, e, q, r, j);
    var a := r.artifacts[j];
    ArtifactInserted(db, r, a);
    ArtifactInserted(e, r, a);
    SameArtifactPlus(db, e, q, a.id, RowOf(r, a));
  }

  lemma ArtifactInserted(db: Db, r: Receipt, a: Artifact)
    requires InsertArtifact(db, r, a).Some?
    ensures InsertArtifact(db, r, a).value == db.(artifacts := db.artifacts[a.id := RowOf(r, a)])
  {
    hide SlotTaken;
    if a.id in db.artifacts {
      assert db.artifacts[a.id := RowOf(r, a)] == db.artifacts;
    }
  }

  lemma SameArtifactPlus(db: Db, e: Db, q: Receipt, id: ArtifactId, row: ArtifactRow)
    requires Plus(db, e, q)
    ensures Plus(db.(artifacts := db.artifacts[id := row]), e.(artifacts := e.artifacts[id := row]), q)
  {
    hide OneOf;
  }

  lemma {:induction false} ArtifactsFit(db: Db, e: Db, q: Receipt, r: Receipt, page: nat, k: nat)
    requires Plus(db, e, q) && !ArtifactsClash(q, r) && k <= |r.artifacts| && InsertArtifacts(db, r, page, k).Some?
    ensures InsertArtifacts(e, r, page, k).Some?
    ensures Plus(InsertArtifacts(db, r, page, k).value, InsertArtifacts(e, r, page, k).value, q)
  {
    hide Plus, ArtifactsClash, InsertArtifact;
    if k > 0 {
      ArtifactsFit(db, e, q, r, page, k - 1);
      if r.artifacts[k - 1].page == page {
        ArtifactFits(InsertArtifacts(db, r, page, k - 1).value, InsertArtifacts(e, r, page, k - 1).value, q, r, k - 1);
      }
    }
  }

  lemma {:induction false} PagesFit(db: Db, e: Db, q: Receipt, r: Receipt, n: nat)
    requires Plus(db, e, q) && Compatible(q, r) && InsertPages(db, r, n).Some?
    ensures InsertPages(e, r, n).Some?
    ensures Plus(InsertPages(db, r, n).value, InsertPages(e, r, n).value, q)
  {
    hide Plus, InsertDocument, InsertEvidence, InsertArtifacts, ArtifactsClash;
    if n > 0 {
      PagesFit(db, e, q, r, n - 1);
      var before, beforeE := InsertPages(db, r, n - 1).value, InsertPages(e, r, n - 1).value;
      DocumentFits(before, beforeE, q, r, n - 1);
      var placed, placedE := InsertDocument(before, r, n - 1).value, InsertDocument(beforeE, r, n - 1).value;
      EvidenceFits(placed, placedE, q, r, n - 1);
      ArtifactsFit(InsertEvidence(placed, r, n - 1).value, InsertEvidence(placedE, r, n - 1).value, q, r, n - 1, |r.artifacts|);
    }
  }

  /** Receipts entered one after the other are compatible. */
  lemma EnteredAreCompatible(e: Db, g: Db, files: Files, q: Receipt, r: Receipt)
    requires Applied(e, q) && SlotsUnique(e) && Create(e, files, r) == Some(g) && WellFormed(files, q)
    ensures Compatible(q, r)
  {
    CreateAppliesAll(e, files, r);
    hide InsertPages, Known;
    if q.source == r.source {
      assert PageIn(g, r, 0) && PageIn(e, q, 0);
      forall p | p in q.evidence && p in r.evidence ensures q.evidence[p] == r.evidence[p] {
        assert PageIn(g, r, p) && PageIn(e, q, p);
      }
    }
    forall i, j | 0 <= i < |q.artifacts| && 0 <= j < |r.artifacts|
      ensures !Clash(q.artifacts[i].id, RowOf(q, q.artifacts[i]), r.artifacts[j].id, RowOf(r, r.artifacts[j])) {
      assert PageIn(g, r, r.artifacts[j].page) && PageIn(e, q, q.artifacts[i].page);
    }
  }

  /** After q was entered, r is accepted exactly when it was acceptable before and the two are
      compatible. */
  lemma AcceptedAfterExactlyWhen(db: Db, e: Db, files: Files, q: Receipt, r: Receipt)
    requires SlotsUnique(db) && Create(db, files, q) == Some(e)
    ensures Create(e, files, r).Some? <==> Create(db, files, r).Some? && Compatible(q, r)
  {
    CreateAppliesAll(db, files, q);
    if Create(e, files, r).Some? {
      EnteredAreCompatible(e, Create(e, files, r).value, files, q, r);
      if Create(db, files, r).None? {
        RefusalPersists(db, e, files, r);
      }
    }
    if Create(db, files, r).Some? && Compatible(q, r) {
      CreateIsPlus(db, files, q);
      SourceFits(db, e, q, r);
      PagesFit(InsertSource(db, r), InsertSource(e, r), q, r, r.pageCount);
    }
  }

  // -------------------------------------------------------------- acceptance in terms of the rows

  /** The row says what the receipt says of this crop. */
  predicate Describes(row: ArtifactRow, r: Receipt, a: Artifact) {
    && row.document.source == r.source && row.document.page == a.page
    && row.bundle == r.bundle && row.slot == a.slot && row.bytes == a.bytes && row.details == a.details
  }

  /** One id is one crop, and two ids are not the same crop of one page. */
  predicate CropsAgree(r: Receipt) {
    forall i, j | 0 <= i < j < |r.artifacts| ::
      var a, b := r.artifacts[i], r.artifacts[j];
      if a.id == b.id then a == b else a.page != b.page || a.slot != b.slot
  }

  predicate WellStated(files: Files, r: Receipt) {
    && r.pageCount > 0
    && (forall p | p in r.evidence :: p < r.pageCount)
    && (forall i | 0 <= i < |r.artifacts| ::
          && r.artifacts[i].page < r.pageCount
          && CropPath(r.artifacts[i].id) in files && files[CropPath(r.artifacts[i].id)] == r.artifacts[i].bytes)
  }

  predicate SourceAgrees(db: Db, r: Receipt) {
    r.source in db.sources ==>
      && db.sources[r.source].mediaType == r.mediaType
      && (db.sources[r.source].serviceDate == None || db.sources[r.source].serviceDate == Some(r.serviceDate))
  }

  predicate PagesAgree(db: Db, r: Receipt) {
    && (forall p: nat | p < r.pageCount && Document(r.source, p) in db.jobs :: db.jobs[Document(r.source, p)].bundle == r.bundle)
    && (forall p: nat | p in r.evidence && Document(r.source, p) in db.evidence ::
          db.evidence[Document(r.source, p)] == r.evidence[p])
  }

  predicate CropAgrees(db: Db, r: Receipt, a: Artifact) {
    && (a.id in db.artifacts ==> Describes(db.artifacts[a.id], r, a))
    && (forall id | id in db.artifacts && id != a.id ::
          var row := db.artifacts[id];
          !(row.document == Document(r.source, a.page) && row.bundle == r.bundle && row.slot == a.slot))
  }

  /** Nothing in the receipt contradicts a stored row or the receipt itself. */
  predicate Acceptable(db: Db, files: Files, r: Receipt) {
    && WellStated(files, r) && CropsAgree(r) && SourceAgrees(db, r) && PagesAgree(db, r)
    && (forall i | 0 <= i < |r.artifacts| :: CropAgrees(db, r, r.artifacts[i]))
  }

  lemma ArtifactIsAccepted(start: Db, db: Db, r: Receipt, j: nat)
    requires Plus(start, db, r) && CropsAgree(r) && j < |r.artifacts| && CropAgrees(start, r, r.artifacts[j])
    ensures InsertArtifact(db, r, r.artifacts[j]).Some?
  {
    var a := r.artifacts[j];
    if a.id in db.artifacts && a.id !in start.artifacts {
      assert OneOf(r, a.id, db.artifacts[a.id]);
      var i :| 0 <= i < |r.artifacts| && r.artifacts[i].id == a.id && db.artifacts[a.id] == RowOf(r, r.artifacts[i]);
      assert r.artifacts[i] == a;
    }
    if a.id !in db.artifacts {
      forall id | id in db.artifacts ensures !SameSlot(db.artifacts[id], RowOf(r, a)) {
        if id !in start.artifacts {
          assert OneOf(r, id, db.artifacts[id]);
        }
      }
    }
  }

  lemma {:induction false} ArtifactsAreAccepted(start: Db, db: Db, r: Receipt, page: nat, k: nat)
    requires Plus(start, db, r) && CropsAgree(r) && k <= |r.artifacts|
    requires forall i | 0 <= i < |r.artifacts| :: CropAgrees(start, r, r.artifacts[i])
    ensures InsertArtifacts(db, r, page, k).Some?
  {
    hide Plus, CropsAgree, CropAgrees, InsertArtifact;
    if k > 0 {
      ArtifactsAreAccepted(start, db, r, page, k - 1);
      ArtifactsArePlus(start, db, r, page, k - 1);
      ArtifactIsAccepted(start, InsertArtifacts(db, r, page, k - 1).value, r, k - 1);
    }
  }

  lemma PageIsAccepted(start: Db, db: Db, r: Receipt, page: nat)
    requires Plus(start, db, r) && PagesAgree(start, r) && page < r.pageCount
    ensures InsertDocument(db, r, page).Some?
    ensures InsertEvidence(InsertDocument(db, r, page).value, r, page).Some?
  {
    hide OneOf;
  }

  lemma {:induction false} PagesAreAccepted(db: Db, r: Receipt, n: nat)
    requires PagesAgree(db, r) && CropsAgree(r) && n <= r.pageCount
    requires forall i | 0 <= i < |r.artifacts| :: CropAgrees(db, r, r.artifacts[i])
    requires Plus(db, db, r)
    ensures InsertPages(db, r, n).Some?
  {
    hide Plus, PagesAgree, CropsAgree, CropAgrees, InsertDocument, InsertEvidence, InsertArtifacts;
    if n > 0 {
      PagesAreAccepted(db, r, n - 1);
      var before := InsertPages(db, r, n - 1).value;
      PagesArePlus(db, db, r, n - 1);
      PageIsAccepted(db, before, r, n - 1);
      DocumentIsPlus(db, before, r, n - 1);
      var placed := InsertDocument(before, r, n - 1).value;
      EvidenceIsPlus(db, placed, r, n - 1);
      ArtifactsAreAccepted(db, InsertEvidence(placed, r, n - 1).value, r, n - 1, |r.artifacts|);
    }
  }

  lemma AcceptableIsAccepted(db: Db, files: Files, r: Receipt)
    requires Acceptable(db, files, r)
    ensures Create(db, files, r).Some?
  {
    var start := InsertSource(db, r);
    assert Plus(start, start, r);
    PagesAreAccepted(start, r, r.pageCount);
  }

  lemma AcceptedIsAcceptable(db: Db, files: Files, r: Receipt)
    requires SlotsUnique(db) && Create(db, files, r).Some?
    ensures Acceptable(db, files, r)
  {
    var e := Create(db, files, r).value;
    CreateAppliesAll(db, files, r);
    assert WellStated(files, r) && SourceAgrees(db, r);
    hide InsertPages, Known;
    forall p: nat | p < r.pageCount && Document(r.source, p) in db.jobs
      ensures db.jobs[Document(r.source, p)].bundle == r.bundle {
      assert PageIn(e, r, p);
    }
    forall p: nat | p in r.evidence && Document(r.source, p) in db.evidence
      ensures db.evidence[Document(r.source, p)] == r.evidence[p] {
      assert PageIn(e, r, p);
    }
    forall i | 0 <= i < |r.artifacts|
      ensures r.artifacts[i].id in e.artifacts && e.artifacts[r.artifacts[i].id] == RowOf(r, r.artifacts[i]) {
      assert PageIn(e, r, r.artifacts[i].page);
    }
    CropsAreAcceptable(db, e, r);
  }

  lemma CropsAreAcceptable(db: Db, e: Db, r: Receipt)
    requires Grows(db, e) && SlotsUnique(e)
    requires forall i | 0 <= i < |r.artifacts| ::
               r.artifacts[i].id in e.artifacts && e.artifacts[r.artifacts[i].id] == RowOf(r, r.artifacts[i])
    ensures CropsAgree(r) && forall i | 0 <= i < |r.artifacts| :: CropAgrees(db, r, r.artifacts[i])
  {
  }

  /** On any database a receipt is accepted exactly when nothing in it contradicts a stored row or
      the receipt itself. */
  lemma AcceptedExactlyWhen(db: Db, files: Files, r: Receipt)
    requires SlotsUnique(db)
    ensures Create(db, files, r).Some? <==> Acceptable(db, files, r)
  {
    hide Create, Acceptable;
    if Create(db, files, r).Some? {
      AcceptedIsAcceptable(db, files, r);
    }
    if Acceptable(db, files, r) {
      AcceptableIsAccepted(db, files, r);
    }
  }

  const NO_ROWS := Db(map[], [], {}, map[], map[], map[], [])

  /** On an empty database only the receipt itself and its crops matter. */
  lemma FirstReceiptExactlyWhen(files: Files, r: Receipt)
    ensures Create(NO_ROWS, files, r).Some? <==> WellStated(files, r) && CropsAgree(r)
  {
    AcceptedExactlyWhen(NO_ROWS, files, r);
    hide Create, WellStated, CropsAgree;
  }

  // ------------------------------------------------------------------- what is written, row by row

  ghost predicate SourceWritten(db: Db, e: Db, r: Receipt) {
    && e.sources == db.sources[r.source := SourceRow(r.mediaType, Some(r.serviceDate))]
    && e.discoveries
       == (if exists d :: d in db.discoveries && (d.receipt == r.id || d.observed == r.observed) then db.discoveries
           else db.discoveries + [Discovery(r.source, r.id, r.observed)])
  }

  ghost predicate PagesWritten(db: Db, e: Db, r: Receipt) {
    && (forall d :: d in e.documents <==> d in db.documents || (d.source == r.source && d.page < r.pageCount))
    && (forall d :: d in e.jobs <==> d in db.jobs || (d.source == r.source && d.page < r.pageCount))
    && (forall d | d in e.jobs :: e.jobs[d] == if d in db.jobs then db.jobs[d] else JobRow(r.bundle, QUEUED))
    && (forall d :: d in e.evidence <==> d in db.evidence || (d.source == r.source && d.page in r.evidence))
    && (forall d | d in e.evidence :: e.evidence[d] == if d in db.evidence then db.evidence[d] else r.evidence[d.page])
    && e.created == db.created + Announced(db, r.source, r.pageCount)
  }

  /** Each new document is announced once, in order of its pages. */
  function Announced(db: Db, source: Bytes, n: nat): seq<Document> {
    if n == 0 then []
    else Announced(db, source, n - 1) + (if Document(source, n - 1) in db.documents then [] else [Document(source, n - 1)])
  }

  ghost predicate CropsWritten(db: Db, e: Db, r: Receipt) {
    && (forall id :: id in e.artifacts <==> id in db.artifacts || exists i :: 0 <= i < |r.artifacts| && r.artifacts[i].id == id)
    && (forall id | id in db.artifacts :: e.artifacts[id] == db.artifacts[id])
    && (forall i | 0 <= i < |r.artifacts| :: r.artifacts[i].id in e.artifacts
          && Describes(e.artifacts[r.artifacts[i].id], r, r.artifacts[i]))
  }

  lemma {:induction false} ArtifactsKeepRest(db: Db, r: Receipt, page: nat, k: nat)
    requires k <= |r.artifacts| && InsertArtifacts(db, r, page, k).Some?
    ensures InsertArtifacts(db, r, page, k).value == db.(artifacts := InsertArtifacts(db, r, page, k).value.artifacts)
  {
    if k > 0 {
      ArtifactsKeepRest(db, r, page, k - 1);
    }
  }

  // The columns other than the crops, after the documents of n pages and the evidence of m.

  ghost predicate DocumentsThrough(db: Db, e: Db, r: Receipt, n: nat) {
    && (forall d :: d in e.documents <==> d in db.documents || (d.source == r.source && d.page < n))
    && e.created == db.created + Announced(db, r.source, n)
  }

  ghost predicate JobsThrough(db: Db, e: Db, r: Receipt, n: nat) {
    && (forall d :: d in e.jobs <==> d in db.jobs || (d.source == r.source && d.page < n))
    && (forall d | d in e.jobs :: e.jobs[d] == if d in db.jobs then db.jobs[d] else JobRow(r.bundle, QUEUED))
  }

  ghost predicate EvidenceThrough(db: Db, e: Db, r: Receipt, m: nat) {
    && (forall d :: d in e.evidence <==> d in db.evidence || (d.source == r.source && d.page in r.evidence && d.page < m))
    && (forall d | d in e.evidence :: e.evidence[d] == if d in db.evidence then db.evidence[d] else r.evidence[d.page])
  }

  ghost predicate Through(db: Db, e: Db, r: Receipt, n: nat, m: nat) {
    && e.sources == db.sources && e.discoveries == db.discoveries
    && DocumentsThrough(db, e, r, n) && JobsThrough(db, e, r, n) && EvidenceThrough(db, e, r, m)
  }

  lemma NothingThrough(db: Db, r: Receipt)
    ensures Through(db, db, r, 0, 0)
  {
  }

  lemma JobPlaced(db: Db, before: Db, r: Receipt, n: nat)
    requires JobsThrough(db, before, r, n) && InsertDocument(before, r, n).Some?
    ensures JobsThrough(db, InsertDocument(before, r, n).value, r, n + 1)
  {
  }

  lemma DocumentPlaced(db: Db, before: Db, r: Receipt, n: nat)
    requires DocumentsThrough(db, before, r, n) && InsertDocument(before, r, n).Some?
    ensures DocumentsThrough(db, InsertDocument(before, r, n).value, r, n + 1)
  {
    var doc := Document(r.source, n);
    assert Announced(db, r.source, n + 1) == Announced(db, r.source, n) + (if doc in db.documents then [] else [doc]);
    hide Announced;
  }

  lemma RestPlaced(db: Db, before: Db, r: Receipt, n: nat)
    requires Through(db, before, r, n, n) && InsertDocument(before, r, n).Some?
    ensures Through(db, InsertDocument(before, r, n).value, r, n + 1, n)
  {
    DocumentPlaced(db, before, r, n);
    JobPlaced(db, before, r, n);
    hide DocumentsThrough, JobsThrough;
  }

  lemma EvidencePlaced(db: Db, placed: Db, r: Receipt, n: nat)
    requires Through(db, placed, r, n + 1, n) && InsertEvidence(placed, r, n).Some?
    ensures Through(db, InsertEvidence(placed, r, n).value, r, n + 1, n + 1)
  {
    var e := InsertEvidence(placed, r, n).value;
    assert e == placed.(evidence := e.evidence);
    assert DocumentsThrough(db, e, r, n + 1) && JobsThrough(db, e, r, n + 1);
    hide DocumentsThrough, JobsThrough;
  }

  lemma PageParts(db: Db, r: Receipt, page: nat)
    requires InsertPage(db, r, page).Some?
    ensures InsertDocument(db, r, page).Some?
    ensures InsertEvidence(InsertDocument(db, r, page).value, r, page).Some?
    ensures InsertArtifacts(InsertEvidence(InsertDocument(db, r, page).value, r, page).value, r, page, |r.artifacts|)
            == InsertPage(db, r, page)
  {
  }

  lemma PageThrough(db: Db, before: Db, r: Receipt, n: nat)
    requires Through(db, before, r, n, n) && InsertPage(before, r, n).Some?
    ensures Through(db, InsertPage(before, r, n).value, r, n + 1, n + 1)
  {
    hide *;
    PageParts(before, r, n);
    RestPlaced(db, before, r, n);
    var placed := InsertDocument(before, r, n).value;
    EvidencePlaced(db, placed, r, n);
    var evident := InsertEvidence(placed, r, n).value;
    ArtifactsKeepRest(evident, r, n, |r.artifacts|);
    ArtifactsDoNotMatter(db, evident, InsertPage(before, r, n).value.artifacts, r, n + 1);
  }

  lemma {:induction false} PagesThrough(db: Db, r: Receipt, n: nat)
    requires InsertPages(db, r, n).Some?
    ensures Through(db, InsertPages(db, r, n).value, r, n, n)
  {
    hide Through, InsertPage;
    if n == 0 {
      NothingThrough(db, r);
    } else {
      PagesThrough(db, r, n - 1);
      PageThrough(db, InsertPages(db, r, n - 1).value, r, n - 1);
    }
  }

  lemma ArtifactsDoNotMatter(db: Db, e: Db, artifacts: map<ArtifactId, ArtifactRow>, r: Receipt, n: nat)
    requires Through(db, e, r, n, n)
    ensures Through(db, e.(artifacts := artifacts), r, n, n)
  {
  }

  /** What an accepted receipt writes: its source and discovery, its missing documents with queued
      jobs and evidence, and one row per crop that says of it what the receipt says; every other
      row stays as it was. */
  lemma CreateWrites(db: Db, files: Files, r: Receipt)
    requires SlotsUnique(db) && Create(db, files, r).Some?
    ensures var e := Create(db, files, r).value;
            SourceWritten(db, e, r) && PagesWritten(db, e, r) && CropsWritten(db, e, r)
  {
    var start := InsertSource(db, r);
    var e := Create(db, files, r).value;
    PagesThrough(start, r, r.pageCount);
    CreateAppliesAll(db, files, r);
    CreateIsPlus(db, files, r);
    assert Announced(start, r.source, r.pageCount) == Announced(db, r.source, r.pageCount) by {
      SameAnnouncements(db, start, r.source, r.pageCount);
    }
    hide InsertPages;
    assert SourceWritten(db, e, r) by {
      DiscoveryWritten(db, r);
      hide Plus, Grows, Applied;
    }
    assert PagesWritten(db, e, r) by {
      hide Plus, Grows, Applied, Announced, SourceWritten;
    }
    CropsAreWritten(db, e, r);
  }

  lemma {:induction false} SameAnnouncements(db: Db, start: Db, source: Bytes, n: nat)
    requires db.documents == start.documents
    ensures Announced(db, source, n) == Announced(start, source, n)
  {
    if n > 0 {
      SameAnnouncements(db, start, source, n - 1);
    }
  }

  lemma DiscoveryWritten(db: Db, r: Receipt)
    requires !SourceConflict(db, r)
    ensures SourceWritten(db, InsertSource(db, r), r)
  {
    if exists d :: d in db.discoveries && (d.receipt == r.id || d.observed == r.observed) {
      var d :| d in db.discoveries && (d.receipt == r.id || d.observed == r.observed);
      var i :| 0 <= i < |db.discoveries| && db.discoveries[i] == d;
      assert Known(db, r);
    }
  }

  lemma CropsAreWritten(db: Db, e: Db, r: Receipt)
    requires Applied(e, r) && Plus(db, e, r) && forall i | 0 <= i < |r.artifacts| :: r.artifacts[i].page < r.pageCount
    ensures CropsWritten(db, e, r)
  {
    hide Known;
    forall i | 0 <= i < |r.artifacts|
      ensures r.artifacts[i].id in e.artifacts && Describes(e.artifacts[r.artifacts[i].id], r, r.artifacts[i]) {
      assert PageIn(e, r, r.artifacts[i].page);
    }
    forall id | id in e.artifacts && id !in db.artifacts
      ensures exists i :: 0 <= i < |r.artifacts| && r.artifacts[i].id == id {
      assert OneOf(r, id, e.artifacts[id]);
    }
  }
}
