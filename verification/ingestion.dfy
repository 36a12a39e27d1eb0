/** Crash-safe ingestion. */
module Ingestion {
  // After ingestion.py, artifacts.py and storage.py.  File bytes stand for their own SHA-256
  // digest and size.  The two file stores are one map from paths to bytes; source, crop and
  // receipt paths never collide.  A database transaction is one atomic step.  Unique indexes are
  // those of migrations 001 and 002.  A job's state belongs to the queue and may change at any
  // time; ingestion only ever inserts a queued job.

  type Bytes = nat
  type Date = nat
  type ArtifactId = nat
  type ReceiptId = nat

  datatype Option<+T> = None | Some(value: T)

  datatype Path = SourcePath(bytes: Bytes) | CropPath(id: ArtifactId)
  type Files = map<Path, Bytes>

  datatype Document = Document(source: Bytes, page: nat)

  // slot stands for the kind and the field name of a crop.
  datatype Artifact = Artifact(id: ArtifactId, page: nat, slot: nat, bytes: Bytes, details: nat)

  datatype Observation = Observation(path: nat, size: nat, modified: nat)

  datatype Receipt = Receipt(
    id: ReceiptId, source: Bytes, mediaType: nat, observed: Observation, pageCount: nat, bundle: nat,
    serviceDate: Date, artifacts: seq<Artifact>, evidence: map<nat, nat>)

  // What reading a receipt file gives: unreadable, written before service dates, or whole.
  datatype ReceiptFile = Malformed | Legacy | Whole(receipt: Receipt)

  datatype SourceRow = SourceRow(mediaType: nat, serviceDate: Option<Date>)
  datatype Discovery = Discovery(source: Bytes, receipt: ReceiptId, observed: Observation)
  datatype JobRow = JobRow(bundle: nat, state: nat)
  datatype ArtifactRow = ArtifactRow(document: Document, bundle: nat, slot: nat, bytes: Bytes, details: nat)

  datatype Db = Db(
    sources: map<Bytes, SourceRow>, discoveries: seq<Discovery>, documents: set<Document>,
    jobs: map<Document, JobRow>, evidence: map<Document, nat>, artifacts: map<ArtifactId, ArtifactRow>,
    created: seq<Document>)

  datatype Disk = Disk(files: Files, receipts: seq<ReceiptFile>, db: Db)

  const QUEUED := 0

  // ------------------------------------------------------------------------------ the file store

  /** put_relative_bytes and promote_staged: write once, or verify what is there. */
  function Put(files: Files, path: Path, bytes: Bytes): Option<Files> {
    if path !in files then Some(files[path := bytes])
    else if files[path] == bytes then Some(files)
    else None
  }

  predicate Holds(files: Files, path: Path, bytes: Bytes) {
    path in files && files[path] == bytes
  }

  predicate CropsHeld(files: Files, r: Receipt) {
    forall i | 0 <= i < |r.artifacts| :: Holds(files, CropPath(r.artifacts[i].id), r.artifacts[i].bytes)
  }

  // ------------------------------------------------------------------------- the transaction

  function RowOf(r: Receipt, a: Artifact): ArtifactRow {
    ArtifactRow(Document(r.source, a.page), r.bundle, a.slot, a.bytes, a.details)
  }

  predicate SlotTaken(db: Db, row: ArtifactRow) {
    exists id | id in db.artifacts :: SameSlot(db.artifacts[id], row)
  }

  predicate SameSlot(a: ArtifactRow, b: ArtifactRow) {
    a.document == b.document && a.bundle == b.bundle && a.slot == b.slot
  }

  function InsertArtifact(db: Db, r: Receipt, a: Artifact): Option<Db> {
    if a.id in db.artifacts then if db.artifacts[a.id] == RowOf(r, a) then Some(db) else None
    else if SlotTaken(db, RowOf(r, a)) then None
    else Some(db.(artifacts := db.artifacts[a.id := RowOf(r, a)]))
  }

  /** The first k artifacts, those of one page. */
  function InsertArtifacts(db: Db, r: Receipt, page: nat, k: nat): Option<Db>
    requires k <= |r.artifacts|
  {
    if k == 0 then Some(db)
    else
      var before := InsertArtifacts(db, r, page, k - 1);
      if before.None? then None
      else if r.artifacts[k - 1].page != page then before
      else InsertArtifact(before.value, r, r.artifacts[k - 1])
  }

  function InsertEvidence(db: Db, r: Receipt, page: nat): Option<Db> {
    var doc := Document(r.source, page);
    if page !in r.evidence then Some(db)
    else if doc in db.evidence then if db.evidence[doc] == r.evidence[page] then Some(db) else None
    else Some(db.(evidence := db.evidence[doc := r.evidence[page]]))
  }

  function InsertDocument(db: Db, r: Receipt, page: nat): Option<Db> {
    var doc := Document(r.source, page);
    if doc in db.jobs && db.jobs[doc].bundle != r.bundle then None
    else Some(db.(
           documents := db.documents + {doc},
           jobs := if doc in db.jobs then db.jobs else db.jobs[doc := JobRow(r.bundle, QUEUED)],
           created := if doc in db.documents then db.created else db.created + [doc]))
  }

  function InsertPage(db: Db, r: Receipt, page: nat): Option<Db> {
    var placed := InsertDocument(db, r, page);
    if placed.None? then None
    else
      var evident := InsertEvidence(placed.value, r, page);
      if evident.None? then None else InsertArtifacts(evident.value, r, page, |r.artifacts|)
  }

  function InsertPages(db: Db, r: Receipt, n: nat): Option<Db> {
    if n == 0 then Some(db)
    else
      var before := InsertPages(db, r, n - 1);
      if before.None? then None else InsertPage(before.value, r, n - 1)
  }

  predicate Known(db: Db, r: Receipt) {
    exists i | 0 <= i < |db.discoveries| :: db.discoveries[i].receipt == r.id || db.discoveries[i].observed == r.observed
  }

  predicate SourceConflict(db: Db, r: Receipt) {
    r.source in db.sources
    && (db.sources[r.source].mediaType != r.mediaType
        || (db.sources[r.source].serviceDate.Some? && db.sources[r.source].serviceDate != Some(r.serviceDate)))
  }

  /** The source row keeps the date it has; the discovery is ignored if already known. */
  function InsertSource(db: Db, r: Receipt): Db {
    var row := if r.source in db.sources && db.sources[r.source].serviceDate.Some?
               then db.sources[r.source]
               else SourceRow(r.mediaType, Some(r.serviceDate));
    db.(sources := db.sources[r.source := row],
        discoveries := if Known(db, r) then db.discoveries
                       else db.discoveries + [Discovery(r.source, r.id, r.observed)])
  }

  predicate WellFormed(files: Files, r: Receipt) {
    && r.pageCount >= 1
    && (forall i | 0 <= i < |r.artifacts| :: r.artifacts[i].page < r.pageCount)
    && (forall p | p in r.evidence :: p < r.pageCount)
    && CropsHeld(files, r)
  }

  /** create_source_documents_jobs: all of it or nothing. */
  function Create(db: Db, files: Files, r: Receipt): Option<Db> {
    if !WellFormed(files, r) then None
    else if SourceConflict(db, r) then None
    else InsertPages(InsertSource(db, r), r, r.pageCount)
  }

  // ------------------------------------------------------------------------------ start-up

  datatype Report = Report(db: Db, replayed: nat, incomplete: nat, legacy: nat)

  /** One receipt: verify the source, then create everything again. */
  function Replay(db: Db, files: Files, f: ReceiptFile, maxPages: nat): Option<Db> {
    if !f.Whole? then None
    else if !Holds(files, SourcePath(f.receipt.source), f.receipt.source) || f.receipt.pageCount > maxPages then None
    else Create(db, files, f.receipt)
  }

  function Next(report: Report, files: Files, f: ReceiptFile, maxPages: nat): Report {
    if f.Legacy? then report.(legacy := report.legacy + 1)
    else
      match Replay(report.db, files, f, maxPages)
      case None => report.(incomplete := report.incomplete + 1)
      case Some(db) => report.(db := db, replayed := report.replayed + 1)
  }

  function Reconcile(db: Db, files: Files, receipts: seq<ReceiptFile>, maxPages: nat): Report {
    if receipts == [] then Report(db, 0, 0, 0)
    else
      var n := |receipts| - 1;
      Next(Reconcile(db, files, receipts[..n], maxPages), files, receipts[n], maxPages)
  }

  // ------------------------------------------------------------------------- the mutable object

  class IngestionService {
    const maxPages: nat
    var files: Files
    var receipts: seq<ReceiptFile>
    var db: Db

    constructor (maxPages: nat, disk: Disk)
      ensures this.maxPages == maxPages && Disk(files, receipts, db) == disk
    {
      this.maxPages := maxPages;
      files, receipts, db := disk.files, disk.receipts, disk.db;
    }

    /** The rows of one page; on a refusal the caller restores what it saved. */
    method CreatePage(r: Receipt, page: nat) returns (ok: bool)
      modifies this`db
      ensures match InsertPage(old(db), r, page)
              case None => !ok
              case Some(after) => ok && db == after
    {
      var placed := InsertDocument(db, r, page);
      if placed.None? {
        return false;
      }
      var evident := InsertEvidence(placed.value, r, page);
      if evident.None? {
        return false;
      }
      db := evident.value;
      for k := 0 to |r.artifacts|
        invariant InsertArtifacts(evident.value, r, page, k) == Some(db)
      {
        if r.artifacts[k].page == page {
          var next := InsertArtifact(db, r, r.artifacts[k]);
          if next.None? {
            ArtifactsStayRefused(evident.value, r, page, k + 1);
            return false;
          }
          db := next.value;
        }
      }
      return true;
    }

    method CreateSourceDocumentsJobs(r: Receipt) returns (ok: bool)
      modifies this`db
      ensures match Create(old(db), files, r)
              case None => !ok && db == old(db)
              case Some(after) => ok && db == after
    {
      if !WellFormed(files, r) || SourceConflict(db, r) {
        return false;
      }
      var saved := db;
      db := InsertSource(db, r);
      ghost var start := db;
      for page := 0 to r.pageCount
        invariant InsertPages(start, r, page) == Some(db)
      {
        var placed := CreatePage(r, page);
        if !placed {
          PagesStayRefused(start, r, page + 1);
          db := saved;
          return false;
        }
      }
      return true;
    }

    method ReconcileStartup() returns (replayed: nat, incomplete: nat, legacy: nat)
      modifies this`db
      ensures Report(db, replayed, incomplete, legacy) == Reconcile(old(db), files, receipts, maxPages)
    {
      replayed, incomplete, legacy := 0, 0, 0;
      for k := 0 to |receipts|
        invariant Report(db, replayed, incomplete, legacy) == Reconcile(old(db), files, receipts[..k], maxPages)
      {
        assert receipts[..k + 1][..k] == receipts[..k];
        var f := receipts[k];
        if f.Legacy? {
          legacy := legacy + 1;
          continue;
        }
        if f.Malformed? || !Holds(files, SourcePath(f.receipt.source), f.receipt.source) || f.receipt.pageCount > maxPages {
          incomplete := incomplete + 1;
          continue;
        }
        var ok := CreateSourceDocumentsJobs(f.receipt);
        if ok {
          replayed := replayed + 1;
        } else {
          incomplete := incomplete + 1;
        }
      }
      assert receipts[..|receipts|] == receipts;
    }

    /** The durable order: crops, then the receipt, then the source, then the transaction.  place
        is where the receipt's random name sorts. */
    method Ingest(r: Receipt, place: nat) returns (ok: bool)
      requires place <= |receipts|
      modifies this
      ensures var done := AfterSteps(old(Disk(files, receipts, db)), r, place, |r.artifacts| + 3);
              Disk(files, receipts, db) == done.disk && ok == done.alive
    {
      ghost var start := Disk(files, receipts, db);
      for k := 0 to |r.artifacts|
        invariant AfterSteps(start, r, place, k) == Progress(Disk(files, receipts, db), true)
        invariant receipts == old(receipts)
      {
        var stored := Put(files, CropPath(r.artifacts[k].id), r.artifacts[k].bytes);
        if stored.None? {
          AbortedStays(start, r, place, k + 1, |r.artifacts| + 3);
          return false;
        }
        files := stored.value;
      }
      receipts := receipts[..place] + [Whole(r)] + receipts[place..];
      var promoted := Put(files, SourcePath(r.source), r.source);
      if promoted.None? {
        AbortedStays(start, r, place, |r.artifacts| + 2, |r.artifacts| + 3);
        return false;
      }
      files := promoted.value;
      assert AfterSteps(start, r, place, |r.artifacts| + 2) == Progress(Disk(files, receipts, db), true);
      ok := CreateSourceDocumentsJobs(r);
    }
  }

  datatype Progress = Progress(disk: Disk, alive: bool)

  /** The j-th durable step of ingest. */
  function DurableStep(disk: Disk, r: Receipt, place: nat, j: nat): Progress
    requires j < |r.artifacts| + 3 && place <= |disk.receipts|
  {
    if j < |r.artifacts| then
      match Put(disk.files, CropPath(r.artifacts[j].id), r.artifacts[j].bytes)
      case None => Progress(disk, false)
      case Some(files) => Progress(disk.(files := files), true)
    else if j == |r.artifacts| then
      Progress(disk.(receipts := disk.receipts[..place] + [Whole(r)] + disk.receipts[place..]), true)
    else if j == |r.artifacts| + 1 then
      match Put(disk.files, SourcePath(r.source), r.source)
      case None => Progress(disk, false)
      case Some(files) => Progress(disk.(files := files), true)
    else
      match Create(disk.db, disk.files, r)
      case None => Progress(disk, false)
      case Some(db) => Progress(disk.(db := db), true)
  }

  /** What is on disk after k durable steps, or up to the first that failed. */
  function AfterSteps(disk: Disk, r: Receipt, place: nat, k: nat): (p: Progress)
    requires k <= |r.artifacts| + 3 && place <= |disk.receipts|
    ensures |p.disk.receipts| >= |disk.receipts|
  {
    if k == 0 then Progress(disk, true)
    else
      var before := AfterSteps(disk, r, place, k - 1);
      if before.alive then DurableStep(before.disk, r, place, k - 1) else before
  }

  lemma {:induction false} AbortedStays(disk: Disk, r: Receipt, place: nat, j: nat, k: nat)
    requires j <= k <= |r.artifacts| + 3 && place <= |disk.receipts| && !AfterSteps(disk, r, place, j).alive
    ensures AfterSteps(disk, r, place, k) == AfterSteps(disk, r, place, j)
  {
    if j < k {
      AbortedStays(disk, r, place, j, k - 1);
    }
  }

  lemma {:induction false} PagesStayRefused(db: Db, r: Receipt, n: nat)
    requires n <= r.pageCount && InsertPages(db, r, n).None?
    ensures InsertPages(db, r, r.pageCount).None?
    decreases r.pageCount - n
  {
    if n < r.pageCount {
      PagesStayRefused(db, r, n + 1);
    }
  }

  lemma {:induction false} ArtifactsStayRefused(db: Db, r: Receipt, page: nat, k: nat)
    requires k <= |r.artifacts| && InsertArtifacts(db, r, page, k).None?
    ensures InsertArtifacts(db, r, page, |r.artifacts|).None?
    decreases |r.artifacts| - k
  {
    if k < |r.artifacts| {
      ArtifactsStayRefused(db, r, page, k + 1);
    }
  }
}
