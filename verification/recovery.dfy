/** What a start-up enters. */
module Recovery {
  // After ingestion.py.  Receipts are replayed in the order of their random names.  A crash can
  // leave a receipt whose source never arrived; it waits, and the same bytes may be ingested again
  // before it is entered.  So the results below speak of any disk, and say which receipts get in.

  import opened Ingestion
  import opened IngestionLaws

  // ------------------------------------------------------------------------ settled receipts

  function ReplayOrKeep(db: Db, files: Files, f: ReceiptFile, maxPages: nat): Db {
    match Replay(db, files, f, maxPages)
    case None => db
    case Some(e) => e
  }

  /** Replaying this file changes nothing. */
  ghost predicate SettledFile(db: Db, files: Files, f: ReceiptFile, maxPages: nat) {
    f.Whole? ==> Replay(db, files, f, maxPages).None? || Applied(db, f.receipt)
  }

  ghost predicate Settled(db: Db, files: Files, receipts: seq<ReceiptFile>, maxPages: nat) {
    forall i | 0 <= i < |receipts| :: SettledFile(db, files, receipts[i], maxPages)
  }

  lemma SettledPersists(db: Db, e: Db, files: Files, f: ReceiptFile, maxPages: nat)
    requires SettledFile(db, files, f, maxPages) && Extends(db, e) && SlotsUnique(e)
    ensures SettledFile(e, files, f, maxPages)
  {
    if f.Whole? {
      if Replay(db, files, f, maxPages).None? {
        if Create(db, files, f.receipt).None? {
          RefusalPersists(db, e, files, f.receipt);
        }
      } else {
        AppliedPersists(db, e, f.receipt);
      }
    }
  }

  lemma SettledIsNoOp(db: Db, files: Files, f: ReceiptFile, maxPages: nat)
    requires SettledFile(db, files, f, maxPages)
    ensures ReplayOrKeep(db, files, f, maxPages) == db
  {
    hide Applied;
    if f.Whole? && Replay(db, files, f, maxPages).Some? {
      ReplayChangesNothing(db, files, f.receipt);
    }
  }

  lemma ReplaySettles(db: Db, files: Files, f: ReceiptFile, maxPages: nat)
    requires SlotsUnique(db)
    ensures var e := ReplayOrKeep(db, files, f, maxPages);
            Extends(db, e) && SlotsUnique(e) && SettledFile(e, files, f, maxPages)
  {
    if f.Whole? && Replay(db, files, f, maxPages).Some? {
      CreateAppliesAll(db, files, f.receipt);
    }
  }

  /** One start-up settles every receipt on disk. */
  lemma {:induction false} ReconcileSettles(db: Db, files: Files, receipts: seq<ReceiptFile>, maxPages: nat)
    requires SlotsUnique(db)
    ensures var e := Reconcile(db, files, receipts, maxPages).db;
            Extends(db, e) && SlotsUnique(e) && Settled(e, files, receipts, maxPages)
  {
    if receipts == [] {
      hide Grows, SlotsUnique;
      GrowsItself(db);
    } else {
      hide *;
      var n := |receipts| - 1;
      ReconcileSettles(db, files, receipts[..n], maxPages);
      var before := Reconcile(db, files, receipts[..n], maxPages).db;
      var e := Reconcile(db, files, receipts, maxPages).db;
      LastReplay(db, files, receipts, maxPages);
      ReplaySettles(before, files, receipts[n], maxPages);
      StillSettled(before, e, files, receipts, maxPages);
      ExtendsFurther(db, before, e);
    }
  }

  lemma StillSettled(before: Db, e: Db, files: Files, receipts: seq<ReceiptFile>, maxPages: nat)
    requires receipts != [] && Extends(before, e) && SlotsUnique(e)
    requires Settled(before, files, receipts[..|receipts| - 1], maxPages)
    requires SettledFile(e, files, receipts[|receipts| - 1], maxPages)
    ensures Settled(e, files, receipts, maxPages)
  {
    hide Extends, SlotsUnique, SettledFile;
    forall i | 0 <= i < |receipts| ensures SettledFile(e, files, receipts[i], maxPages) {
      if i < |receipts| - 1 {
        assert SettledFile(before, files, receipts[..|receipts| - 1][i], maxPages);
        SettledPersists(before, e, files, receipts[i], maxPages);
      }
    }
  }

  /** Those of the files that P holds of, in order. */
  ghost function Those(receipts: seq<ReceiptFile>, P: ReceiptFile -> bool): seq<ReceiptFile> {
    if receipts == [] then []
    else
      var n := |receipts| - 1;
      Those(receipts[..n], P) + (if P(receipts[n]) then [receipts[n]] else [])
  }

  /** Settled files can be left out of a start-up without any difference to the database. */
  lemma {:induction false} OnlyTheRestMatters(db: Db, files: Files, receipts: seq<ReceiptFile>, P: ReceiptFile -> bool, maxPages: nat)
    requires SlotsUnique(db)
    requires forall i | 0 <= i < |receipts| && !P(receipts[i]) :: SettledFile(db, files, receipts[i], maxPages)
    ensures Reconcile(db, files, receipts, maxPages).db == Reconcile(db, files, Those(receipts, P), maxPages).db
  {
    if receipts != [] {
      var n := |receipts| - 1;
      OnlyTheRestMatters(db, files, receipts[..n], P, maxPages);
      ReconcileSettles(db, files, receipts[..n], maxPages);
      var before := Reconcile(db, files, receipts[..n], maxPages).db;
      var rest := Those(receipts, P);
      if P(receipts[n]) {
        assert rest[..|rest| - 1] == Those(receipts[..n], P);
        hide *;
        LastReplay(db, files, receipts, maxPages);
        LastReplay(db, files, rest, maxPages);
      } else {
        assert rest == Those(receipts[..n], P);
        hide *;
        SettledPersists(db, before, files, receipts[n], maxPages);
        SettledIsNoOp(before, files, receipts[n], maxPages);
        LastReplay(db, files, receipts, maxPages);
      }
    }
  }

  lemma LastReplay(db: Db, files: Files, receipts: seq<ReceiptFile>, maxPages: nat)
    requires receipts != []
    ensures var n := |receipts| - 1;
            Reconcile(db, files, receipts, maxPages).db
            == ReplayOrKeep(Reconcile(db, files, receipts[..n], maxPages).db, files, receipts[n], maxPages)
  {
    hide Create;
  }

  lemma SettledReconcileIsNoOp(db: Db, files: Files, receipts: seq<ReceiptFile>, maxPages: nat)
    requires SlotsUnique(db) && Settled(db, files, receipts, maxPages)
    ensures Reconcile(db, files, receipts, maxPages).db == db
  {
    OnlyTheRestMatters(db, files, receipts, (f: ReceiptFile) => false, maxPages);
    NoneOfThem(receipts);
  }

  lemma {:induction false} NoneOfThem(receipts: seq<ReceiptFile>)
    ensures Those(receipts, (f: ReceiptFile) => false) == []
  {
    if receipts != [] {
      NoneOfThem(receipts[..|receipts| - 1]);
    }
  }

  /** A start-up changes the database exactly when some receipt on disk is not settled. */
  lemma StartUpIsIdleExactlyWhen(db: Db, files: Files, receipts: seq<ReceiptFile>, maxPages: nat)
    requires SlotsUnique(db)
    ensures Reconcile(db, files, receipts, maxPages).db == db <==> Settled(db, files, receipts, maxPages)
  {
    ReconcileSettles(db, files, receipts, maxPages);
    if Settled(db, files, receipts, maxPages) {
      SettledReconcileIsNoOp(db, files, receipts, maxPages);
    }
  }

  /** Further start-ups with no ingestion between them change nothing, however far the queue has
      taken the jobs meanwhile. */
  lemma RepeatedStartUpIsIdle(db: Db, files: Files, receipts: seq<ReceiptFile>, later: Db, maxPages: nat)
    requires SlotsUnique(db) && SlotsUnique(later)
    requires Extends(Reconcile(db, files, receipts, maxPages).db, later)
    ensures Reconcile(later, files, receipts, maxPages).db == later
  {
    ReconcileSettles(db, files, receipts, maxPages);
    var e := Reconcile(db, files, receipts, maxPages).db;
    forall i | 0 <= i < |receipts| ensures SettledFile(later, files, receipts[i], maxPages) {
      assert SettledFile(e, files, receipts[i], maxPages);
      SettledPersists(e, later, files, receipts[i], maxPages);
    }
    SettledReconcileIsNoOp(later, files, receipts, maxPages);
  }

  // ----------------------------------------------------------------- which receipts get in

  predicate Ready(files: Files, f: ReceiptFile, maxPages: nat) {
    f.Whole? && Holds(files, SourcePath(f.receipt.source), f.receipt.source) && f.receipt.pageCount <= maxPages
  }

  ghost predicate FitsAll(rs: seq<Receipt>, r: Receipt) {
    forall q | q in rs :: Compatible(q, r)
  }

  /** The receipts a start-up enters, judged by the database it starts from: in order, those that
      are ready and acceptable and compatible with every one entered before. */
  ghost function Entered(db: Db, files: Files, receipts: seq<ReceiptFile>, maxPages: nat): seq<Receipt> {
    if receipts == [] then []
    else
      var n := |receipts| - 1;
      var before := Entered(db, files, receipts[..n], maxPages);
      if Ready(files, receipts[n], maxPages) && Create(db, files, receipts[n].receipt).Some?
         && FitsAll(before, receipts[n].receipt)
      then before + [receipts[n].receipt]
      else before
  }

  ghost function EnterAll(db: Db, files: Files, rs: seq<Receipt>): Option<Db> {
    if rs == [] then Some(db)
    else
      var before := EnterAll(db, files, rs[..|rs| - 1]);
      if before.None? then None else Create(before.value, files, rs[|rs| - 1])
  }

  lemma {:induction false} EnterAllApplies(db: Db, files: Files, rs: seq<Receipt>)
    requires SlotsUnique(db) && EnterAll(db, files, rs).Some?
    ensures var e := EnterAll(db, files, rs).value;
            SlotsUnique(e) && Extends(db, e) && forall q | q in rs :: Applied(e, q)
  {
    if rs != [] {
      var n := |rs| - 1;
      EnterAllApplies(db, files, rs[..n]);
      var before := EnterAll(db, files, rs[..n]).value;
      CreateAppliesAll(before, files, rs[n]);
      var e := EnterAll(db, files, rs).value;
      hide Applied, SlotsUnique, Create;
      forall q | q in rs ensures Applied(e, q) {
        if q in rs[..n] {
          AppliedPersists(before, e, q);
        }
      }
    }
  }

  lemma EnterAllLast(db: Db, files: Files, rs: seq<Receipt>)
    requires rs != [] && EnterAll(db, files, rs).Some?
    ensures EnterAll(db, files, rs[..|rs| - 1]).Some?
    ensures Create(EnterAll(db, files, rs[..|rs| - 1]).value, files, rs[|rs| - 1]) == EnterAll(db, files, rs)
  {
  }

  lemma FitsAllLast(rs: seq<Receipt>, r: Receipt)
    requires rs != []
    ensures FitsAll(rs, r) <==> FitsAll(rs[..|rs| - 1], r) && Compatible(rs[|rs| - 1], r)
  {
    assert rs == rs[..|rs| - 1] + [rs[|rs| - 1]];
    hide Compatible;
  }

  /** After a list of receipts, one more is accepted exactly when the first database accepted it
      and it is compatible with all of them. */
  lemma {:induction false} AcceptedAfterAllExactlyWhen(db: Db, files: Files, rs: seq<Receipt>, r: Receipt)
    requires SlotsUnique(db) && EnterAll(db, files, rs).Some?
    ensures Create(EnterAll(db, files, rs).value, files, r).Some? <==> Create(db, files, r).Some? && FitsAll(rs, r)
  {
    if rs == [] {
      hide Create;
    } else {
      hide *;
      var n := |rs| - 1;
      EnterAllLast(db, files, rs);
      AcceptedAfterAllExactlyWhen(db, files, rs[..n], r);
      EnterAllApplies(db, files, rs[..n]);
      AcceptedAfterExactlyWhen(EnterAll(db, files, rs[..n]).value, EnterAll(db, files, rs).value, files, rs[n], r);
      FitsAllLast(rs, r);
    }
  }

  function NotLegacy(receipts: seq<ReceiptFile>): nat {
    if receipts == [] then 0
    else NotLegacy(receipts[..|receipts| - 1]) + (if receipts[|receipts| - 1].Legacy? then 0 else 1)
  }

  /** On any disk a start-up enters exactly those receipts, in order, and counts every other one
      that is not a legacy receipt as incomplete. */
  lemma {:induction false} StartUpEntersExactly(db: Db, files: Files, receipts: seq<ReceiptFile>, maxPages: nat)
    requires SlotsUnique(db)
    ensures var report := Reconcile(db, files, receipts, maxPages);
            var entered := Entered(db, files, receipts, maxPages);
            && EnterAll(db, files, entered) == Some(report.db)
            && report.replayed == |entered|
            && report.replayed + report.incomplete == NotLegacy(receipts)
            && (forall q | q in entered :: Applied(report.db, q))
  {
    if receipts != [] {
      var n := |receipts| - 1;
      StartUpEntersExactly(db, files, receipts[..n], maxPages);
      var before := Entered(db, files, receipts[..n], maxPages);
      hide Applied, SlotsUnique, Create, FitsAll, WellFormed;
      if Ready(files, receipts[n], maxPages) {
        AcceptedAfterAllExactlyWhen(db, files, before, receipts[n].receipt);
      }
      var entered := Entered(db, files, receipts, maxPages);
      assert entered == before || entered[..|entered| - 1] == before;
      EnterAllApplies(db, files, entered);
    }
  }

  lemma {:induction false} LegacyAreCounted(db: Db, files: Files, receipts: seq<ReceiptFile>, maxPages: nat)
    ensures Reconcile(db, files, receipts, maxPages).legacy + NotLegacy(receipts) == |receipts|
  {
    hide Replay;
    if receipts != [] {
      LegacyAreCounted(db, files, receipts[..|receipts| - 1], maxPages);
    }
  }

  lemma {:induction false} StartUpGoesOn(db: Db, files: Files, receipts: seq<ReceiptFile>, k: nat, maxPages: nat)
    requires SlotsUnique(db) && k <= |receipts|
    ensures Extends(Reconcile(db, files, receipts[..k], maxPages).db, Reconcile(db, files, receipts, maxPages).db)
  {
    var n := |receipts| - 1;
    ReconcileSettles(db, files, receipts[..k], maxPages);
    var reached := Reconcile(db, files, receipts[..k], maxPages).db;
    if k == |receipts| {
      assert receipts[..k] == receipts;
      hide *;
      ExtendsItself(reached);
    } else {
      assert receipts[..n][..k] == receipts[..k];
      var before := Reconcile(db, files, receipts[..n], maxPages).db;
      hide *;
      StartUpGoesOn(db, files, receipts[..n], k, maxPages);
      ReconcileSettles(db, files, receipts[..n], maxPages);
      ReplaySettles(before, files, receipts[n], maxPages);
      LastReplay(db, files, receipts, maxPages);
      ExtendsFurther(reached, before, Reconcile(db, files, receipts, maxPages).db);
    }
  }

  lemma ExtendsItself(db: Db)
    ensures Extends(db, db)
  {
  }

  lemma ExtendsFurther(db: Db, e: Db, f: Db)
    requires Extends(db, e) && Extends(e, f)
    ensures Extends(db, f)
  {
    GrowsFurther(db, e, f);
    hide Grows;
  }

  /** The receipt at one place is in the database after the start-up exactly when the database it
      began with accepts it and it is compatible with those entered before it.  Settled receipts,
      those that P does not hold of, need not be looked at. */
  lemma EnteredExactlyWhen(db: Db, files: Files, receipts: seq<ReceiptFile>, P: ReceiptFile -> bool, place: nat, maxPages: nat)
    requires SlotsUnique(db) && place < |receipts| && Ready(files, receipts[place], maxPages)
    requires forall i | 0 <= i < |receipts| && !P(receipts[i]) :: SettledFile(db, files, receipts[i], maxPages)
    ensures var r := receipts[place].receipt;
            WellFormed(files, r) && Applied(Reconcile(db, files, receipts, maxPages).db, r)
            <==> Create(db, files, r).Some?
                 && FitsAll(Entered(db, files, Those(receipts[..place], P), maxPages), r)
  {
    var r := receipts[place].receipt;
    var earlier := Those(receipts[..place], P);
    OnlyTheRestMatters(db, files, receipts[..place], P, maxPages);
    StartUpEntersExactly(db, files, earlier, maxPages);
    AcceptedAfterAllExactlyWhen(db, files, Entered(db, files, earlier, maxPages), r);
    StartUpAppliesExactlyWhen(db, files, receipts, place, maxPages);
  }

  lemma StartUpAppliesExactlyWhen(db: Db, files: Files, receipts: seq<ReceiptFile>, place: nat, maxPages: nat)
    requires SlotsUnique(db) && place < |receipts| && Ready(files, receipts[place], maxPages)
    ensures var r := receipts[place].receipt;
            WellFormed(files, r) && Applied(Reconcile(db, files, receipts, maxPages).db, r)
            <==> Create(Reconcile(db, files, receipts[..place], maxPages).db, files, r).Some?
  {
    var r := receipts[place].receipt;
    var reached := Reconcile(db, files, receipts[..place], maxPages).db;
    var final := Reconcile(db, files, receipts, maxPages).db;
    ReconcileSettles(db, files, receipts[..place], maxPages);
    ReconcileSettles(db, files, receipts, maxPages);
    StartUpGoesOn(db, files, receipts, place, maxPages);
    if Create(reached, files, r).Some? {
      assert receipts[..place + 1][..place] == receipts[..place];
      StartUpGoesOn(db, files, receipts, place + 1, maxPages);
      CreateAppliesAll(reached, files, r);
      hide Applied, Extends, Create, SlotsUnique;
      LastReplay(db, files, receipts[..place + 1], maxPages);
      AppliedPersists(Create(reached, files, r).value, final, r);
    } else if WellFormed(files, r) && Applied(final, r) {
      hide Applied, Create, SlotsUnique, Reconcile, Grows;
      RefusalPersists(reached, final, files, r);
      ReplayChangesNothing(final, files, r);
    }
  }

  // -------------------------------------------------------------------- what the disk always is

  ghost predicate DiscoveredOnce(found: seq<Discovery>) {
    forall i, j | 0 <= i < j < |found| :: found[i].receipt != found[j].receipt && found[i].observed != found[j].observed
  }

  ghost predicate AnnouncedOnce(documents: set<Document>, created: seq<Document>) {
    && (forall d :: d in documents <==> d in created)
    && (forall i, j | 0 <= i < j < |created| :: created[i] != created[j])
  }

  ghost predicate DbOk(db: Db) {
    && SlotsUnique(db)
    && DiscoveredOnce(db.discoveries)
    && db.documents == db.jobs.Keys
    && AnnouncedOnce(db.documents, db.created)
  }

  ghost predicate FilesOk(disk: Disk) {
    && (forall b | SourcePath(b) in disk.files :: disk.files[SourcePath(b)] == b)
    && (forall i | 0 <= i < |disk.receipts| && disk.receipts[i].Whole? :: CropsHeld(disk.files, disk.receipts[i].receipt))
  }

  /** A source file holds its own bytes; every receipt has its crops; no two discoveries share a
      receipt or an observation; each document has one job and was announced once. */
  ghost predicate DiskOk(disk: Disk) {
    DbOk(disk.db) && FilesOk(disk)
  }

  lemma DocumentKeepsDb(db: Db, r: Receipt, page: nat)
    requires InsertDocument(db, r, page).Some? && db.documents == db.jobs.Keys && AnnouncedOnce(db.documents, db.created)
    ensures var e := InsertDocument(db, r, page).value;
            e.documents == e.jobs.Keys && AnnouncedOnce(e.documents, e.created)
  {
    var e := InsertDocument(db, r, page).value;
    AnnounceOne(db.documents, db.created, Document(r.source, page));
    hide AnnouncedOnce;
  }

  lemma AnnounceOne(documents: set<Document>, created: seq<Document>, d: Document)
    requires AnnouncedOnce(documents, created)
    ensures AnnouncedOnce(documents + {d}, if d in documents then created else created + [d])
  {
    if d in documents {
      assert documents + {d} == documents;
    }
  }

  lemma EvidenceKeepsRest(db: Db, r: Receipt, page: nat)
    requires InsertEvidence(db, r, page).Some?
    ensures var e := InsertEvidence(db, r, page).value;
            e.documents == db.documents && e.jobs == db.jobs && e.created == db.created
  {
  }

  lemma PageKeepsDb(db: Db, r: Receipt, page: nat)
    requires DbOk(db) && InsertPage(db, r, page).Some?
    ensures DbOk(InsertPage(db, r, page).value)
  {
    hide InsertDocument, InsertEvidence, InsertArtifacts, SlotsUnique, Grows, PageIn, DiscoveredOnce, AnnouncedOnce;
    PageAdds(db, r, page);
    DocumentKeepsDb(db, r, page);
    var placed := InsertDocument(db, r, page).value;
    EvidenceKeepsRest(placed, r, page);
    ArtifactsKeepRest(InsertEvidence(placed, r, page).value, r, page, |r.artifacts|);
  }

  lemma {:induction false} PagesKeepDb(db: Db, r: Receipt, n: nat)
    requires DbOk(db) && InsertPages(db, r, n).Some?
    ensures DbOk(InsertPages(db, r, n).value)
  {
    hide DbOk, InsertPage;
    if n > 0 {
      PagesKeepDb(db, r, n - 1);
      PageKeepsDb(InsertPages(db, r, n - 1).value, r, n - 1);
    }
  }

  lemma CreateKeepsDb(db: Db, files: Files, r: Receipt)
    requires DbOk(db) && Create(db, files, r).Some?
    ensures DbOk(Create(db, files, r).value)
  {
    var start := InsertSource(db, r);
    assert DiscoveredOnce(start.discoveries);
    PagesKeepDb(start, r, r.pageCount);
  }

  lemma {:induction false} ReconcileKeepsDb(db: Db, files: Files, receipts: seq<ReceiptFile>, maxPages: nat)
    requires DbOk(db)
    ensures DbOk(Reconcile(db, files, receipts, maxPages).db)
  {
    hide DbOk, Create;
    if receipts != [] {
      var n := |receipts| - 1;
      ReconcileKeepsDb(db, files, receipts[..n], maxPages);
      var before := Reconcile(db, files, receipts[..n], maxPages).db;
      if Replay(before, files, receipts[n], maxPages).Some? {
        CreateKeepsDb(before, files, receipts[n].receipt);
      }
    }
  }

  // ------------------------------------------------------------------------------ crash and restart

  function DiskAfter(disk: Disk, r: Receipt, place: nat, k: nat): Disk
    requires k <= |r.artifacts| + 3 && place <= |disk.receipts|
  {
    AfterSteps(disk, r, place, k).disk
  }

  ghost predicate FilesGrow(files: Files, more: Files) {
    forall p | p in files :: p in more && more[p] == files[p]
  }

  ghost predicate CropsStored(files: Files, r: Receipt, k: nat) {
    forall i | 0 <= i < |r.artifacts| && i < k :: Holds(files, CropPath(r.artifacts[i].id), r.artifacts[i].bytes)
  }

  function WithReceipt(receipts: seq<ReceiptFile>, place: nat, f: ReceiptFile): seq<ReceiptFile>
    requires place <= |receipts|
  {
    receipts[..place] + [f] + receipts[place..]
  }

  predicate Recorded(disk: Disk, r: Receipt, place: nat, k: nat)
    requires k <= |r.artifacts| + 3 && place <= |disk.receipts|
  {
    |DiskAfter(disk, r, place, k).receipts| > |disk.receipts|
  }

  predicate Promoted(disk: Disk, r: Receipt, place: nat, k: nat)
    requires k <= |r.artifacts| + 3 && place <= |disk.receipts|
  {
    SourcePath(r.source) in DiskAfter(disk, r, place, k).files
  }

  lemma {:induction false} StepsAdd(disk: Disk, r: Receipt, place: nat, k: nat)
    requires k <= |r.artifacts| + 3 && place <= |disk.receipts| && FilesOk(disk)
    ensures var p := AfterSteps(disk, r, place, k);
            && FilesGrow(disk.files, p.disk.files)
            && (forall b | SourcePath(b) in p.disk.files :: p.disk.files[SourcePath(b)] == b)
            && (forall b | SourcePath(b) in p.disk.files && SourcePath(b) !in disk.files :: b == r.source && Recorded(disk, r, place, k))
            && p.disk.receipts == (if Recorded(disk, r, place, k) then WithReceipt(disk.receipts, place, Whole(r)) else disk.receipts)
            && (p.alive ==> CropsStored(p.disk.files, r, k))
            && (Recorded(disk, r, place, k) ==> CropsHeld(p.disk.files, r))
            && (p.disk.db == disk.db
                || (Create(disk.db, p.disk.files, r) == Some(p.disk.db) && Recorded(disk, r, place, k) && Promoted(disk, r, place, k)))
            && (p.alive && k > |r.artifacts| + 1 ==> Promoted(disk, r, place, k))
            && (p.alive && k <= |r.artifacts| + 2 ==> p.disk.db == disk.db)
            && (p.alive ==> (Recorded(disk, r, place, k) <==> k > |r.artifacts|))
  {
    hide Create;
    if k > 0 {
      StepsAdd(disk, r, place, k - 1);
    }
  }

  lemma CropsStayHeld(files: Files, more: Files, r: Receipt)
    requires CropsHeld(files, r) && FilesGrow(files, more)
    ensures CropsHeld(more, r)
  {
  }

  lemma IngestKeeps(disk: Disk, r: Receipt, place: nat, k: nat)
    requires k <= |r.artifacts| + 3 && place <= |disk.receipts| && DiskOk(disk)
    ensures var after := DiskAfter(disk, r, place, k);
            DiskOk(after) && Extends(disk.db, after.db) && FilesGrow(disk.files, after.files)
  {
    StepsAdd(disk, r, place, k);
    var after := DiskAfter(disk, r, place, k);
    if after.db != disk.db {
      CreateKeepsDb(disk.db, after.files, r);
      CreateAppliesAll(disk.db, after.files, r);
    }
    hide DbOk, FilesGrow, CropsHeld, AfterSteps;
    forall i | 0 <= i < |after.receipts| && after.receipts[i].Whole?
      ensures CropsHeld(after.files, after.receipts[i].receipt) {
      var q := after.receipts[i].receipt;
      if Whole(q) in disk.receipts {
        CropsStayHeld(disk.files, after.files, q);
      }
    }
  }

  /** The receipt is there but its source is not. */
  predicate Waits(files: Files, f: ReceiptFile) {
    f.Whole? && SourcePath(f.receipt.source) !in files
  }

  /** What an ingestion put on disk makes no difference to the replay of an older receipt, unless
      that one was waiting for the bytes just promoted. */
  lemma OlderReplaysAlike(disk: Disk, r: Receipt, place: nat, k: nat, f: ReceiptFile, db: Db, maxPages: nat)
    requires k <= |r.artifacts| + 3 && place <= |disk.receipts| && FilesOk(disk) && f in disk.receipts
    requires Waits(disk.files, f) && f.receipt.source == r.source ==> !Promoted(disk, r, place, k)
    ensures Replay(db, DiskAfter(disk, r, place, k).files, f, maxPages) == Replay(db, disk.files, f, maxPages)
  {
    StepsAdd(disk, r, place, k);
    var files := DiskAfter(disk, r, place, k).files;
    if f.Whole? {
      var q := f.receipt;
      hide AfterSteps, InsertPages;
      assert CropsHeld(disk.files, q);
      CropsStayHeld(disk.files, files, q);
      assert Create(db, files, q) == Create(db, disk.files, q);
    }
  }

  lemma {:induction false} ReconcileAlike(db: Db, files: Files, more: Files, receipts: seq<ReceiptFile>, maxPages: nat)
    requires forall f, e | f in receipts :: Replay(e, more, f, maxPages) == Replay(e, files, f, maxPages)
    ensures Reconcile(db, more, receipts, maxPages) == Reconcile(db, files, receipts, maxPages)
  {
    hide Replay;
    if receipts != [] {
      ReconcileAlike(db, files, more, receipts[..|receipts| - 1], maxPages);
    }
  }

  lemma {:induction false} IdleFileIsCounted(db: Db, files: Files, receipts: seq<ReceiptFile>, place: nat, f: ReceiptFile, maxPages: nat)
    requires place <= |receipts| && !f.Legacy? && forall e :: Replay(e, files, f, maxPages).None?
    ensures var without := Reconcile(db, files, receipts, maxPages);
            Reconcile(db, files, WithReceipt(receipts, place, f), maxPages) == without.(incomplete := without.incomplete + 1)
  {
    var n := |receipts|;
    WithReceiptLast(receipts, place, f);
    ReconcileLast(db, files, WithReceipt(receipts, place, f), maxPages);
    if place == n {
      hide Replay, Reconcile, WithReceipt;
    } else {
      IdleFileIsCounted(db, files, receipts[..n - 1], place, f, maxPages);
      ReconcileLast(db, files, receipts, maxPages);
      CountedOnTop(Reconcile(db, files, receipts[..n - 1], maxPages), files, receipts[n - 1], maxPages);
      hide Replay, Next, WithReceipt, Reconcile;
    }
  }

  lemma WithReceiptLast(receipts: seq<ReceiptFile>, place: nat, f: ReceiptFile)
    requires place <= |receipts|
    ensures var n, all := |receipts|, WithReceipt(receipts, place, f);
            && |all| == n + 1
            && (if place == n then all[..n] == receipts && all[n] == f
                else all[..n] == WithReceipt(receipts[..n - 1], place, f) && all[n] == receipts[n - 1])
  {
  }

  lemma ReconcileLast(db: Db, files: Files, receipts: seq<ReceiptFile>, maxPages: nat)
    requires receipts != []
    ensures var n := |receipts| - 1;
            Reconcile(db, files, receipts, maxPages)
            == Next(Reconcile(db, files, receipts[..n], maxPages), files, receipts[n], maxPages)
  {
    hide Next;
  }

  lemma CountedOnTop(report: Report, files: Files, f: ReceiptFile, maxPages: nat)
    ensures var after := Next(report, files, f, maxPages);
            Next(report.(incomplete := report.incomplete + 1), files, f, maxPages)
            == after.(incomplete := after.incomplete + 1)
  {
    hide Replay;
  }

  /** A crash before the source is in place: the next start-up does what it would have done
      without the interrupted ingestion, and reports its receipt, if that was already written, as
      one more incomplete one. */
  lemma WaitingReceiptIsCounted(disk: Disk, r: Receipt, place: nat, k: nat, maxPages: nat)
    requires k <= |r.artifacts| + 3 && place <= |disk.receipts| && DiskOk(disk)
    requires !Recorded(disk, r, place, k) || !Promoted(disk, r, place, k)
    ensures var crashed := DiskAfter(disk, r, place, k);
            var without := Reconcile(disk.db, disk.files, disk.receipts, maxPages);
            Reconcile(crashed.db, crashed.files, crashed.receipts, maxPages)
            == if Recorded(disk, r, place, k) then without.(incomplete := without.incomplete + 1) else without
  {
    StepsAdd(disk, r, place, k);
    var crashed := DiskAfter(disk, r, place, k);
    forall f, e | f in disk.receipts ensures Replay(e, crashed.files, f, maxPages) == Replay(e, disk.files, f, maxPages) {
      OlderReplaysAlike(disk, r, place, k, f, e, maxPages);
    }
    ReconcileAlike(disk.db, disk.files, crashed.files, disk.receipts, maxPages);
    if Recorded(disk, r, place, k) {
      assert forall e :: Replay(e, crashed.files, Whole(r), maxPages).None?;
      hide *;
      IdleFileIsCounted(disk.db, crashed.files, disk.receipts, place, Whole(r), maxPages);
    }
  }

  /** The receipts that can make a difference to a start-up after the interrupted ingestion: those
      that waited for the same bytes, the interrupted one, and any that an earlier start-up had
      not settled. */
  ghost function Open(disk: Disk, r: Receipt, maxPages: nat): ReceiptFile -> bool {
    f => f == Whole(r) || (Waits(disk.files, f) && f.receipt.source == r.source)
         || !SettledFile(disk.db, disk.files, f, maxPages)
  }

  lemma OthersAreSettled(disk: Disk, r: Receipt, place: nat, k: nat, maxPages: nat)
    requires k <= |r.artifacts| + 3 && place <= |disk.receipts| && DiskOk(disk)
    ensures var crashed := DiskAfter(disk, r, place, k);
            forall i | 0 <= i < |crashed.receipts| && !Open(disk, r, maxPages)(crashed.receipts[i]) ::
              SettledFile(crashed.db, crashed.files, crashed.receipts[i], maxPages)
  {
    StepsAdd(disk, r, place, k);
    IngestKeeps(disk, r, place, k);
    var crashed := DiskAfter(disk, r, place, k);
    hide Applied, Create, AfterSteps, Grows, SlotsUnique, FilesGrow, CropsHeld;
    forall i | 0 <= i < |crashed.receipts| && !Open(disk, r, maxPages)(crashed.receipts[i])
      ensures SettledFile(crashed.db, crashed.files, crashed.receipts[i], maxPages) {
      var f := crashed.receipts[i];
      assert f in disk.receipts;
      OlderReplaysAlike(disk, r, place, k, f, disk.db, maxPages);
      SettledPersists(disk.db, crashed.db, crashed.files, f, maxPages);
    }
  }

  /** A crash after any durable step of an ingestion, on any disk, then a start-up: it enters, in
      the order of their names, the ready and acceptable ones among the open receipts, leaving
      out each that is not compatible with one entered before it.  Nothing else changes. */
  lemma CrashThenRestart(disk: Disk, r: Receipt, place: nat, k: nat, maxPages: nat)
    requires k <= |r.artifacts| + 3 && place <= |disk.receipts| && DiskOk(disk)
    ensures var crashed := DiskAfter(disk, r, place, k);
            var restarted := Reconcile(crashed.db, crashed.files, crashed.receipts, maxPages).db;
            var entered := Entered(crashed.db, crashed.files, Those(crashed.receipts, Open(disk, r, maxPages)), maxPages);
            && EnterAll(crashed.db, crashed.files, entered) == Some(restarted)
            && Extends(disk.db, restarted) && SlotsUnique(restarted)
            && (forall q | q in entered :: Applied(restarted, q))
  {
    IngestKeeps(disk, r, place, k);
    var crashed := DiskAfter(disk, r, place, k);
    var P := Open(disk, r, maxPages);
    OthersAreSettled(disk, r, place, k, maxPages);
    hide Open, Applied, SettledFile, Entered, EnterAll, Reconcile, DiskAfter, Those, Grows;
    RestartEnters(crashed.db, crashed.files, crashed.receipts, P, maxPages);
    var restarted := Reconcile(crashed.db, crashed.files, crashed.receipts, maxPages).db;
    GrowsFurther(disk.db, crashed.db, restarted);
  }

  lemma RestartEnters(db: Db, files: Files, receipts: seq<ReceiptFile>, P: ReceiptFile -> bool, maxPages: nat)
    requires SlotsUnique(db)
    requires forall i | 0 <= i < |receipts| && !P(receipts[i]) :: SettledFile(db, files, receipts[i], maxPages)
    ensures var restarted := Reconcile(db, files, receipts, maxPages).db;
            var entered := Entered(db, files, Those(receipts, P), maxPages);
            && EnterAll(db, files, entered) == Some(restarted)
            && Extends(db, restarted) && SlotsUnique(restarted)
            && (forall q | q in entered :: Applied(restarted, q))
  {
    hide *;
    OnlyTheRestMatters(db, files, receipts, P, maxPages);
    StartUpEntersExactly(db, files, Those(receipts, P), maxPages);
    ReconcileSettles(db, files, receipts, maxPages);
  }

  /** With receipt and source on disk, the interrupted receipt is in the database after the
      start-up exactly when the transaction would have been accepted at the crash, and no open
      receipt that sorts before it and is entered first disagrees with it. */
  lemma InterruptedEnteredExactlyWhen(disk: Disk, r: Receipt, place: nat, k: nat, maxPages: nat)
    requires k <= |r.artifacts| + 3 && place <= |disk.receipts| && DiskOk(disk) && r.pageCount <= maxPages
    requires Recorded(disk, r, place, k) && Promoted(disk, r, place, k)
    ensures var crashed := DiskAfter(disk, r, place, k);
            var restarted := Reconcile(crashed.db, crashed.files, crashed.receipts, maxPages).db;
            var earlier := Those(crashed.receipts[..place], Open(disk, r, maxPages));
            WellFormed(crashed.files, r) && Applied(restarted, r)
            <==> Create(crashed.db, crashed.files, r).Some?
                 && FitsAll(Entered(crashed.db, crashed.files, earlier, maxPages), r)
    ensures k <= |r.artifacts| + 2 ==> DiskAfter(disk, r, place, k).db == disk.db
  {
    StepsAdd(disk, r, place, k);
    IngestKeeps(disk, r, place, k);
    var crashed := DiskAfter(disk, r, place, k);
    OthersAreSettled(disk, r, place, k, maxPages);
    hide Open, Applied, SettledFile, Entered, Reconcile, Create, SlotsUnique, Those, FitsAll;
    EnteredExactlyWhen(crashed.db, crashed.files, crashed.receipts, Open(disk, r, maxPages), place, maxPages);
    if k <= |r.artifacts| + 2 {
      TransactionIsLast(disk, r, place, k);
    }
  }

  lemma {:induction false} TransactionIsLast(disk: Disk, r: Receipt, place: nat, k: nat)
    requires k <= |r.artifacts| + 2 && place <= |disk.receipts|
    ensures AfterSteps(disk, r, place, k).disk.db == disk.db
  {
    if k > 0 {
      TransactionIsLast(disk, r, place, k - 1);
    }
  }

  // ------------------------------------------------------------------------------------------ runs

  // A stray file is a receipt that cannot be read, or one written before service dates.
  datatype Step =
    | IngestStep(r: Receipt, place: nat, k: nat)
    | RestartStep
    | QueueStep(document: Document, state: nat)
    | StrayStep(file: ReceiptFile, place: nat)

  /** An ingestion is complete or interrupted after k durable steps; the decoder refuses documents
      of too many pages. */
  function Do(disk: Disk, step: Step, maxPages: nat): Disk {
    match step
    case IngestStep(r, place, k) =>
      if place <= |disk.receipts| && k <= |r.artifacts| + 3 && r.pageCount <= maxPages then DiskAfter(disk, r, place, k) else disk
    case RestartStep =>
      disk.(db := Reconcile(disk.db, disk.files, disk.receipts, maxPages).db)
    case QueueStep(document, state) =>
      if document !in disk.db.jobs then disk
      else disk.(db := disk.db.(jobs := disk.db.jobs[document := disk.db.jobs[document].(state := state)]))
    case StrayStep(file, place) =>
      if file.Whole? || place > |disk.receipts| then disk
      else disk.(receipts := WithReceipt(disk.receipts, place, file))
  }

  function Run(disk: Disk, steps: seq<Step>, maxPages: nat): Disk {
    if steps == [] then disk
    else Do(Run(disk, steps[..|steps| - 1], maxPages), steps[|steps| - 1], maxPages)
  }

  const EMPTY_DISK := Disk(map[], [], NO_ROWS)

  lemma StepKeeps(disk: Disk, step: Step, maxPages: nat)
    requires DiskOk(disk)
    ensures var after := Do(disk, step, maxPages);
            DiskOk(after) && Extends(disk.db, after.db) && FilesGrow(disk.files, after.files)
  {
    match step
    case IngestStep(r, place, k) =>
      if place <= |disk.receipts| && k <= |r.artifacts| + 3 {
        IngestKeeps(disk, r, place, k);
      }
    case RestartStep =>
      ReconcileKeepsDb(disk.db, disk.files, disk.receipts, maxPages);
      ReconcileSettles(disk.db, disk.files, disk.receipts, maxPages);
    case QueueStep(document, state) =>
    case StrayStep(file, place) =>
  }

  /** Over every run of ingestions, crashes at any durable step, start-ups and queue work, what the
      disk always is stays true, and no file, row or discovery is lost. */
  lemma {:induction false} RunKeeps(disk: Disk, steps: seq<Step>, maxPages: nat)
    requires DiskOk(disk)
    ensures var after := Run(disk, steps, maxPages);
            DiskOk(after) && Extends(disk.db, after.db) && FilesGrow(disk.files, after.files)
  {
    if steps == [] {
      GrowsItself(disk.db);
    } else {
      var n := |steps| - 1;
      RunKeeps(disk, steps[..n], maxPages);
      StepKeeps(Run(disk, steps[..n], maxPages), steps[n], maxPages);
      hide DiskOk, Do, SlotsUnique, Grows;
      GrowsFurther(disk.db, Run(disk, steps[..n], maxPages).db, Run(disk, steps, maxPages).db);
    }
  }

  lemma SettledStays(disk: Disk, step: Step, maxPages: nat)
    requires DiskOk(disk) && Settled(disk.db, disk.files, disk.receipts, maxPages)
    requires step.QueueStep? || step.StrayStep? || step.RestartStep?
    ensures var after := Do(disk, step, maxPages);
            Settled(after.db, after.files, after.receipts, maxPages)
  {
    StepKeeps(disk, step, maxPages);
    var after := Do(disk, step, maxPages);
    ReconcileSettles(disk.db, disk.files, disk.receipts, maxPages);
    hide SettledFile, Extends;
    if step.QueueStep? {
      forall i | 0 <= i < |after.receipts| ensures SettledFile(after.db, after.files, after.receipts[i], maxPages) {
        SettledPersists(disk.db, after.db, disk.files, disk.receipts[i], maxPages);
      }
    } else if step.StrayStep? {
      forall i | 0 <= i < |after.receipts| ensures SettledFile(after.db, after.files, after.receipts[i], maxPages) {
        if after.receipts[i] in disk.receipts {
          var j :| 0 <= j < |disk.receipts| && disk.receipts[j] == after.receipts[i];
        } else {
          StrayIsSettled(after.db, after.files, after.receipts[i], maxPages);
        }
      }
    }
  }

  lemma StrayIsSettled(db: Db, files: Files, f: ReceiptFile, maxPages: nat)
    requires !f.Whole?
    ensures SettledFile(db, files, f, maxPages)
  {
  }

  ghost predicate NoIngestion(steps: seq<Step>) {
    forall i | 0 <= i < |steps| :: !steps[i].IngestStep?
  }

  lemma {:induction false} SettledRun(disk: Disk, steps: seq<Step>, maxPages: nat)
    requires DiskOk(disk) && Settled(disk.db, disk.files, disk.receipts, maxPages) && NoIngestion(steps)
    ensures var after := Run(disk, steps, maxPages);
            Settled(after.db, after.files, after.receipts, maxPages)
  {
    hide DiskOk, Settled, Do;
    if steps != [] {
      var n := |steps| - 1;
      SettledRun(disk, steps[..n], maxPages);
      RunKeeps(disk, steps[..n], maxPages);
      SettledStays(Run(disk, steps[..n], maxPages), steps[n], maxPages);
    }
  }

  /** After any history a single start-up is enough: until the next ingestion, further start-ups
      change nothing. */
  lemma OneStartUpIsEnough(history: seq<Step>, quiet: seq<Step>, maxPages: nat)
    requires NoIngestion(quiet)
    ensures var started := Do(Run(EMPTY_DISK, history, maxPages), RestartStep, maxPages);
            var disk := Run(started, quiet, maxPages);
            DiskOk(disk) && Do(disk, RestartStep, maxPages) == disk
  {
    assert DiskOk(EMPTY_DISK);
    RunKeeps(EMPTY_DISK, history, maxPages);
    var reached := Run(EMPTY_DISK, history, maxPages);
    StepKeeps(reached, RestartStep, maxPages);
    ReconcileSettles(reached.db, reached.files, reached.receipts, maxPages);
    var started := Do(reached, RestartStep, maxPages);
    SettledRun(started, quiet, maxPages);
    RunKeeps(started, quiet, maxPages);
    var disk := Run(started, quiet, maxPages);
    hide Settled;
    SettledReconcileIsNoOp(disk.db, disk.files, disk.receipts, maxPages);
  }

  /** What a completed ingestion entered is there after every later run, whatever crashes. */
  lemma IngestedStaysEntered(disk: Disk, r: Receipt, place: nat, later: seq<Step>, maxPages: nat)
    requires place <= |disk.receipts| && DiskOk(disk) && AfterSteps(disk, r, place, |r.artifacts| + 3).alive
    ensures Applied(Run(DiskAfter(disk, r, place, |r.artifacts| + 3), later, maxPages).db, r)
  {
    var n := |r.artifacts| + 3;
    var done := DiskAfter(disk, r, place, n);
    assert AfterSteps(disk, r, place, n - 1).alive;
    TransactionIsLast(disk, r, place, n - 1);
    CreateAppliesAll(disk.db, AfterSteps(disk, r, place, n - 1).disk.files, r);
    assert Applied(done.db, r);
    hide Applied, DiskOk;
    IngestKeeps(disk, r, place, n);
    RunKeeps(done, later, maxPages);
    AppliedPersists(done.db, Run(done, later, maxPages).db, r);
  }

  // ----------------------------------------------------------------- when an ingestion completes

  /** No stored file and no earlier crop of the receipt stands in the way of its first k crops. */
  predicate CropsStorable(files: Files, r: Receipt, k: nat)
    requires k <= |r.artifacts|
  {
    && (forall i | 0 <= i < k && CropPath(r.artifacts[i].id) in files ::
          files[CropPath(r.artifacts[i].id)] == r.artifacts[i].bytes)
    && (forall i, j | 0 <= i < j < k && r.artifacts[i].id == r.artifacts[j].id :: r.artifacts[i].bytes == r.artifacts[j].bytes)
  }

  /** The files, and the first k crops of the receipt. */
  ghost predicate WithCrops(files: Files, more: Files, r: Receipt, k: nat)
    requires k <= |r.artifacts|
  {
    && (forall p :: p in more <==> p in files || exists i :: 0 <= i < k && p == CropPath(r.artifacts[i].id))
    && (forall p | p in files :: p in more && more[p] == files[p])
    && (forall i | 0 <= i < k :: CropPath(r.artifacts[i].id) in more && more[CropPath(r.artifacts[i].id)] == r.artifacts[i].bytes)
  }

  lemma OneCropStored(files: Files, more: Files, r: Receipt, k: nat)
    requires k < |r.artifacts| && CropsStorable(files, r, k) && WithCrops(files, more, r, k)
    ensures var put := Put(more, CropPath(r.artifacts[k].id), r.artifacts[k].bytes);
            && (put.Some? <==> CropsStorable(files, r, k + 1))
            && (put.Some? ==> WithCrops(files, put.value, r, k + 1))
  {
    OneCropStorable(files, more, r, k);
    OneCropWith(files, more, r, k);
    hide CropsStorable, WithCrops, Put;
  }

  lemma OneCropStorable(files: Files, more: Files, r: Receipt, k: nat)
    requires k < |r.artifacts| && CropsStorable(files, r, k) && WithCrops(files, more, r, k)
    ensures Put(more, CropPath(r.artifacts[k].id), r.artifacts[k].bytes).Some? <==> CropsStorable(files, r, k + 1)
  {
    var path := CropPath(r.artifacts[k].id);
    if path in more && path !in files {
      var i :| 0 <= i < k && path == CropPath(r.artifacts[i].id);
      assert more[path] == r.artifacts[i].bytes;
    }
  }

  lemma OneCropWith(files: Files, more: Files, r: Receipt, k: nat)
    requires k < |r.artifacts| && WithCrops(files, more, r, k)
    ensures var put := Put(more, CropPath(r.artifacts[k].id), r.artifacts[k].bytes);
            put.Some? ==> WithCrops(files, put.value, r, k + 1)
  {
  }

  lemma {:induction false} CropsAreStored(disk: Disk, r: Receipt, place: nat, k: nat)
    requires k <= |r.artifacts| && place <= |disk.receipts|
    ensures var p := AfterSteps(disk, r, place, k);
            && (p.alive <==> CropsStorable(disk.files, r, k))
            && (p.alive ==> WithCrops(disk.files, p.disk.files, r, k) && p.disk == disk.(files := p.disk.files))
  {
    hide CropsStorable, WithCrops, Put;
    if k == 0 {
      NoCropsYet(disk.files, r);
    } else {
      CropsAreStored(disk, r, place, k - 1);
      var before := AfterSteps(disk, r, place, k - 1);
      if before.alive {
        OneCropStored(disk.files, before.disk.files, r, k - 1);
      } else {
        FewerCrops(disk.files, r, k - 1);
      }
    }
  }

  lemma NoCropsYet(files: Files, r: Receipt)
    ensures CropsStorable(files, r, 0) && WithCrops(files, files, r, 0)
  {
  }

  lemma FewerCrops(files: Files, r: Receipt, k: nat)
    requires k < |r.artifacts|
    ensures CropsStorable(files, r, k + 1) ==> CropsStorable(files, r, k)
  {
  }

  /** Everything that must hold of the disk and the receipt for an ingestion to complete. */
  predicate Ingestible(disk: Disk, r: Receipt) {
    && CropsStorable(disk.files, r, |r.artifacts|)
    && (SourcePath(r.source) in disk.files ==> disk.files[SourcePath(r.source)] == r.source)
    && r.pageCount > 0
    && (forall i | 0 <= i < |r.artifacts| :: r.artifacts[i].page < r.pageCount)
    && (forall p | p in r.evidence :: p < r.pageCount)
    && CropsAgree(r) && SourceAgrees(disk.db, r) && PagesAgree(disk.db, r)
    && (forall i | 0 <= i < |r.artifacts| :: CropAgrees(disk.db, r, r.artifacts[i]))
  }

  lemma PromotedDisk(disk: Disk, r: Receipt, place: nat)
    requires place <= |disk.receipts|
    ensures var p := AfterSteps(disk, r, place, |r.artifacts| + 2);
            && (p.alive <==> CropsStorable(disk.files, r, |r.artifacts|)
                             && (SourcePath(r.source) in disk.files ==> disk.files[SourcePath(r.source)] == r.source))
            && (p.alive ==>
                  && p.disk.receipts == WithReceipt(disk.receipts, place, Whole(r)) && p.disk.db == disk.db
                  && (exists crops :: WithCrops(disk.files, crops, r, |r.artifacts|)
                                      && p.disk.files == crops[SourcePath(r.source) := r.source]))
  {
    var n := |r.artifacts|;
    CropsAreStored(disk, r, place, n);
    var stored := AfterSteps(disk, r, place, n);
    var recorded := AfterSteps(disk, r, place, n + 1);
    var promoted := AfterSteps(disk, r, place, n + 2);
    if stored.alive {
      assert SourcePath(r.source) in stored.disk.files <==> SourcePath(r.source) in disk.files;
      if promoted.alive {
        assert promoted.disk.files == stored.disk.files[SourcePath(r.source) := r.source];
      }
    }
  }

  ghost predicate Written(db: Db, e: Db, r: Receipt) {
    SourceWritten(db, e, r) && PagesWritten(db, e, r) && CropsWritten(db, e, r)
  }

  /** An ingestion completes exactly when no file, no row and no part of the receipt contradicts
      another; then the disk has the old files, the crops and the source, the receipt in its place,
      and the rows of the receipt. */
  lemma CompletesExactlyWhen(disk: Disk, r: Receipt, place: nat)
    requires place <= |disk.receipts| && SlotsUnique(disk.db)
    ensures var p := AfterSteps(disk, r, place, |r.artifacts| + 3);
            && (p.alive <==> Ingestible(disk, r))
            && (p.alive ==>
                  && p.disk.receipts == WithReceipt(disk.receipts, place, Whole(r))
                  && (exists crops :: WithCrops(disk.files, crops, r, |r.artifacts|)
                                      && p.disk.files == crops[SourcePath(r.source) := r.source])
                  && Written(disk.db, p.disk.db, r))
  {
    var n := |r.artifacts|;
    var promoted, done := AfterSteps(disk, r, place, n + 2), AfterSteps(disk, r, place, n + 3);
    PromotedDisk(disk, r, place);
    LastStep(disk, r, place);
    if promoted.alive {
      var crops :| WithCrops(disk.files, crops, r, n) && promoted.disk.files == crops[SourcePath(r.source) := r.source];
      PromotedAccepts(disk, r, crops);
      if Create(disk.db, promoted.disk.files, r).Some? {
        CreateWrites(disk.db, promoted.disk.files, r);
      }
    }
    hide AfterSteps, Create, CropsStorable, WithCrops, SourceWritten, PagesWritten, CropsWritten, CropsAgree, SourceAgrees,
         PagesAgree, CropAgrees, SlotsUnique, WithReceipt;
  }

  lemma LastStep(disk: Disk, r: Receipt, place: nat)
    requires place <= |disk.receipts|
    ensures var promoted := AfterSteps(disk, r, place, |r.artifacts| + 2);
            var done := AfterSteps(disk, r, place, |r.artifacts| + 3);
            && (done.alive <==> promoted.alive && Create(promoted.disk.db, promoted.disk.files, r).Some?)
            && (done.alive ==>
                  done.disk == promoted.disk.(db := Create(promoted.disk.db, promoted.disk.files, r).value))
  {
    hide Create;
  }

  lemma PromotedAccepts(disk: Disk, r: Receipt, crops: Files)
    requires SlotsUnique(disk.db) && WithCrops(disk.files, crops, r, |r.artifacts|)
    ensures Create(disk.db, crops[SourcePath(r.source) := r.source], r).Some?
            <==> && r.pageCount > 0
                 && (forall i | 0 <= i < |r.artifacts| :: r.artifacts[i].page < r.pageCount)
                 && (forall p | p in r.evidence :: p < r.pageCount)
                 && CropsAgree(r) && SourceAgrees(disk.db, r) && PagesAgree(disk.db, r)
                 && (forall i | 0 <= i < |r.artifacts| :: CropAgrees(disk.db, r, r.artifacts[i]))
  {
    AcceptedExactlyWhen(disk.db, crops[SourcePath(r.source) := r.source], r);
    hide Create, CropsAgree, SourceAgrees, PagesAgree, CropAgrees, SlotsUnique;
  }

  // ------------------------------------------------------------------ two interrupted ingestions

  // One file, ingested on two days and interrupted both times: between receipt and source on the
  // first day, between source and transaction on the second.

  const FIRST_DAY := Receipt(1, 7, 0, Observation(1, 1, 1), 1, 0, 10, [], map[])
  const SECOND_DAY := Receipt(2, 7, 0, Observation(1, 1, 1), 1, 0, 11, [], map[])
  const COPY := Receipt(3, 7, 0, Observation(2, 1, 1), 1, 0, 10, [], map[])
  const SOURCE_ONLY: Files := map[SourcePath(7) := 7]

  function Interrupted(second: Receipt): seq<Step> {
    [IngestStep(FIRST_DAY, 0, 1), IngestStep(second, 1, 2)]
  }

  lemma InterruptedTwice(second: Receipt)
    requires second == SECOND_DAY || second == COPY
    ensures Run(EMPTY_DISK, Interrupted(second), 1) == Disk(SOURCE_ONLY, [Whole(FIRST_DAY), Whole(second)], NO_ROWS)
  {
    var steps := Interrupted(second);
    var once := Disk(map[], [Whole(FIRST_DAY)], NO_ROWS);
    assert AfterSteps(EMPTY_DISK, FIRST_DAY, 0, 0) == Progress(EMPTY_DISK, true);
    assert AfterSteps(EMPTY_DISK, FIRST_DAY, 0, 1) == Progress(once, true);
    var receipts := [Whole(FIRST_DAY), Whole(second)];
    assert once.receipts[..1] + [Whole(second)] + once.receipts[1..] == receipts;
    assert AfterSteps(once, second, 1, 0) == Progress(once, true);
    assert AfterSteps(once, second, 1, 1) == Progress(Disk(map[], receipts, NO_ROWS), true);
    assert AfterSteps(once, second, 1, 2) == Progress(Disk(SOURCE_ONLY, receipts, NO_ROWS), true);
    assert steps[..1][..0] == [] && steps[..1] == [steps[0]];
    assert Run(EMPTY_DISK, steps[..1][..0], 1) == EMPTY_DISK;
    assert Run(EMPTY_DISK, steps[..1], 1) == Do(EMPTY_DISK, steps[0], 1) == once;
    assert Run(EMPTY_DISK, steps, 1) == Do(once, steps[1], 1);
  }

  const DOCUMENT := Document(7, 0)
  const FIRST_ROWS := Db(
    map[7 := SourceRow(0, Some(10))], [Discovery(7, 1, Observation(1, 1, 1))], {DOCUMENT},
    map[DOCUMENT := JobRow(0, QUEUED)], map[], map[], [DOCUMENT])

  lemma OnePage(db: Db, r: Receipt)
    requires r.pageCount == 1 && r.artifacts == [] && r.evidence == map[] && !SourceConflict(db, r)
    ensures Create(db, SOURCE_ONLY, r) == InsertDocument(InsertSource(db, r), r, 0)
  {
    var start := InsertSource(db, r);
    assert InsertPages(start, r, 0) == Some(start);
    assert InsertPages(start, r, 1) == InsertPage(start, r, 0);
  }

  lemma FirstDayEnters()
    ensures Create(NO_ROWS, SOURCE_ONLY, FIRST_DAY) == Some(FIRST_ROWS)
  {
    OnePage(NO_ROWS, FIRST_DAY);
    var start := InsertSource(NO_ROWS, FIRST_DAY);
    assert start.sources == FIRST_ROWS.sources && start.discoveries == FIRST_ROWS.discoveries;
    assert start.documents + {DOCUMENT} == {DOCUMENT} && start.created + [DOCUMENT] == [DOCUMENT];
    assert start.jobs[DOCUMENT := JobRow(0, QUEUED)] == FIRST_ROWS.jobs;
  }

  lemma CopyEnters()
    ensures Create(FIRST_ROWS, SOURCE_ONLY, COPY).Some?
    ensures |Create(FIRST_ROWS, SOURCE_ONLY, COPY).value.discoveries| == 2
  {
    OnePage(FIRST_ROWS, COPY);
    assert !Known(FIRST_ROWS, COPY);
    assert InsertSource(FIRST_ROWS, COPY).jobs[DOCUMENT].bundle == 0;
  }

  lemma FirstReplay(second: Receipt, first: Db)
    requires Create(NO_ROWS, SOURCE_ONLY, FIRST_DAY) == Some(first)
    ensures var receipts := [Whole(FIRST_DAY), Whole(second)];
            Reconcile(NO_ROWS, SOURCE_ONLY, receipts, 1) == Next(Report(first, 1, 0, 0), SOURCE_ONLY, Whole(second), 1)
  {
    var receipts := [Whole(FIRST_DAY), Whole(second)];
    assert receipts[..1] == [Whole(FIRST_DAY)] && receipts[..1][..0] == [];
    hide Create;
    assert Reconcile(NO_ROWS, SOURCE_ONLY, receipts[..1], 1)
           == Next(Reconcile(NO_ROWS, SOURCE_ONLY, [], 1), SOURCE_ONLY, Whole(FIRST_DAY), 1);
  }

  lemma TwoReplays(second: Receipt, first: Db, both: Db)
    requires Create(NO_ROWS, SOURCE_ONLY, FIRST_DAY) == Some(first) && Create(first, SOURCE_ONLY, second) == Some(both)
    requires second.source == 7 && second.pageCount == 1
    ensures Reconcile(NO_ROWS, SOURCE_ONLY, [Whole(FIRST_DAY), Whole(second)], 1) == Report(both, 2, 0, 0)
  {
    FirstReplay(second, first);
    hide Create, Reconcile;
  }

  /** The start-up enters the old receipt with the old date, and refuses the newer one, that of
      the ingestion interrupted last, because the source now has another date: it stays
      incomplete.  So a start-up need not complete the interrupted ingestion. */
  lemma OlderDateWins()
    ensures var disk := Run(EMPTY_DISK, Interrupted(SECOND_DAY), 1);
            var report := Reconcile(disk.db, disk.files, disk.receipts, 1);
            && report.db == FIRST_ROWS && report.replayed == 1 && report.incomplete == 1
            && Create(disk.db, disk.files, SECOND_DAY).Some? && !Compatible(FIRST_DAY, SECOND_DAY)
  {
    InterruptedTwice(SECOND_DAY);
    FirstDayEnters();
    var receipts := [Whole(FIRST_DAY), Whole(SECOND_DAY)];
    assert receipts[..1] == [Whole(FIRST_DAY)] && receipts[..1][..0] == [];
    OnePage(NO_ROWS, SECOND_DAY);
    assert SourceConflict(FIRST_ROWS, SECOND_DAY);
    hide Run, Interrupted, InsertPages, InsertSource;
    FirstReplay(SECOND_DAY, FIRST_ROWS);
  }

  /** When the two agree, the same start-up enters both. */
  lemma OlderReceiptIsEnteredToo()
    ensures var disk := Run(EMPTY_DISK, Interrupted(COPY), 1);
            var report := Reconcile(disk.db, disk.files, disk.receipts, 1);
            report.replayed == 2 && report.incomplete == 0 && |report.db.discoveries| == 2
  {
    InterruptedTwice(COPY);
    FirstDayEnters();
    var receipts := [Whole(FIRST_DAY), Whole(COPY)];
    assert receipts[..1] == [Whole(FIRST_DAY)] && receipts[..1][..0] == [];
    CopyEnters();
    hide Create, Run, Interrupted;
    TwoReplays(COPY, FIRST_ROWS, Create(FIRST_ROWS, SOURCE_ONLY, COPY).value);
  }
}
