/** What each job transaction writes (storage.py). */
module JobEffects {
  // Row by row and column by column, for every database: when a transaction acts, what the rows it
  // touches hold afterwards, and that all others stay.

  import opened JobQueue

  /** The worker of the current epoch, before the lease ends. */
  predicate Holder(db: Db, j: Id, worker: Worker, epoch: nat, now: Time) {
    && j in db.jobs && db.jobs[j].state == Processing && db.jobs[j].owner == Some(worker) && db.jobs[j].epoch == epoch
    && db.jobs[j].expiresAt.Some? && db.jobs[j].expiresAt.value > now
  }

  /** Of the jobs only j changed, and of the other tables nothing. */
  ghost predicate OnlyJob(db: Db, e: Db, j: Id) {
    && e.documents == db.documents && e.artifacts == db.artifacts && e.results == db.results && e.outbox == db.outbox
    && OtherJobsStay(db, e, j)
  }

  ghost predicate OtherJobsStay(db: Db, e: Db, j: Id) {
    e.jobs.Keys == db.jobs.Keys && forall k | k in db.jobs && k != j :: e.jobs[k] == db.jobs[k]
  }

  /** The row given up: no owner, no lease, and the transition in the audit log. */
  function Freed(job: Job, state: JobState, availableAt: Time): Job {
    Job(job.document, job.bundle, state, job.attempts, availableAt, None, job.epoch, None, job.createdAt,
        job.log + [Event(job.state, state, job.owner, job.epoch)])
  }

  /** complete_job's demands on the claim, the snapshot, the callback and the stored rows. */
  predicate Completable(db: Db, j: Id, worker: Worker, epoch: nat, result: Snapshot, callback: Callback, now: Time) {
    && Holder(db, j, worker, epoch, now)
    && result.document == db.jobs[j].document && result.bundle == db.jobs[j].bundle
    && result.document in db.documents
    && db.documents[result.document].source == result.source && db.documents[result.document].page == result.page
    && result.id.document == result.document && result.id.revision == result.revision
    && callback.result == result && callback.eventId == result.id && callback.key == result.id
    && callback.occurredAt == result.completedAt
    && (forall a | a in result.artifacts :: a in db.artifacts && db.artifacts[a] == j)
    && result.id !in db.results && result.id !in db.outbox
    && (forall r | r in db.results && db.results[r].job == j :: db.results[r].snapshot.revision != result.revision)
  }

  /** A completion happens exactly when nothing contradicts it; then the job is completed and free,
      its result and its callback are stored under the revision, and nothing else changes. */
  lemma CompletionWrites(db: Db, j: Id, worker: Worker, epoch: nat, result: Snapshot, callback: Callback, now: Time,
                         maxAttempts: nat)
    ensures var e := Do(db, CompleteStep(j, worker, epoch, result, callback, now), maxAttempts);
            if Completable(db, j, worker, epoch, result, callback, now) then
              && OtherJobsStay(db, e, j) && e.documents == db.documents && e.artifacts == db.artifacts
              && e.jobs[j] == Freed(db.jobs[j], Completed, db.jobs[j].availableAt)
              && e.results == db.results[result.id := ResultRow(j, result)]
              && e.outbox == db.outbox[result.id := OutboxRow(j, result.id, result.id, callback)]
            else e == db
  {
  }

  /** A failure is stored exactly for the holder: retryable while it asks for that and attempts are
      left, permanent otherwise, available again after the delay. */
  lemma FailureWrites(db: Db, j: Id, worker: Worker, epoch: nat, retryable: bool, delay: nat, now: Time, maxAttempts: nat)
    ensures var e := Do(db, FailStep(j, worker, epoch, retryable, delay, now), maxAttempts);
            if Holder(db, j, worker, epoch, now) then
              && OnlyJob(db, e, j)
              && (retryable && db.jobs[j].attempts < maxAttempts ==>
                    e.jobs[j] == Freed(db.jobs[j], FailedRetryable, now + delay))
              && (!retryable || db.jobs[j].attempts >= maxAttempts ==>
                    e.jobs[j] == Freed(db.jobs[j], FailedPermanent, now + delay))
            else e == db
  {
  }

  /** A renewal moves the holder's lease to now + lease and changes nothing else. */
  lemma RenewalWrites(db: Db, j: Id, worker: Worker, epoch: nat, lease: nat, now: Time, maxAttempts: nat)
    ensures var e := Do(db, RenewStep(j, worker, epoch, lease, now), maxAttempts);
            if Holder(db, j, worker, epoch, now) then
              OnlyJob(db, e, j) && e.jobs[j] == db.jobs[j].(expiresAt := Some(now + lease))
            else e == db
  {
  }

  /** Recovery frees exactly the rows whose lease has run out, at once, for another attempt or for
      good. */
  lemma RecoveryWrites(db: Db, now: Time, maxAttempts: nat)
    ensures var e := Do(db, RecoverStep(now), maxAttempts);
            && e.documents == db.documents && e.artifacts == db.artifacts && e.results == db.results && e.outbox == db.outbox
            && e.jobs.Keys == db.jobs.Keys
            && (forall j | j in db.jobs ::
                  e.jobs[j]
                  == if db.jobs[j].state != Processing || db.jobs[j].expiresAt.None? || db.jobs[j].expiresAt.value > now
                     then db.jobs[j]
                     else if db.jobs[j].attempts < maxAttempts then Freed(db.jobs[j], FailedRetryable, now)
                     else Freed(db.jobs[j], FailedPermanent, now))
  {
  }

  predicate Waiting(job: Job, now: Time, maxAttempts: nat) {
    && (job.state == Queued || (job.state == FailedRetryable && job.attempts < maxAttempts))
    && job.availableAt <= now
  }

  /** j waits, and no waiting job was created before it. */
  ghost predicate NextInLine(db: Db, j: Id, now: Time, maxAttempts: nat) {
    && j in db.jobs && Waiting(db.jobs[j], now, maxAttempts)
    && (forall k | k in db.jobs && Waiting(db.jobs[k], now, maxAttempts) ::
          db.jobs[j].createdAt < db.jobs[k].createdAt || (db.jobs[j].createdAt == db.jobs[k].createdAt && j <= k))
  }

  function Swept(job: Job, now: Time, maxAttempts: nat): Job {
    if job.state == FailedRetryable && job.attempts >= maxAttempts then Freed(job, FailedPermanent, now) else job
  }

  function LeasedTo(job: Job, worker: Worker, expires: Time): Job {
    Job(job.document, job.bundle, Processing, job.attempts + 1, job.availableAt, Some(worker), job.epoch + 1, Some(expires),
        job.createdAt, job.log + [Event(job.state, Processing, Some(worker), job.epoch + 1)])
  }

  ghost predicate AfterClaim(db: Db, e: Db, worker: Worker, expires: Time, now: Time, maxAttempts: nat) {
    && e.documents == db.documents && e.artifacts == db.artifacts && e.results == db.results && e.outbox == db.outbox
    && e.jobs.Keys == db.jobs.Keys
    && (forall j | j in db.jobs && !NextInLine(db, j, now, maxAttempts) :: e.jobs[j] == Swept(db.jobs[j], now, maxAttempts))
    && (forall j | NextInLine(db, j, now, maxAttempts) :: e.jobs[j] == LeasedTo(db.jobs[j], worker, expires))
  }

  lemma SweepWrites(db: Db, now: Time, maxAttempts: nat)
    ensures var swept := MarkExhausted(db, now, maxAttempts);
            && swept == db.(jobs := swept.jobs) && swept.jobs.Keys == db.jobs.Keys
            && (forall j | j in db.jobs ::
                  && swept.jobs[j] == Swept(db.jobs[j], now, maxAttempts)
                  && (Eligible(swept.jobs[j], now, maxAttempts) <==> Waiting(db.jobs[j], now, maxAttempts))
                  && swept.jobs[j].createdAt == db.jobs[j].createdAt)
  {
  }

  lemma NextIsFirst(db: Db, j: Id, now: Time, maxAttempts: nat)
    ensures IsFirst(MarkExhausted(db, now, maxAttempts), j, now, maxAttempts) <==> NextInLine(db, j, now, maxAttempts)
  {
    SweepWrites(db, now, maxAttempts);
    hide MarkExhausted, Eligible, Waiting, Swept;
  }

  lemma OnlyOneIsNext(db: Db, j: Id, k: Id, now: Time, maxAttempts: nat)
    requires NextInLine(db, j, now, maxAttempts) && NextInLine(db, k, now, maxAttempts)
    ensures j == k
  {
  }

  lemma ClaimOfNext(db: Db, j: Id, worker: Worker, expires: Time, now: Time, maxAttempts: nat)
    requires NextInLine(db, j, now, maxAttempts)
    ensures AfterClaim(db, ClaimNext(db, worker, expires, now, maxAttempts), worker, expires, now, maxAttempts)
  {
    var swept := MarkExhausted(db, now, maxAttempts);
    NextIsFirst(db, j, now, maxAttempts);
    SweepWrites(db, now, maxAttempts);
    NextWaits(db, j, now, maxAttempts);
    FirstWins(swept, j, worker, expires, now, maxAttempts);
    forall k | NextInLine(db, k, now, maxAttempts) ensures k == j {
      OnlyOneIsNext(db, j, k, now, maxAttempts);
    }
    assert Leased(db.jobs[j], worker, expires) == LeasedTo(db.jobs[j], worker, expires);
    hide MarkExhausted, IsFirst, NextInLine, Swept, Taken, Leased, LeasedTo, Eligible, Waiting;
  }

  lemma ClaimOfNone(db: Db, worker: Worker, expires: Time, now: Time, maxAttempts: nat)
    requires forall j :: !NextInLine(db, j, now, maxAttempts)
    ensures AfterClaim(db, ClaimNext(db, worker, expires, now, maxAttempts), worker, expires, now, maxAttempts)
  {
    var swept := MarkExhausted(db, now, maxAttempts);
    forall j ensures !IsFirst(swept, j, now, maxAttempts) {
      NextIsFirst(db, j, now, maxAttempts);
    }
    SweepWrites(db, now, maxAttempts);
    hide MarkExhausted, IsFirst, NextInLine, Swept, Leased, LeasedTo, Eligible, Waiting;
  }

  /** A claim fails every retryable job without attempts for good, and leases exactly the next job
      in line, if one waits: one attempt and one epoch more, owned until now + lease. */
  lemma ClaimWrites(db: Db, worker: Worker, lease: nat, now: Time, maxAttempts: nat)
    ensures AfterClaim(db, Do(db, ClaimStep(worker, lease, now), maxAttempts), worker, now + lease, now, maxAttempts)
  {
    hide AfterClaim, ClaimNext, NextInLine;
    if j :| NextInLine(db, j, now, maxAttempts) {
      ClaimOfNext(db, j, worker, now + lease, now, maxAttempts);
    } else {
      ClaimOfNone(db, worker, now + lease, now, maxAttempts);
    }
  }

  lemma NextWaits(db: Db, j: Id, now: Time, maxAttempts: nat)
    requires NextInLine(db, j, now, maxAttempts)
    ensures j in db.jobs && Swept(db.jobs[j], now, maxAttempts) == db.jobs[j]
  {
  }

  /** Some job is next in line exactly when one waits. */
  lemma SomeoneIsNext(db: Db, now: Time, maxAttempts: nat)
    ensures (exists j :: NextInLine(db, j, now, maxAttempts)) <==> exists j :: j in db.jobs && Waiting(db.jobs[j], now, maxAttempts)
  {
    var waiting := set j | j in db.jobs && Waiting(db.jobs[j], now, maxAttempts);
    if waiting != {} {
      var first := Oldest(db, waiting);
      assert forall k | k in db.jobs && Waiting(db.jobs[k], now, maxAttempts) :: k in waiting;
      assert NextInLine(db, first, now, maxAttempts);
    }
    if j :| j in db.jobs && Waiting(db.jobs[j], now, maxAttempts) {
      assert j in waiting;
    }
  }

  lemma {:induction false} Oldest(db: Db, some: set<Id>) returns (first: Id)
    requires some != {} && some <= db.jobs.Keys
    ensures first in some
    ensures forall k | k in some ::
              db.jobs[first].createdAt < db.jobs[k].createdAt || (db.jobs[first].createdAt == db.jobs[k].createdAt && first <= k)
    decreases |some|
  {
    var j :| j in some;
    first := j;
    if some != {j} {
      var rest := Oldest(db, some - {j});
      if !(db.jobs[j].createdAt < db.jobs[rest].createdAt || (db.jobs[j].createdAt == db.jobs[rest].createdAt && j <= rest)) {
        first := rest;
      }
    }
  }

  /** A new document gets one queued job; a known document or job is left alone. */
  lemma EnqueueWrites(db: Db, j: Id, document: Id, page: Document, bundle: Id, now: Time, maxAttempts: nat)
    ensures var e := Do(db, EnqueueStep(j, document, page, bundle, now), maxAttempts);
            if j !in db.jobs && document !in db.documents then
              e == Db(db.documents[document := page], db.jobs[j := Job(document, bundle, Queued, 0, now, None, 0, None, now, [])],
                      db.artifacts, db.results, db.outbox)
            else e == db
  {
  }

  /** The holder's new artifact is recorded for its job. */
  lemma ArtifactWrites(db: Db, a: Id, j: Id, worker: Worker, epoch: nat, now: Time, maxAttempts: nat)
    ensures var e := Do(db, ArtifactStep(a, j, worker, epoch, now), maxAttempts);
            if Holder(db, j, worker, epoch, now) && a !in db.artifacts then e == db.(artifacts := db.artifacts[a := j]) else e == db
  {
  }

  // ------------------------------------------------------------------------------ one whole run

  const PAGE := Document(5, 2)
  const RESULT := Snapshot(Revision(9, 1), 9, 1, 4, 5, 2, 130, {}, 77)
  const MESSAGE := Callback(Revision(9, 1), Revision(9, 1), 130, RESULT)

  const WAITING := Job(9, 4, Queued, 0, 100, None, 0, None, 100, [])

  function Holding(job: Job): Db {
    Db(map[9 := PAGE], map[3 := job], map[], map[], map[])
  }

  lemma ClaimOfOne(job: Job, worker: Worker, lease: nat, now: Time, maxAttempts: nat)
    requires Waiting(job, now, maxAttempts)
    ensures Do(Holding(job), ClaimStep(worker, lease, now), maxAttempts) == Holding(LeasedTo(job, worker, now + lease))
  {
    var db := Holding(job);
    var e := Do(db, ClaimStep(worker, lease, now), maxAttempts);
    ClaimWrites(db, worker, lease, now, maxAttempts);
    assert NextInLine(db, 3, now, maxAttempts);
    hide Do, NextInLine, LeasedTo;
    assert e.jobs == map[3 := LeasedTo(job, worker, now + lease)];
  }

  lemma RecoveryOfOne(job: Job, now: Time, maxAttempts: nat)
    requires job.state == Processing && job.expiresAt.Some? && job.expiresAt.value <= now && job.attempts < maxAttempts
    ensures Do(Holding(job), RecoverStep(now), maxAttempts) == Holding(Freed(job, FailedRetryable, now))
  {
    var db := Holding(job);
    var e := Do(db, RecoverStep(now), maxAttempts);
    RecoveryWrites(db, now, maxAttempts);
    hide Do, Freed;
    assert e.jobs == map[3 := Freed(job, FailedRetryable, now)];
  }

  /** Queued, claimed, lost, recovered, claimed again and completed: two attempts, one result, one
      callback. */
  lemma SecondAttemptSucceeds(maxAttempts: nat)
    requires maxAttempts >= 2
    ensures var e := Run(EMPTY_DB, [EnqueueStep(3, 9, PAGE, 4, 100), ClaimStep(1, 10, 105), RecoverStep(115), ClaimStep(2, 10, 120),
                                    CompleteStep(3, 2, 2, RESULT, MESSAGE, 125)], maxAttempts);
            && e.jobs.Keys == {3} && e.jobs[3].state == Completed && e.jobs[3].attempts == 2 == e.jobs[3].epoch
            && e.results == map[RESULT.id := ResultRow(3, RESULT)]
            && e.outbox == map[RESULT.id := OutboxRow(3, RESULT.id, RESULT.id, MESSAGE)]
  {
    EnqueueWrites(EMPTY_DB, 3, 9, PAGE, 4, 100, maxAttempts);
    var first := LeasedTo(WAITING, 1, 115);
    var freed := Freed(first, FailedRetryable, 115);
    var second := LeasedTo(freed, 2, 130);
    ClaimOfOne(WAITING, 1, 10, 105, maxAttempts);
    RecoveryOfOne(first, 115, maxAttempts);
    ClaimOfOne(freed, 2, 10, 120, maxAttempts);
    CompletionWrites(Holding(second), 3, 2, 2, RESULT, MESSAGE, 125, maxAttempts);
    RunOfFive(EMPTY_DB, EnqueueStep(3, 9, PAGE, 4, 100), ClaimStep(1, 10, 105), RecoverStep(115), ClaimStep(2, 10, 120),
              CompleteStep(3, 2, 2, RESULT, MESSAGE, 125), maxAttempts);
    assert EMPTY_DB.documents[9 := PAGE] == map[9 := PAGE] && EMPTY_DB.jobs[3 := WAITING] == map[3 := WAITING];
    hide Do, Run;
  }

  lemma RunOfFive(db: Db, a: Step, b: Step, c: Step, d: Step, e: Step, m: nat)
    ensures Run(db, [a, b, c, d, e], m) == Do(Do(Do(Do(Do(db, a, m), b, m), c, m), d, m), e, m)
  {
    hide Do;
    assert [a, b, c, d, e][1..] == [b, c, d, e] && [b, c, d, e][1..] == [c, d, e] && [c, d, e][1..] == [d, e];
    assert [d, e][1..] == [e] && [e][1..] == [];
    var x := Do(Do(Do(db, a, m), b, m), c, m);
    assert Run(Do(Do(x, d, m), e, m), [], m) == Do(Do(x, d, m), e, m);
    assert Run(Do(x, d, m), [e], m) == Run(Do(Do(x, d, m), e, m), [], m);
    assert Run(x, [d, e], m) == Run(Do(x, d, m), [e], m);
    assert Run(Do(Do(db, a, m), b, m), [c, d, e], m) == Run(x, [d, e], m);
    assert Run(Do(db, a, m), [b, c, d, e], m) == Run(Do(Do(db, a, m), b, m), [c, d, e], m);
  }
}
