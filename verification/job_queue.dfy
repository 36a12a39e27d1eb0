/** Leased jobs and what they publish (storage.py). */
module JobQueue {
  // Leases with epochs, retries, expiry, and a result committed together with its
  // callback.  `JobStore` is the database the scanner updates, one method per transaction.  `Db` is
  // its value.  A run is any sequence of `Step`s, so the theorems about `Run` hold for any number
  // of workers, any clock readings and any lease expiries.  Identifiers are numbers of which only
  // equality and order are used; identifiers derived by SHA-256 are constructors.

  type Id = nat
  type Worker = nat
  type Time = int

  datatype Option<+T> = None | Some(value: T)

  datatype JobState = Queued | Processing | Completed | FailedRetryable | FailedPermanent

  datatype Job = Job(
    document: Id,
    bundle: Id,
    state: JobState,
    attempts: nat,
    availableAt: Time,
    owner: Option<Worker>,
    epoch: nat,
    expiresAt: Option<Time>,
    createdAt: Time,
    log: seq<Event>)    // the state_events rows of this job, in sequence order

  datatype Event = Event(from: JobState, to: JobState, owner: Option<Worker>, epoch: nat)

  datatype Document = Document(source: Id, page: nat)

  // result_id, callback event_id and idempotency key are injective functions of this pair.
  datatype Revision = Revision(document: Id, revision: nat)

  datatype Snapshot = Snapshot(
    id: Revision, document: Id, revision: nat, bundle: Id, source: Id, page: nat,
    completedAt: Time, artifacts: set<Id>, payload: Id)

  datatype Callback = Callback(eventId: Revision, key: Revision, occurredAt: Time, result: Snapshot)

  datatype ResultRow = ResultRow(job: Id, snapshot: Snapshot)
  datatype OutboxRow = OutboxRow(job: Id, result: Revision, key: Revision, callback: Callback)

  datatype Db = Db(
    documents: map<Id, Document>,
    jobs: map<Id, Job>,
    artifacts: map<Id, Id>,
    results: map<Revision, ResultRow>,
    outbox: map<Revision, OutboxRow>)

  datatype ClaimedJob = ClaimedJob(job: Id, document: Id, bundle: Id, attempts: nat, worker: Worker, epoch: nat, expiresAt: Time)

  datatype Outcome = Done | LeaseLost | Rejected

  // ------------------------------------------------------------------- what one row may become

  predicate Owns(job: Job, worker: Worker, epoch: nat, now: Time) {
    && job.state == Processing
    && job.owner == Some(worker)
    && job.epoch == epoch
    && job.expiresAt.Some?
    && now < job.expiresAt.value
  }

  predicate Exhausted(job: Job, maxAttempts: nat) {
    job.state == FailedRetryable && job.attempts >= maxAttempts
  }

  predicate Expired(job: Job, now: Time) {
    job.state == Processing && job.expiresAt.Some? && job.expiresAt.value <= now
  }

  predicate Eligible(job: Job, now: Time, maxAttempts: nat) {
    && (job.state == Queued || (job.state == FailedRetryable && job.attempts < maxAttempts))
    && job.availableAt <= now
  }

  /** The failure state: retry while attempts are left. */
  function AfterFailure(job: Job, retryable: bool, maxAttempts: nat): JobState {
    if retryable && job.attempts < maxAttempts then FailedRetryable else FailedPermanent
  }

  /** The row leaves the leased (or exhausted) state and the transition is logged. */
  function Dropped(job: Job, state: JobState, availableAt: Time): Job {
    job.(state := state, availableAt := availableAt, owner := None, expiresAt := None,
         log := job.log + [Event(job.state, state, job.owner, job.epoch)])
  }

  function Leased(job: Job, worker: Worker, expires: Time): Job {
    job.(state := Processing, attempts := job.attempts + 1, owner := Some(worker),
         epoch := job.epoch + 1, expiresAt := Some(expires),
         log := job.log + [Event(job.state, Processing, Some(worker), job.epoch + 1)])
  }

  // --------------------------------------------------------------------- whole transactions

  /** Every exhausted row becomes failed_permanent; no other row changes. */
  function MarkExhausted(db: Db, now: Time, maxAttempts: nat): Db {
    db.(jobs := map j | j in db.jobs ::
          if Exhausted(db.jobs[j], maxAttempts) then Dropped(db.jobs[j], FailedPermanent, now) else db.jobs[j])
  }

  /** Every expired row is released; no other row changes. */
  function RecoverExpired(db: Db, now: Time, maxAttempts: nat): Db {
    db.(jobs := map j | j in db.jobs ::
          if Expired(db.jobs[j], now)
          then Dropped(db.jobs[j], AfterFailure(db.jobs[j], true, maxAttempts), now) else db.jobs[j])
  }

  function ExpiredJobs(jobs: map<Id, Job>, now: Time): set<Id> {
    set j | j in jobs && Expired(jobs[j], now)
  }

  predicate OlderThan(jobs: map<Id, Job>, j: Id, k: Id)
    requires j in jobs && k in jobs
  {
    jobs[j].createdAt < jobs[k].createdAt || (jobs[j].createdAt == jobs[k].createdAt && j <= k)
  }

  predicate IsFirst(db: Db, j: Id, now: Time, maxAttempts: nat) {
    && j in db.jobs && Eligible(db.jobs[j], now, maxAttempts)
    && forall k | k in db.jobs && Eligible(db.jobs[k], now, maxAttempts) :: OlderThan(db.jobs, j, k)
  }

  function Claim(db: Db, j: Id, worker: Worker, expires: Time): Db
    requires j in db.jobs
  {
    db.(jobs := db.jobs[j := Leased(db.jobs[j], worker, expires)])
  }

  ghost function Taken(swept: Db, worker: Worker, expires: Time, now: Time, maxAttempts: nat): Db {
    if j :| IsFirst(swept, j, now, maxAttempts) then Claim(swept, j, worker, expires) else swept
  }

  ghost function ClaimNext(db: Db, worker: Worker, expires: Time, now: Time, maxAttempts: nat): Db {
    Taken(MarkExhausted(db, now, maxAttempts), worker, expires, now, maxAttempts)
  }

  /** The oldest eligible row is unique, so a claim is deterministic. */
  lemma FirstWins(swept: Db, j: Id, worker: Worker, expires: Time, now: Time, maxAttempts: nat)
    requires IsFirst(swept, j, now, maxAttempts)
    ensures Taken(swept, worker, expires, now, maxAttempts) == Claim(swept, j, worker, expires)
  {
  }

  function Renew(db: Db, j: Id, worker: Worker, epoch: nat, expires: Time, now: Time): Db {
    if j in db.jobs && Owns(db.jobs[j], worker, epoch, now)
    then db.(jobs := db.jobs[j := db.jobs[j].(expiresAt := Some(expires))])
    else db
  }

  function Fail(db: Db, j: Id, worker: Worker, epoch: nat, retryable: bool, delay: nat, now: Time, maxAttempts: nat): Db {
    if j in db.jobs && Owns(db.jobs[j], worker, epoch, now)
    then db.(jobs := db.jobs[j := Dropped(db.jobs[j], AfterFailure(db.jobs[j], retryable, maxAttempts), now + delay)])
    else db
  }

  /** The checks of complete_job after ownership, in terms of the stored rows. */
  predicate Consistent(db: Db, j: Id, result: Snapshot, callback: Callback)
    requires j in db.jobs
  {
    var job := db.jobs[j];
    && callback.result == result
    && job.document == result.document
    && job.bundle == result.bundle
    && job.document in db.documents
    && db.documents[job.document] == Document(result.source, result.page)
    && result.id == Revision(result.document, result.revision)
    && callback.eventId == Revision(result.document, result.revision)
    && callback.key == Revision(result.document, result.revision)
    && callback.occurredAt == result.completedAt
    && (forall a | a in result.artifacts :: a in db.artifacts && db.artifacts[a] == j)
  }

  /** Unique keys of the results and outbox tables. */
  predicate Fresh(db: Db, j: Id, result: Snapshot) {
    && result.id !in db.results && result.id !in db.outbox
    && (forall r | r in db.results :: db.results[r].job == j ==> db.results[r].snapshot.revision != result.revision)
  }

  predicate CanComplete(db: Db, j: Id, worker: Worker, epoch: nat, result: Snapshot, callback: Callback, now: Time) {
    j in db.jobs && Owns(db.jobs[j], worker, epoch, now) && Consistent(db, j, result, callback) && Fresh(db, j, result)
  }

  function Complete(db: Db, j: Id, worker: Worker, epoch: nat, result: Snapshot, callback: Callback, now: Time): Db {
    if !CanComplete(db, j, worker, epoch, result, callback, now) then db
    else
      db.(jobs := db.jobs[j := Dropped(db.jobs[j], Completed, db.jobs[j].availableAt)],
          results := db.results[result.id := ResultRow(j, result)],
          outbox := db.outbox[callback.eventId := OutboxRow(j, result.id, callback.key, callback)])
  }

  /** INSERT OR IGNORE of a document's job: one job per document, never re-opened. */
  function Enqueue(db: Db, j: Id, document: Id, page: Document, bundle: Id, now: Time): Db {
    if j in db.jobs || document in db.documents then db
    else db.(documents := db.documents[document := page],
             jobs := db.jobs[j := Job(document, bundle, Queued, 0, now, None, 0, None, now, [])])
  }

  function RecordArtifact(db: Db, a: Id, j: Id, worker: Worker, epoch: nat, now: Time): Db {
    if j in db.jobs && Owns(db.jobs[j], worker, epoch, now) && a !in db.artifacts
    then db.(artifacts := db.artifacts[a := j])
    else db
  }

  // ----------------------------------------------------------------------- the database object

  class JobStore {
    var documents: map<Id, Document>
    var jobs: map<Id, Job>
    var artifacts: map<Id, Id>
    var results: map<Revision, ResultRow>
    var outbox: map<Revision, OutboxRow>

    function State(): Db
      reads this
    {
      Db(documents, jobs, artifacts, results, outbox)
    }

    constructor ()
      ensures State() == Db(map[], map[], map[], map[], map[])
    {
      documents, jobs, artifacts, results, outbox := map[], map[], map[], map[], map[];
    }

    method UpdateJob(j: Id, state: JobState, availableAt: Time)
      requires j in jobs
      modifies this`jobs
      ensures jobs == old(jobs)[j := Dropped(old(jobs)[j], state, availableAt)]
    {
      var row := jobs[j];
      var event := Event(row.state, state, row.owner, row.epoch);
      jobs := jobs[j := row.(state := state, availableAt := availableAt, owner := None, expiresAt := None,
                             log := row.log + [event])];
    }

    method MarkExhaustedJobs(now: Time, maxAttempts: nat)
      modifies this`jobs
      ensures State() == MarkExhausted(old(State()), now, maxAttempts)
    {
      var goal := MarkExhausted(State(), now, maxAttempts).jobs;
      var rows := set j | j in jobs && Exhausted(jobs[j], maxAttempts);
      while rows != {}
        invariant rows <= jobs.Keys == goal.Keys
        invariant forall j | j in rows :: Exhausted(jobs[j], maxAttempts) && goal[j] == Dropped(jobs[j], FailedPermanent, now)
        invariant forall j | j in jobs && j !in rows :: jobs[j] == goal[j]
      {
        var j :| j in rows;
        UpdateJob(j, FailedPermanent, now);
        rows := rows - {j};
      }
      assert jobs == goal;
    }

    method RecoverExpiredLeases(now: Time, maxAttempts: nat) returns (recovered: nat)
      modifies this`jobs
      ensures State() == RecoverExpired(old(State()), now, maxAttempts)
      ensures recovered == |ExpiredJobs(old(jobs), now)|
    {
      var goal := RecoverExpired(State(), now, maxAttempts).jobs;
      var rows := ExpiredJobs(jobs, now);
      recovered := 0;
      while rows != {}
        invariant rows <= jobs.Keys == goal.Keys
        invariant recovered + |rows| == |ExpiredJobs(old(jobs), now)|
        invariant forall j | j in rows ::
          goal[j] == Dropped(jobs[j], AfterFailure(jobs[j], true, maxAttempts), now)
        invariant forall j | j in jobs && j !in rows :: jobs[j] == goal[j]
      {
        var j :| j in rows;
        var exhausted := jobs[j].attempts >= maxAttempts;
        UpdateJob(j, if exhausted then FailedPermanent else FailedRetryable, now);
        recovered := recovered + 1;
        rows := rows - {j};
      }
      assert jobs == goal;
    }

    /** SELECT ... ORDER BY created_at, job_id LIMIT 1 over the eligible rows. */
    method OldestEligible(now: Time, maxAttempts: nat) returns (first: Option<Id>)
      ensures first.None? ==> forall j | j in jobs :: !Eligible(jobs[j], now, maxAttempts)
      ensures first.Some? ==> IsFirst(State(), first.value, now, maxAttempts)
    {
      var candidates := set j | j in jobs && Eligible(jobs[j], now, maxAttempts);
      if candidates == {} {
        assert forall j | j in jobs :: Eligible(jobs[j], now, maxAttempts) ==> j in candidates;
        return None;
      }
      var oldest :| oldest in candidates;
      var rest := candidates - {oldest};
      while rest != {}
        invariant oldest in candidates && rest <= candidates
        invariant forall k | k in candidates && k !in rest :: OlderThan(jobs, oldest, k)
      {
        var j :| j in rest;
        if OlderThan(jobs, j, oldest) {
          oldest := j;
        }
        rest := rest - {j};
      }
      return Some(oldest);
    }

    /** Exhausts what is exhausted, then leases the oldest eligible row, if there is one. */
    method ClaimJob(worker: Worker, leaseSeconds: nat, maxAttempts: nat, now: Time) returns (claimed: Option<ClaimedJob>)
      modifies this`jobs
      ensures State() == ClaimNext(old(State()), worker, now + leaseSeconds, now, maxAttempts)
      ensures var swept := MarkExhausted(old(State()), now, maxAttempts);
              match claimed
              case None => forall j | j in swept.jobs :: !Eligible(swept.jobs[j], now, maxAttempts)
              case Some(c) =>
                && IsFirst(swept, c.job, now, maxAttempts)
                && Owns(jobs[c.job], worker, c.epoch, c.expiresAt - 1)
                && c == ClaimedJob(c.job, jobs[c.job].document, jobs[c.job].bundle, jobs[c.job].attempts,
                                   worker, jobs[c.job].epoch, now + leaseSeconds)
    {
      MarkExhaustedJobs(now, maxAttempts);
      ghost var swept := State();
      var first := OldestEligible(now, maxAttempts);
      if first == None {
        return None;
      }
      var j := first.value;
      FirstWins(swept, j, worker, now + leaseSeconds, now, maxAttempts);
      var row := jobs[j];
      var event := Event(row.state, Processing, Some(worker), row.epoch + 1);
      jobs := jobs[j := row.(state := Processing, attempts := row.attempts + 1, owner := Some(worker),
                             epoch := row.epoch + 1, expiresAt := Some(now + leaseSeconds),
                             log := row.log + [event])];
      return Some(ClaimedJob(j, row.document, row.bundle, row.attempts + 1, worker, row.epoch + 1, now + leaseSeconds));
    }

    method RenewLease(j: Id, worker: Worker, epoch: nat, leaseSeconds: nat, now: Time) returns (outcome: Outcome)
      modifies this`jobs
      ensures State() == Renew(old(State()), j, worker, epoch, now + leaseSeconds, now)
      ensures outcome == if j in old(jobs) && Owns(old(jobs)[j], worker, epoch, now) then Done else LeaseLost
    {
      if !(j in jobs && Owns(jobs[j], worker, epoch, now)) {
        return LeaseLost;
      }
      jobs := jobs[j := jobs[j].(expiresAt := Some(now + leaseSeconds))];
      return Done;
    }

    method FailJob(j: Id, worker: Worker, epoch: nat, retryable: bool, delay: nat, now: Time, maxAttempts: nat)
      returns (outcome: Outcome)
      modifies this`jobs
      ensures State() == Fail(old(State()), j, worker, epoch, retryable, delay, now, maxAttempts)
      ensures outcome == if j in old(jobs) && Owns(old(jobs)[j], worker, epoch, now) then Done else LeaseLost
    {
      if !(j in jobs && Owns(jobs[j], worker, epoch, now)) {
        return LeaseLost;
      }
      var exhausted := jobs[j].attempts >= maxAttempts;
      UpdateJob(j, if retryable && !exhausted then FailedRetryable else FailedPermanent, now + delay);
      return Done;
    }

    /** Result, callback and job row change together, or nothing does. */
    method CompleteJob(j: Id, worker: Worker, epoch: nat, result: Snapshot, callback: Callback, now: Time)
      returns (outcome: Outcome)
      modifies this`jobs, this`results, this`outbox
      ensures State() == Complete(old(State()), j, worker, epoch, result, callback, now)
      ensures outcome == Done <==> CanComplete(old(State()), j, worker, epoch, result, callback, now)
      ensures outcome == LeaseLost ==> !(j in old(jobs) && Owns(old(jobs)[j], worker, epoch, now))
    {
      if callback.result != result {
        return Rejected;
      }
      if !(j in jobs && Owns(jobs[j], worker, epoch, now)) {
        return LeaseLost;
      }
      if !Consistent(State(), j, result, callback) {
        return Rejected;
      }
      if !Fresh(State(), j, result) {
        return Rejected;
      }
      results := results[result.id := ResultRow(j, result)];
      outbox := outbox[callback.eventId := OutboxRow(j, result.id, callback.key, callback)];
      UpdateJob(j, Completed, jobs[j].availableAt);
      return Done;
    }
  }

  // --------------------------------------------------------------------------------- runs

  datatype Step =
    | EnqueueStep(j: Id, document: Id, page: Document, bundle: Id, now: Time)
    | ArtifactStep(a: Id, j: Id, worker: Worker, epoch: nat, now: Time)
    | ClaimStep(worker: Worker, lease: nat, now: Time)
    | RenewStep(j: Id, worker: Worker, epoch: nat, lease: nat, now: Time)
    | RecoverStep(now: Time)
    | FailStep(j: Id, worker: Worker, epoch: nat, retryable: bool, delay: nat, now: Time)
    | CompleteStep(j: Id, worker: Worker, epoch: nat, result: Snapshot, callback: Callback, now: Time)

  ghost function Do(db: Db, s: Step, maxAttempts: nat): Db {
    match s
    case EnqueueStep(j, document, page, bundle, now) => Enqueue(db, j, document, page, bundle, now)
    case ArtifactStep(a, j, worker, epoch, now) => RecordArtifact(db, a, j, worker, epoch, now)
    case ClaimStep(worker, lease, now) => ClaimNext(db, worker, now + lease, now, maxAttempts)
    case RenewStep(j, worker, epoch, lease, now) => Renew(db, j, worker, epoch, now + lease, now)
    case RecoverStep(now) => RecoverExpired(db, now, maxAttempts)
    case FailStep(j, worker, epoch, retryable, delay, now) => Fail(db, j, worker, epoch, retryable, delay, now, maxAttempts)
    case CompleteStep(j, worker, epoch, result, callback, now) => Complete(db, j, worker, epoch, result, callback, now)
  }

  ghost function Run(db: Db, steps: seq<Step>, maxAttempts: nat): Db
    decreases |steps|
  {
    if steps == [] then db else Run(Do(db, steps[0], maxAttempts), steps[1..], maxAttempts)
  }

  const EMPTY_DB := Db(map[], map[], map[], map[], map[])

  // ------------------------------------------------------------------------- the audit trail

  datatype View = View(state: JobState, epoch: nat, owner: Option<Worker>)

  predicate MayStart(state: JobState) {
    state == Queued || state == FailedRetryable
  }

  /** Replays the audit trail from a fresh job, refusing any illegal transition. */
  function Replay(log: seq<Event>): Option<View> {
    if log == [] then Some(View(Queued, 0, None))
    else
      match Replay(log[..|log| - 1])
      case None => None
      case Some(v) =>
        var e := log[|log| - 1];
        if e.from != v.state then None
        else if e.to == Processing then
          if MayStart(v.state) && e.epoch == v.epoch + 1 && e.owner.Some? then Some(View(Processing, e.epoch, e.owner)) else None
        else if e.epoch == v.epoch && e.owner == v.owner
             && (v.state == Processing || (v.state == FailedRetryable && e.to == FailedPermanent))
             && (e.to == Completed || e.to == FailedRetryable || e.to == FailedPermanent)
        then Some(View(e.to, e.epoch, None))
        else None
  }

  function Claims(log: seq<Event>): nat {
    if log == [] then 0
    else Claims(log[..|log| - 1]) + (if log[|log| - 1].to == Processing then 1 else 0)
  }

  ghost predicate JobOk(job: Job, maxAttempts: nat) {
    && job.attempts == job.epoch == Claims(job.log) <= maxAttempts
    && (job.state == Processing <==> job.owner.Some?)
    && (job.owner.Some? <==> job.expiresAt.Some?)
    && (job.state == Queued ==> job.log == [])
    && Replay(job.log) == Some(View(job.state, job.epoch, job.owner))
  }

  ghost predicate JobsOk(db: Db, maxAttempts: nat) {
    forall j | j in db.jobs :: JobOk(db.jobs[j], maxAttempts)
  }

  ghost predicate HasResult(db: Db, j: Id) {
    exists r :: r in db.results && db.results[r].job == j
  }

  /** A result and its callback carry the same snapshot and belong to the same completed job. */
  ghost predicate RowPublished(db: Db, r: Revision)
    requires r in db.results && r in db.outbox
  {
    var row := db.results[r];
    && row.job in db.jobs && db.jobs[row.job].state == Completed
    && r == row.snapshot.id && r.document == db.jobs[row.job].document
    && db.outbox[r] == OutboxRow(row.job, r, r, db.outbox[r].callback)
    && db.outbox[r].callback.result == row.snapshot
  }

  ghost predicate OnePerJob(results: map<Revision, ResultRow>) {
    forall r, q | r in results && q in results && results[r].job == results[q].job :: r == q
  }

  ghost predicate PublishedOk(db: Db) {
    && db.outbox.Keys == db.results.Keys
    && (forall r | r in db.results :: RowPublished(db, r))
    && OnePerJob(db.results)
    && (forall j | j in db.jobs && db.jobs[j].state == Completed :: HasResult(db, j))
  }

  ghost predicate Inv(db: Db, maxAttempts: nat) {
    JobsOk(db, maxAttempts) && PublishedOk(db)
  }

  lemma DroppedOk(job: Job, state: JobState, availableAt: Time, maxAttempts: nat)
    requires JobOk(job, maxAttempts)
    requires (job.state == Processing && (state == Completed || state == FailedRetryable || state == FailedPermanent))
             || (job.state == FailedRetryable && state == FailedPermanent)
    ensures JobOk(Dropped(job, state, availableAt), maxAttempts)
  {
  }

  lemma LeasedOk(job: Job, worker: Worker, expires: Time, maxAttempts: nat)
    requires JobOk(job, maxAttempts) && maxAttempts >= 1
    requires job.state == Queued || (job.state == FailedRetryable && job.attempts < maxAttempts)
    ensures JobOk(Leased(job, worker, expires), maxAttempts)
  {
  }

  ghost predicate SameIdentity(before: Job, after: Job) {
    after.document == before.document && (after.state == Completed <==> before.state == Completed)
  }

  /** Changing rows in place, never into or out of `completed`, keeps everything published. */
  lemma RowsKept(db: Db, after: Db, maxAttempts: nat)
    requires Inv(db, maxAttempts)
    requires after.results == db.results && after.outbox == db.outbox
    requires after.jobs.Keys == db.jobs.Keys
    requires forall j | j in db.jobs :: SameIdentity(db.jobs[j], after.jobs[j]) && JobOk(after.jobs[j], maxAttempts)
    ensures Inv(after, maxAttempts)
  {
  }

  lemma ExhaustKeeps(db: Db, now: Time, maxAttempts: nat)
    requires Inv(db, maxAttempts)
    ensures Inv(MarkExhausted(db, now, maxAttempts), maxAttempts)
  {
    var after := MarkExhausted(db, now, maxAttempts);
    forall j | j in db.jobs
      ensures SameIdentity(db.jobs[j], after.jobs[j]) && JobOk(after.jobs[j], maxAttempts) {
      if Exhausted(db.jobs[j], maxAttempts) {
        DroppedOk(db.jobs[j], FailedPermanent, now, maxAttempts);
      }
    }
    RowsKept(db, after, maxAttempts);
  }

  lemma RecoverKeeps(db: Db, now: Time, maxAttempts: nat)
    requires Inv(db, maxAttempts)
    ensures Inv(RecoverExpired(db, now, maxAttempts), maxAttempts)
  {
    var after := RecoverExpired(db, now, maxAttempts);
    forall j | j in db.jobs
      ensures SameIdentity(db.jobs[j], after.jobs[j]) && JobOk(after.jobs[j], maxAttempts) {
      if Expired(db.jobs[j], now) {
        DroppedOk(db.jobs[j], AfterFailure(db.jobs[j], true, maxAttempts), now, maxAttempts);
      }
    }
    RowsKept(db, after, maxAttempts);
  }

  /** One row replaced, all others as they were. */
  lemma RowKept(db: Db, j: Id, row: Job, maxAttempts: nat)
    requires Inv(db, maxAttempts) && j in db.jobs
    requires SameIdentity(db.jobs[j], row) && JobOk(row, maxAttempts)
    ensures Inv(db.(jobs := db.jobs[j := row]), maxAttempts)
  {
    var after := db.(jobs := db.jobs[j := row]);
    forall k | k in db.jobs ensures SameIdentity(db.jobs[k], after.jobs[k]) && JobOk(after.jobs[k], maxAttempts) {
      if k != j {
        assert after.jobs[k] == db.jobs[k];
      }
    }
    RowsKept(db, after, maxAttempts);
  }

  lemma ClaimKeeps(db: Db, worker: Worker, expires: Time, now: Time, maxAttempts: nat)
    requires Inv(db, maxAttempts) && maxAttempts >= 1
    ensures Inv(ClaimNext(db, worker, expires, now, maxAttempts), maxAttempts)
  {
    ExhaustKeeps(db, now, maxAttempts);
    var swept := MarkExhausted(db, now, maxAttempts);
    forall j | IsFirst(swept, j, now, maxAttempts) ensures Inv(Claim(swept, j, worker, expires), maxAttempts) {
      LeasedOk(swept.jobs[j], worker, expires, maxAttempts);
      RowKept(swept, j, Leased(swept.jobs[j], worker, expires), maxAttempts);
    }
  }

  lemma ArtifactKeeps(db: Db, a: Id, j: Id, worker: Worker, epoch: nat, now: Time, maxAttempts: nat)
    requires Inv(db, maxAttempts)
    ensures Inv(RecordArtifact(db, a, j, worker, epoch, now), maxAttempts)
  {
  }

  /** What must hold of a result, its callback and its job's row for the three to be written. */
  ghost predicate Publishable(db: Db, j: Id, row: Job, r: Revision, result: ResultRow, message: OutboxRow) {
    && j in db.jobs && db.jobs[j].state != Completed
    && row.document == db.jobs[j].document && row.state == Completed
    && r !in db.results && r == result.snapshot.id && r.document == row.document && result.job == j
    && message == OutboxRow(j, r, r, message.callback) && message.callback.result == result.snapshot
  }

  function Published(db: Db, j: Id, row: Job, r: Revision, result: ResultRow, message: OutboxRow): Db {
    db.(jobs := db.jobs[j := row], results := db.results[r := result], outbox := db.outbox[r := message])
  }

  lemma PublishedRows(db: Db, j: Id, row: Job, r: Revision, result: ResultRow, message: OutboxRow)
    requires PublishedOk(db) && Publishable(db, j, row, r, result, message)
    ensures forall q | q in Published(db, j, row, r, result, message).results ::
              RowPublished(Published(db, j, row, r, result, message), q)
    ensures forall q | q in db.results :: db.results[q].job != j
  {
  }

  lemma PublishedJobs(db: Db, j: Id, row: Job, r: Revision, result: ResultRow, message: OutboxRow)
    requires PublishedOk(db) && Publishable(db, j, row, r, result, message)
    ensures var after := Published(db, j, row, r, result, message);
            forall k | k in after.jobs && after.jobs[k].state == Completed :: HasResult(after, k)
  {
    var after := Published(db, j, row, r, result, message);
    forall k | k in after.jobs && after.jobs[k].state == Completed ensures HasResult(after, k) {
      if k == j {
        assert after.results[r].job == k;
      } else {
        assert HasResult(db, k);
        var q :| q in db.results && db.results[q].job == k;
        assert after.results[q].job == k;
      }
    }
  }

  lemma PublishKeeps(db: Db, j: Id, row: Job, r: Revision, result: ResultRow, message: OutboxRow, maxAttempts: nat)
    requires Inv(db, maxAttempts) && Publishable(db, j, row, r, result, message) && JobOk(row, maxAttempts)
    ensures Inv(Published(db, j, row, r, result, message), maxAttempts)
  {
    hide JobOk, RowPublished, HasResult;
    PublishedRows(db, j, row, r, result, message);
    PublishedJobs(db, j, row, r, result, message);
  }

  lemma CompleteKeeps(db: Db, j: Id, worker: Worker, epoch: nat, result: Snapshot, callback: Callback, now: Time, maxAttempts: nat)
    requires Inv(db, maxAttempts)
    ensures Inv(Complete(db, j, worker, epoch, result, callback, now), maxAttempts)
  {
    if CanComplete(db, j, worker, epoch, result, callback, now) {
      var row := Dropped(db.jobs[j], Completed, db.jobs[j].availableAt);
      DroppedOk(db.jobs[j], Completed, db.jobs[j].availableAt, maxAttempts);
      PublishKeeps(db, j, row, result.id, ResultRow(j, result), OutboxRow(j, result.id, callback.key, callback), maxAttempts);
    }
  }

  lemma EnqueueKeeps(db: Db, j: Id, document: Id, page: Document, bundle: Id, now: Time, maxAttempts: nat)
    requires Inv(db, maxAttempts)
    ensures Inv(Enqueue(db, j, document, page, bundle, now), maxAttempts)
  {
    if j !in db.jobs && document !in db.documents {
      var job := Job(document, bundle, Queued, 0, now, None, 0, None, now, []);
      var after := Enqueue(db, j, document, page, bundle, now);
      assert JobOk(job, maxAttempts);
      hide JobOk;
      forall k | k in after.jobs && after.jobs[k].state == Completed ensures HasResult(after, k) {
        assert HasResult(db, k);
      }
    }
  }

  lemma FailKeeps(db: Db, j: Id, worker: Worker, epoch: nat, retryable: bool, delay: nat, now: Time, maxAttempts: nat)
    requires Inv(db, maxAttempts)
    ensures Inv(Fail(db, j, worker, epoch, retryable, delay, now, maxAttempts), maxAttempts)
  {
    if j in db.jobs && Owns(db.jobs[j], worker, epoch, now) {
      var state := AfterFailure(db.jobs[j], retryable, maxAttempts);
      DroppedOk(db.jobs[j], state, now + delay, maxAttempts);
      RowKept(db, j, Dropped(db.jobs[j], state, now + delay), maxAttempts);
    }
  }

  lemma RenewKeeps(db: Db, j: Id, worker: Worker, epoch: nat, expires: Time, now: Time, maxAttempts: nat)
    requires Inv(db, maxAttempts)
    ensures Inv(Renew(db, j, worker, epoch, expires, now), maxAttempts)
  {
  }

  lemma StepKeeps(db: Db, s: Step, maxAttempts: nat)
    requires Inv(db, maxAttempts) && maxAttempts >= 1
    ensures Inv(Do(db, s, maxAttempts), maxAttempts)
  {
    hide Inv;
    match s
    case EnqueueStep(j, document, page, bundle, now) => EnqueueKeeps(db, j, document, page, bundle, now, maxAttempts);
    case ArtifactStep(a, j, worker, epoch, now) => ArtifactKeeps(db, a, j, worker, epoch, now, maxAttempts);
    case ClaimStep(worker, lease, now) => ClaimKeeps(db, worker, now + lease, now, maxAttempts);
    case RenewStep(j, worker, epoch, lease, now) => RenewKeeps(db, j, worker, epoch, now + lease, now, maxAttempts);
    case RecoverStep(now) => RecoverKeeps(db, now, maxAttempts);
    case FailStep(j, worker, epoch, retryable, delay, now) =>
      FailKeeps(db, j, worker, epoch, retryable, delay, now, maxAttempts);
    case CompleteStep(j, worker, epoch, result, callback, now) =>
      CompleteKeeps(db, j, worker, epoch, result, callback, now, maxAttempts);
  }

  lemma {:induction false} RunKeeps(db: Db, steps: seq<Step>, maxAttempts: nat)
    requires Inv(db, maxAttempts) && maxAttempts >= 1
    ensures Inv(Run(db, steps, maxAttempts), maxAttempts)
    decreases |steps|
  {
    if steps != [] {
      StepKeeps(db, steps[0], maxAttempts);
      RunKeeps(Do(db, steps[0], maxAttempts), steps[1..], maxAttempts);
    }
  }

  /** Over every run: attempts, epoch and logged claims agree and stay within the maximum, the log
      replays to the row, and a job has exactly one result and one callback when it is completed
      and none otherwise. */
  lemma EveryRunIsSound(steps: seq<Step>, maxAttempts: nat, j: Id)
    requires maxAttempts >= 1 && j in Run(EMPTY_DB, steps, maxAttempts).jobs
    ensures var db := Run(EMPTY_DB, steps, maxAttempts);
            var job := db.jobs[j];
            && job.attempts == job.epoch == Claims(job.log) <= maxAttempts
            && Replay(job.log) == Some(View(job.state, job.epoch, job.owner))
            && db.outbox.Keys == db.results.Keys
            && (job.state == Completed <==> HasResult(db, j))
            && (forall r, q | r in db.results && q in db.results && db.results[r].job == j == db.results[q].job :: r == q)
            && (forall r | r in db.results :: db.outbox[r].job == db.results[r].job
                                              && db.outbox[r].callback.result == db.results[r].snapshot)
  {
    RunKeeps(EMPTY_DB, steps, maxAttempts);
  }

  // ------------------------------------------------------------------------------- fencing

  predicate Terminal(state: JobState) {
    state == Completed || state == FailedPermanent
  }

  ghost predicate RowsGrow(db: Db, after: Db) {
    && (forall r | r in db.results :: r in after.results && after.results[r] == db.results[r])
    && (forall r | r in db.outbox :: r in after.outbox && after.outbox[r] == db.outbox[r])
  }

  ghost predicate RowAdvances(db: Db, after: Db, j: Id)
    requires j in db.jobs
  {
    && j in after.jobs && after.jobs[j].epoch >= db.jobs[j].epoch
    && (Terminal(db.jobs[j].state) ==> after.jobs[j] == db.jobs[j])
  }

  /** One step never lowers an epoch, never re-opens a finished job, never takes back a result. */
  lemma StepMonotone(db: Db, s: Step, maxAttempts: nat, j: Id)
    requires j in db.jobs && JobOk(db.jobs[j], maxAttempts)
    ensures RowAdvances(db, Do(db, s, maxAttempts), j) && RowsGrow(db, Do(db, s, maxAttempts))
  {
    hide JobOk, RowAdvances, RowsGrow, Enqueue, RecordArtifact, ClaimNext, Renew, RecoverExpired, Fail, Complete;
    match s
    case EnqueueStep(k, document, page, bundle, now) => EnqueueMonotone(db, k, document, page, bundle, now, j);
    case ArtifactStep(a, k, worker, epoch, now) => ArtifactMonotone(db, a, k, worker, epoch, now, j);
    case ClaimStep(worker, lease, now) => ClaimMonotone(db, worker, now + lease, now, maxAttempts, j);
    case RenewStep(k, worker, epoch, lease, now) => RenewMonotone(db, k, worker, epoch, now + lease, now, j);
    case RecoverStep(now) => RecoverMonotone(db, now, maxAttempts, j);
    case FailStep(k, worker, epoch, retryable, delay, now) =>
      FailMonotone(db, k, worker, epoch, retryable, delay, now, maxAttempts, j);
    case CompleteStep(k, worker, epoch, result, callback, now) =>
      CompleteMonotone(db, k, worker, epoch, result, callback, now, maxAttempts, j);
  }

  lemma EnqueueMonotone(db: Db, k: Id, document: Id, page: Document, bundle: Id, now: Time, j: Id)
    requires j in db.jobs
    ensures var after := Enqueue(db, k, document, page, bundle, now);
            RowAdvances(db, after, j) && RowsGrow(db, after)
  {
  }

  lemma ArtifactMonotone(db: Db, a: Id, k: Id, worker: Worker, epoch: nat, now: Time, j: Id)
    requires j in db.jobs
    ensures var after := RecordArtifact(db, a, k, worker, epoch, now);
            RowAdvances(db, after, j) && RowsGrow(db, after)
  {
  }

  lemma ClaimMonotone(db: Db, worker: Worker, expires: Time, now: Time, maxAttempts: nat, j: Id)
    requires j in db.jobs
    ensures var after := ClaimNext(db, worker, expires, now, maxAttempts);
            RowAdvances(db, after, j) && RowsGrow(db, after)
  {
  }

  lemma RenewMonotone(db: Db, k: Id, worker: Worker, epoch: nat, expires: Time, now: Time, j: Id)
    requires j in db.jobs
    ensures var after := Renew(db, k, worker, epoch, expires, now);
            RowAdvances(db, after, j) && RowsGrow(db, after)
  {
  }

  lemma RecoverMonotone(db: Db, now: Time, maxAttempts: nat, j: Id)
    requires j in db.jobs && JobOk(db.jobs[j], maxAttempts)
    ensures var after := RecoverExpired(db, now, maxAttempts);
            RowAdvances(db, after, j) && RowsGrow(db, after)
  {
  }

  lemma FailMonotone(db: Db, k: Id, worker: Worker, epoch: nat, retryable: bool, delay: nat, now: Time, maxAttempts: nat, j: Id)
    requires j in db.jobs && JobOk(db.jobs[j], maxAttempts)
    ensures var after := Fail(db, k, worker, epoch, retryable, delay, now, maxAttempts);
            RowAdvances(db, after, j) && RowsGrow(db, after)
  {
  }

  lemma CompleteMonotone(db: Db, k: Id, worker: Worker, epoch: nat, result: Snapshot, callback: Callback, now: Time,
                         maxAttempts: nat, j: Id)
    requires j in db.jobs && JobOk(db.jobs[j], maxAttempts)
    ensures var after := Complete(db, k, worker, epoch, result, callback, now);
            RowAdvances(db, after, j) && RowsGrow(db, after)
  {
  }

  lemma {:induction false} RunMonotone(db: Db, steps: seq<Step>, maxAttempts: nat, j: Id)
    requires Inv(db, maxAttempts) && maxAttempts >= 1 && j in db.jobs
    ensures var after := Run(db, steps, maxAttempts);
            RowAdvances(db, after, j) && RowsGrow(db, after)
    decreases |steps|
  {
    if steps != [] {
      StepMonotone(db, steps[0], maxAttempts, j);
      StepKeeps(db, steps[0], maxAttempts);
      RunMonotone(Do(db, steps[0], maxAttempts), steps[1..], maxAttempts, j);
    }
  }

  /** The steps a worker takes on the strength of a claim (j, worker, epoch). */
  predicate UsesClaim(s: Step, j: Id, epoch: nat) {
    (s.RenewStep? || s.FailStep? || s.CompleteStep? || s.ArtifactStep?) && s.j == j && s.epoch == epoch
  }

  /** Once a job has been claimed again, or is finished, nothing a worker does with the old
      epoch ever changes the database, however long the run and whatever the clocks say. */
  lemma StaleWorkerIsFenced(db: Db, steps: seq<Step>, maxAttempts: nat, j: Id, epoch: nat, s: Step)
    requires Inv(db, maxAttempts) && maxAttempts >= 1 && j in db.jobs
    requires db.jobs[j].epoch > epoch || Terminal(db.jobs[j].state)
    requires UsesClaim(s, j, epoch)
    ensures var later := Run(db, steps, maxAttempts);
            Do(later, s, maxAttempts) == later
  {
    RunMonotone(db, steps, maxAttempts, j);
  }

  /** While a lease runs, only its holder can touch the row. */
  lemma LeaseProtects(db: Db, s: Step, maxAttempts: nat, j: Id)
    requires j in db.jobs && JobOk(db.jobs[j], maxAttempts) && db.jobs[j].state == Processing
    requires (s.ClaimStep? || s.RecoverStep?) && db.jobs[j].expiresAt.Some? ==> s.now < db.jobs[j].expiresAt.value
    requires s.RenewStep? || s.FailStep? || s.CompleteStep? ==>
               s.j != j || s.epoch != db.jobs[j].epoch || Some(s.worker) != db.jobs[j].owner
    ensures j in Do(db, s, maxAttempts).jobs && Do(db, s, maxAttempts).jobs[j] == db.jobs[j]
  {
  }

  /** No job waits forever behind a dead worker: after one recovery an expired lease is open to
      the next claim exactly while attempts remain, is finished otherwise, and its old holder no
      longer owns it. */
  lemma RecoveryReopens(db: Db, now: Time, maxAttempts: nat, j: Id)
    requires Inv(db, maxAttempts) && j in db.jobs && Expired(db.jobs[j], now)
    ensures var after := RecoverExpired(db, now, maxAttempts).jobs[j];
            && (Eligible(after, now, maxAttempts) <==> db.jobs[j].attempts < maxAttempts)
            && (after.state == FailedPermanent <==> db.jobs[j].attempts == maxAttempts)
            && !Owns(after, db.jobs[j].owner.value, db.jobs[j].epoch, now)
  {
  }
}
