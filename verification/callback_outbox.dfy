/** At-least-once callback delivery. */
module CallbackOutbox {
  // After storage.py and callbacks.py.  `Outbox` is the pair of tables outbox and
  // callback_attempts; `Box` is its value.  `World` adds the claims that dispatchers hold and
  // everything they have sent.  A run is any sequence of steps of any number of dispatchers.

  type Id = nat
  type Worker = nat
  type Time = real

  datatype Option<+T> = None | Some(value: T)

  datatype DeliveryState = Pending | Retrying | Blocked | Delivered

  datatype Attempt = Attempt(startedAt: Time, outcome: Option<DeliveryState>, status: Option<int>, completedAt: Option<Time>)

  datatype Row = Row(
    key: Id, payload: Id,
    state: DeliveryState,
    attempts: nat,
    nextAt: Time,
    owner: Option<Worker>, epoch: nat, expiresAt: Option<Time>,
    replays: nat,
    createdAt: Time,
    tries: map<nat, Attempt>)     // callback_attempts of this event, by attempt number

  type Box = map<Id, Row>

  datatype ClaimedOutbox = ClaimedOutbox(event: Id, key: Id, payload: Id, attempts: nat, worker: Worker, epoch: nat)

  datatype Delivery = Idle | Stored | LostLease | Raised
  datatype Outcome = Done | LeaseLost | NotFound | Leased

  // ---------------------------------------------------------------------------- retry policy

  datatype RetryPolicy = RetryPolicy(base: real, max: real) {
    predicate Valid() { 0.0 < base <= max }
  }

  // A Retry-After header: delay-seconds, a date in some time zone, or something unreadable.
  // Moments are seconds since 1970.
  datatype RetryAfter = Absent | Seconds(seconds: nat) | Date(local: Time, offset: Time) | Unreadable

  // Python's calendar, the years 1 to 9999; converting a date to UTC raises OverflowError outside it.
  const CALENDAR_START := -62135596800.0
  const CALENDAR_END := 253402300800.0

  predicate BeyondCalendar(header: RetryAfter) {
    header.Date? && !(CALENDAR_START <= header.local - header.offset < CALENDAR_END)
  }

  // Python converts 2 ** 1023 to a float and raises OverflowError for 2 ** 1024.
  const MAX_EXPONENT := 1023

  function MaxReal(x: real, y: real): real { if x < y then y else x }
  function MinReal(x: real, y: real): real { if x < y then x else y }

  function Pow2(n: nat): real {
    if n == 0 then 1.0 else 2.0 * Pow2(n - 1)
  }

  function RetryAfterSeconds(header: RetryAfter, now: Time): Option<real> {
    match header
    case Absent => None
    case Seconds(n) => Some(n as real)
    case Date(local, offset) => Some(MaxReal(0.0, local - offset - now))
    case Unreadable => None
  }

  function Exponent(attempts: nat): nat {
    if attempts == 0 then 0 else attempts - 1
  }

  /** Neither the date conversion nor the power overflows. */
  predicate Computable(attempts: nat, header: RetryAfter) {
    match header
    case Seconds(_) => true
    case Date(_, _) => !BeyondCalendar(header)
    case _ => Exponent(attempts) <= MAX_EXPONENT
  }

  function Ceiling(policy: RetryPolicy, attempts: nat): real {
    MinReal(policy.max, policy.base * Pow2(Exponent(attempts)))
  }

  /** RetryPolicy.delay; None is a raised OverflowError. */
  function Delay(policy: RetryPolicy, attempts: nat, header: RetryAfter, now: Time, random: real): Option<real> {
    if BeyondCalendar(header) then None
    else
      match RetryAfterSeconds(header, now)
      case Some(server) => Some(MinReal(policy.max, server))
      case None =>
        if Exponent(attempts) > MAX_EXPONENT then None else Some(Jittered(Ceiling(policy, attempts), random))
  }

  function Jittered(ceiling: real, random: real): real {
    ceiling * Clamped(random)
  }

  function Clamped(random: real): real {
    MinReal(1.0, MaxReal(0.0, random))
  }

  lemma {:induction false} Pow2Grows(m: nat, n: nat)
    requires m <= n
    ensures 1.0 <= Pow2(m) <= Pow2(n)
  {
    if n > 0 {
      if m < n {
        Pow2Grows(m, n - 1);
      } else {
        Pow2Grows(m - 1, n - 1);
      }
    }
  }

  /** A delay is computed exactly when the server named a number of seconds or a date within the
      calendar, or named neither and at most 1024 attempts were made; then it is within [0, max]. */
  lemma DelayIsBounded(policy: RetryPolicy, attempts: nat, header: RetryAfter, now: Time, random: real)
    requires policy.Valid()
    ensures Delay(policy, attempts, header, now, random).Some?
            <==> header.Seconds? || (header.Date? && !BeyondCalendar(header))
                 || ((header.Absent? || header.Unreadable?) && attempts <= 1024)
    ensures var delay := Delay(policy, attempts, header, now, random);
            delay.Some? ==> 0.0 <= delay.value <= policy.max
  {
    CeilingIsBounded(policy, attempts);
    Shrunk(Ceiling(policy, attempts), random);
    hide Ceiling, Jittered;
  }

  /** The first attempt without a delay: number 1025 after a response without Retry-After. */
  lemma Attempt1025Overflows(policy: RetryPolicy, now: Time, random: real)
    ensures Delay(policy, 1024, Absent, now, random).Some?
    ensures Delay(policy, 1025, Absent, now, random) == None
  {
  }

  /** Fri, 31 Dec 9999 23:59:59 -0100 is such a date: it raises at the very first attempt. */
  lemma LastHourOverflows(policy: RetryPolicy, now: Time, random: real)
    ensures Delay(policy, 1, Date(CALENDAR_END - 1.0, -3600.0), now, random) == None
    ensures Delay(policy, 1, Date(CALENDAR_END - 1.0, 0.0), now, random).Some?
  {
  }

  lemma CeilingIsBounded(policy: RetryPolicy, attempts: nat)
    requires policy.Valid()
    ensures 0.0 <= Ceiling(policy, attempts) <= policy.max
  {
    Pow2Grows(0, Exponent(attempts));
    Scaled(policy.base, Pow2(Exponent(attempts)));
  }

  lemma Scaled(x: real, factor: real)
    requires 0.0 <= x && 1.0 <= factor
    ensures x <= x * factor
  {
  }

  lemma Shrunk(x: real, random: real)
    requires 0.0 <= x
    ensures 0.0 <= Jittered(x, random) <= x
  {
  }

  /** Back-off never shortens: with no smaller a jitter, a later attempt that gets a delay at all
      waits at least as long as the one before. */
  lemma BackOffGrows(policy: RetryPolicy, attempts: nat, now: Time, random: real, next: real)
    requires policy.Valid() && random <= next
    ensures var before, after := Delay(policy, attempts, Absent, now, random), Delay(policy, attempts + 1, Absent, now, next);
            after.Some? ==> before.Some? && before.value <= after.value
  {
    var e := Exponent(attempts);
    Pow2Grows(e, attempts);
    CeilingIsBounded(policy, attempts);
    assert policy.base * (Pow2(attempts) - Pow2(e)) >= 0.0;
    Product(Ceiling(policy, attempts), Ceiling(policy, attempts + 1), Clamped(random), Clamped(next));
  }

  lemma Product(x: real, y: real, a: real, b: real)
    requires 0.0 <= x <= y && 0.0 <= a <= b
    ensures x * a <= y * b
  {
    NotNegative(x, b - a);
    NotNegative(y - x, b);
    assert x * (b - a) == x * b - x * a;
    assert (y - x) * b == y * b - x * b;
  }

  lemma NotNegative(x: real, y: real)
    requires 0.0 <= x && 0.0 <= y
    ensures 0.0 <= x * y
  {
  }

  /** With a smaller jitter the next delay can be shorter, down to none. */
  lemma BackOffCanShorten()
    ensures var policy := RetryPolicy(2.0, 300.0);
            && policy.Valid()
            && Delay(policy, 1, Absent, 0.0, 1.0) == Some(2.0) && Delay(policy, 2, Absent, 0.0, 0.0) == Some(0.0)
  {
    assert Pow2(0) == 1.0;
    assert Pow2(1) == 2.0 * Pow2(0);
  }

  // ------------------------------------------------------------------------- what one row does

  predicate Open(row: Row) {
    row.state == Pending || row.state == Retrying
  }

  predicate Owns(row: Row, worker: Worker, epoch: nat, now: Time) {
    Open(row) && row.owner == Some(worker) && row.epoch == epoch && row.expiresAt.Some? && now < row.expiresAt.value
  }

  predicate Claimable(row: Row, now: Time) {
    Open(row) && row.nextAt <= now && (row.expiresAt.None? || row.expiresAt.value <= now)
  }

  predicate Expired(row: Row, now: Time) {
    Open(row) && row.expiresAt.Some? && row.expiresAt.value <= now
  }

  function Close(tries: map<nat, Attempt>, n: nat, outcome: DeliveryState, status: Option<int>, now: Time): map<nat, Attempt> {
    if n in tries && tries[n].completedAt.None?
    then tries[n := Attempt(tries[n].startedAt, Some(outcome), status, Some(now))]
    else tries
  }

  function Claimed(row: Row, worker: Worker, expires: Time, now: Time): Row {
    row.(attempts := row.attempts + 1, owner := Some(worker), epoch := row.epoch + 1, expiresAt := Some(expires),
         tries := row.tries[row.attempts + 1 := Attempt(now, None, None, None)])
  }

  function Finished(row: Row, outcome: DeliveryState, status: Option<int>, nextAt: Time, now: Time): Row {
    row.(state := outcome, nextAt := nextAt, owner := None, expiresAt := None,
         tries := Close(row.tries, row.attempts, outcome, status, now))
  }

  function LeaseExpired(row: Row, now: Time): Row {
    Finished(row, Retrying, None, now, now)
  }

  function Replayed(row: Row, now: Time): Row {
    row.(state := Pending, nextAt := now, replays := row.replays + 1)
  }

  // ------------------------------------------------------------------------------ transactions

  predicate OlderThan(box: Box, e: Id, f: Id)
    requires e in box && f in box
  {
    box[e].createdAt < box[f].createdAt || (box[e].createdAt == box[f].createdAt && e <= f)
  }

  predicate IsFirst(box: Box, e: Id, now: Time) {
    && e in box && Claimable(box[e], now)
    && forall f | f in box && Claimable(box[f], now) :: OlderThan(box, e, f)
  }

  function Finish(box: Box, e: Id, worker: Worker, epoch: nat, outcome: DeliveryState, status: Option<int>, nextAt: Time, now: Time): Box {
    if e in box && Owns(box[e], worker, epoch, now) then box[e := Finished(box[e], outcome, status, nextAt, now)] else box
  }

  function Replay(box: Box, e: Id, now: Time): Box {
    if e in box && box[e].owner.None? then box[e := Replayed(box[e], now)] else box
  }

  function Recover(box: Box, now: Time): Box {
    map e | e in box :: if Expired(box[e], now) then LeaseExpired(box[e], now) else box[e]
  }

  class Outbox {
    var rows: map<Id, Row>

    /** Leases the oldest claimable event and opens its next attempt row. */
    method ClaimOutbox(worker: Worker, leaseSeconds: Time, now: Time) returns (claimed: Option<ClaimedOutbox>)
      modifies this
      ensures match claimed
              case None => rows == old(rows) && forall e | e in rows :: !Claimable(rows[e], now)
              case Some(c) =>
                && IsFirst(old(rows), c.event, now)
                && rows == old(rows)[c.event := Claimed(old(rows)[c.event], worker, now + leaseSeconds, now)]
                && c == Ticket(rows, c.event, worker)
    {
      var candidates := set e | e in rows && Claimable(rows[e], now);
      if candidates == {} {
        assert forall e | e in rows :: Claimable(rows[e], now) ==> e in candidates;
        return None;
      }
      var first :| first in candidates;
      var rest := candidates - {first};
      while rest != {}
        invariant first in candidates && rest <= candidates
        invariant forall f | f in candidates && f !in rest :: OlderThan(rows, first, f)
      {
        var e :| e in rest;
        if OlderThan(rows, e, first) {
          first := e;
        }
        rest := rest - {e};
      }
      var row := rows[first];
      var attempt := row.attempts + 1;
      rows := rows[first := row.(attempts := attempt, owner := Some(worker), epoch := row.epoch + 1,
                                 expiresAt := Some(now + leaseSeconds),
                                 tries := row.tries[attempt := Attempt(now, None, None, None)])];
      return Some(ClaimedOutbox(first, row.key, row.payload, attempt, worker, row.epoch + 1));
    }

    method FinishOutboxAttempt(e: Id, worker: Worker, epoch: nat, outcome: DeliveryState, status: Option<int>,
                               nextAt: Time, now: Time) returns (result: Outcome)
      modifies this
      ensures rows == Finish(old(rows), e, worker, epoch, outcome, status, nextAt, now)
      ensures result == if e in old(rows) && Owns(old(rows)[e], worker, epoch, now) then Done else LeaseLost
    {
      if !(e in rows && Owns(rows[e], worker, epoch, now)) {
        return LeaseLost;
      }
      var row := rows[e];
      var tries := row.tries;
      if row.attempts in tries && tries[row.attempts].completedAt.None? {
        tries := tries[row.attempts := Attempt(tries[row.attempts].startedAt, Some(outcome), status, Some(now))];
      }
      rows := rows[e := row.(state := outcome, nextAt := nextAt, owner := None, expiresAt := None, tries := tries)];
      return Done;
    }

    /** deliver_once with its _retry: claim at one moment, settle at a later one.  A payload above
        the limit is blocked unsent; an exception leaves the claim as it is. */
    method DeliverOnce(policy: RetryPolicy, payloadMax: nat, size: Id -> nat, worker: Worker, leaseSeconds: Time,
                       claimedAt: Time, reply: Response, random: real, settledAt: Time)
      returns (delivery: Delivery, claimed: Option<ClaimedOutbox>)
      modifies this
      ensures match claimed
              case None => delivery == Idle && rows == old(rows) && forall e | e in rows :: !Claimable(rows[e], claimedAt)
              case Some(c) =>
                && IsFirst(old(rows), c.event, claimedAt)
                && var leased := old(rows)[c.event := Claimed(old(rows)[c.event], worker, claimedAt + leaseSeconds, claimedAt)];
                && c == Ticket(leased, c.event, worker)
                && var response := if size(c.payload) > payloadMax then TooLarge else reply;
                && rows == SettleClaim(leased, c, response, policy, random, settledAt)
                && delivery == (if Raises(c, response) then Raised
                                else if settledAt < claimedAt + leaseSeconds then Stored else LostLease)
    {
      claimed := ClaimOutbox(worker, leaseSeconds, claimedAt);
      if claimed.None? {
        return Idle, None;
      }
      var c := claimed.value;
      var response := if size(c.payload) > payloadMax then TooLarge else reply;
      if response.BadReply? {
        return Raised, claimed;
      }
      var verdict := Judge(response);
      var nextAt := settledAt;
      if verdict.outcome == Retrying {
        var delay := Delay(policy, c.attempts, verdict.header, settledAt, random);
        if delay.None? {
          return Raised, claimed;
        }
        nextAt := settledAt + delay.value;
      }
      var result := FinishOutboxAttempt(c.event, worker, c.epoch, verdict.outcome, verdict.status, nextAt, settledAt);
      return if result == Done then Stored else LostLease, claimed;
    }

    method ReplayOutbox(e: Id, now: Time) returns (result: Outcome)
      modifies this
      ensures rows == Replay(old(rows), e, now)
      ensures result == if e !in old(rows) then NotFound else if old(rows)[e].owner.Some? then Leased else Done
    {
      if e !in rows {
        return NotFound;
      }
      if rows[e].owner.Some? {
        return Leased;
      }
      rows := rows[e := rows[e].(state := Pending, nextAt := now, replays := rows[e].replays + 1)];
      return Done;
    }

    method RecoverExpiredOutboxLeases(now: Time) returns (recovered: nat)
      modifies this
      ensures rows == Recover(old(rows), now)
      ensures recovered == |ExpiredEvents(old(rows), now)|
    {
      var goal := Recover(rows, now);
      var expired := ExpiredEvents(rows, now);
      recovered := |expired|;
      while expired != {}
        invariant expired <= rows.Keys == goal.Keys
        invariant forall e | e in expired :: goal[e] == LeaseExpired(rows[e], now)
        invariant forall e | e in rows && e !in expired :: rows[e] == goal[e]
      {
        var e :| e in expired;
        var row := rows[e];
        rows := rows[e := row.(state := Retrying, nextAt := now, owner := None, expiresAt := None,
                               tries := Close(row.tries, row.attempts, Retrying, None, now))];
        expired := expired - {e};
      }
      assert rows == goal;
    }
  }

  function ExpiredEvents(box: Box, now: Time): set<Id> {
    set e | e in box && Expired(box[e], now)
  }

  function Ticket(box: Box, e: Id, worker: Worker): ClaimedOutbox
    requires e in box
  {
    ClaimedOutbox(e, box[e].key, box[e].payload, box[e].attempts, worker, box[e].epoch)
  }

  // ---------------------------------------------------------------------------- the dispatcher

  // BadReply is an answer the HTTP library rejects with an exception that deliver_once does not
  // catch, such as a malformed status line.
  datatype Response = TooLarge | TransportError | BadReply | Http(status: int, retryAfter: RetryAfter)

  datatype Verdict = Verdict(outcome: DeliveryState, status: Option<int>, header: RetryAfter)

  /** What deliver_once makes of one attempt. */
  function Judge(r: Response): Verdict
    requires !r.BadReply?
  {
    match r
    case TooLarge => Verdict(Blocked, None, Absent)
    case TransportError => Verdict(Retrying, None, Absent)
    case Http(status, header) =>
      if 200 <= status < 300 then Verdict(Delivered, Some(status), Absent)
      else if status == 408 || status == 425 || status == 429 || 500 <= status < 600
      then Verdict(Retrying, Some(status), header)
      else Verdict(Blocked, Some(status), Absent)
  }

  datatype Transmission = Transmission(event: Id, key: Id, payload: Id)

  datatype World = World(box: Box, claims: seq<ClaimedOutbox>, sent: seq<Transmission>)

  datatype Step =
    | Insert(e: Id, key: Id, payload: Id, now: Time)
    | ClaimStep(worker: Worker, lease: Time, now: Time)
    | Send(claim: nat)
    | Settle(claim: nat, response: Response, random: real, now: Time)
    | ReplayStep(e: Id, now: Time)
    | RecoverStep(now: Time)

  ghost function ClaimNext(w: World, worker: Worker, expires: Time, now: Time): World {
    if e :| IsFirst(w.box, e, now) then
      var box := w.box[e := Claimed(w.box[e], worker, expires, now)];
      w.(box := box, claims := w.claims + [Ticket(box, e, worker)])
    else w
  }

  /** The transport or the retry delay raises, after the bytes were sent and before anything is
      stored. */
  predicate Raises(c: ClaimedOutbox, response: Response) {
    response.BadReply? || (Judge(response).outcome == Retrying && !Computable(c.attempts, Judge(response).header))
  }

  /** The end of deliver_once; where it raises, the attempt is left to its lease. */
  function SettleClaim(box: Box, c: ClaimedOutbox, response: Response, policy: RetryPolicy, random: real, now: Time): Box {
    if Raises(c, response) then box
    else
      var v := Judge(response);
      var nextAt := if v.outcome != Retrying then now else now + Delay(policy, c.attempts, v.header, now, random).value;
      Finish(box, c.event, c.worker, c.epoch, v.outcome, v.status, nextAt, now)
  }

  ghost function Do(policy: RetryPolicy, w: World, s: Step): World {
    match s
    case Insert(e, key, payload, now) =>
      if e in w.box then w
      else w.(box := w.box[e := Row(key, payload, Pending, 0, now, None, 0, None, 0, now, map[])])
    case ClaimStep(worker, lease, now) => ClaimNext(w, worker, now + lease, now)
    case Send(i) =>
      if i < |w.claims|
      then w.(sent := w.sent + [Transmission(w.claims[i].event, w.claims[i].key, w.claims[i].payload)])
      else w
    case Settle(i, response, random, now) =>
      if i < |w.claims| then w.(box := SettleClaim(w.box, w.claims[i], response, policy, random, now)) else w
    case ReplayStep(e, now) => w.(box := Replay(w.box, e, now))
    case RecoverStep(now) => w.(box := Recover(w.box, now))
  }

  ghost function Run(policy: RetryPolicy, w: World, steps: seq<Step>): World
    decreases |steps|
  {
    if steps == [] then w else Run(policy, Do(policy, w, steps[0]), steps[1..])
  }

  const START := World(map[], [], [])

  // ------------------------------------------------------------------------------- invariants

  predicate Acknowledged(a: Attempt) {
    a.outcome == Some(Delivered) && a.status.Some? && 200 <= a.status.value < 300 && a.completedAt.Some?
  }

  ghost predicate RowOk(row: Row) {
    && row.attempts == row.epoch
    && (forall n: nat :: n in row.tries <==> 1 <= n <= row.attempts)
    && (row.owner.Some? <==> row.expiresAt.Some?)
    && (row.owner.Some? ==> Open(row) && row.attempts >= 1 && row.tries[row.attempts].completedAt.None?)
    && (row.state == Delivered ==> row.attempts in row.tries && Acknowledged(row.tries[row.attempts]))
    && (forall n | n in row.tries && row.tries[n].outcome == Some(Delivered) :: Acknowledged(row.tries[n]))
  }

  ghost predicate ClaimOk(box: Box, c: ClaimedOutbox) {
    && c.event in box && box[c.event].key == c.key && box[c.event].payload == c.payload
    && 1 <= c.epoch <= box[c.event].epoch && c.attempts == c.epoch
  }

  ghost predicate Inv(w: World) {
    && (forall e | e in w.box :: RowOk(w.box[e]))
    && (forall i | 0 <= i < |w.claims| :: ClaimOk(w.box, w.claims[i]))
    && (forall i | 0 <= i < |w.sent| ::
          w.sent[i].event in w.box && w.sent[i].key == w.box[w.sent[i].event].key
          && w.sent[i].payload == w.box[w.sent[i].event].payload)
  }

  lemma InsertKeeps(policy: RetryPolicy, w: World, s: Step)
    requires Inv(w) && (s.Insert? || s.ReplayStep?)
    ensures Inv(Do(policy, w, s))
  {
  }

  lemma SendKeeps(policy: RetryPolicy, w: World, s: Step)
    requires Inv(w) && s.Send?
    ensures Inv(Do(policy, w, s))
  {
  }

  lemma RecoverKeeps(policy: RetryPolicy, w: World, s: Step)
    requires Inv(w) && s.RecoverStep?
    ensures Inv(Do(policy, w, s))
  {
  }

  lemma SettlingKeeps(policy: RetryPolicy, w: World, s: Step)
    requires Inv(w) && s.Settle?
    ensures Inv(Do(policy, w, s))
  {
  }

  lemma ClaimingKeeps(policy: RetryPolicy, w: World, s: Step)
    requires Inv(w) && s.ClaimStep?
    ensures Inv(Do(policy, w, s))
  {
  }

  lemma StepKeeps(policy: RetryPolicy, w: World, s: Step)
    requires Inv(w)
    ensures Inv(Do(policy, w, s))
  {
    hide *;
    match s
    case Insert(_, _, _, _) => InsertKeeps(policy, w, s);
    case ClaimStep(_, _, _) => ClaimingKeeps(policy, w, s);
    case Send(_) => SendKeeps(policy, w, s);
    case Settle(_, _, _, _) => SettlingKeeps(policy, w, s);
    case ReplayStep(_, _) => InsertKeeps(policy, w, s);
    case RecoverStep(_) => RecoverKeeps(policy, w, s);
  }

  lemma {:induction false} RunKeeps(policy: RetryPolicy, w: World, steps: seq<Step>)
    requires Inv(w)
    ensures Inv(Run(policy, w, steps))
    decreases |steps|
  {
    if steps != [] {
      StepKeeps(policy, w, steps[0]);
      RunKeeps(policy, Do(policy, w, steps[0]), steps[1..]);
    }
  }

  /** Over every run: an event has exactly one attempt row per claim, numbered like its epochs;
      "delivered" stands on a recorded 2xx attempt; and every transmission of an event carries
      the key and the bytes stored with it. */
  lemma EveryDeliveryIsSound(policy: RetryPolicy, steps: seq<Step>)
    ensures var w := Run(policy, START, steps);
            && (forall e | e in w.box ::
                  && w.box[e].attempts == w.box[e].epoch
                  && (forall n: nat :: n in w.box[e].tries <==> 1 <= n <= w.box[e].attempts)
                  && (w.box[e].state == Delivered ==> exists n :: n in w.box[e].tries && Acknowledged(w.box[e].tries[n])))
            && (forall i, k | 0 <= i < |w.sent| && 0 <= k < |w.sent| && w.sent[i].event == w.sent[k].event ::
                  w.sent[i] == w.sent[k])
  {
    RunKeeps(policy, START, steps);
  }

  /** Delivered and blocked events stay exactly as they are until somebody replays them. */
  lemma OnlyReplayReopens(policy: RetryPolicy, w: World, s: Step, e: Id)
    requires Inv(w) && e in w.box && !Open(w.box[e])
    requires !(s.ReplayStep? && s.e == e)
    ensures e in Do(policy, w, s).box && Do(policy, w, s).box[e] == w.box[e]
  {
  }

  lemma {:induction false} ClosedStaysClosed(policy: RetryPolicy, w: World, steps: seq<Step>, e: Id)
    requires Inv(w) && e in w.box && !Open(w.box[e])
    requires forall i | 0 <= i < |steps| :: !(steps[i].ReplayStep? && steps[i].e == e)
    ensures e in Run(policy, w, steps).box && Run(policy, w, steps).box[e] == w.box[e]
    decreases |steps|
  {
    if steps != [] {
      OnlyReplayReopens(policy, w, steps[0], e);
      StepKeeps(policy, w, steps[0]);
      ClosedStaysClosed(policy, Do(policy, w, steps[0]), steps[1..], e);
    }
  }

  lemma EpochStep(policy: RetryPolicy, w: World, s: Step, e: Id)
    requires Inv(w) && e in w.box
    ensures e in Do(policy, w, s).box && Do(policy, w, s).box[e].epoch >= w.box[e].epoch
  {
  }

  lemma {:induction false} EpochsGrow(policy: RetryPolicy, w: World, steps: seq<Step>, e: Id)
    requires Inv(w) && e in w.box
    ensures e in Run(policy, w, steps).box && Run(policy, w, steps).box[e].epoch >= w.box[e].epoch
    decreases |steps|
  {
    if steps != [] {
      EpochStep(policy, w, steps[0], e);
      StepKeeps(policy, w, steps[0]);
      EpochsGrow(policy, Do(policy, w, steps[0]), steps[1..], e);
    }
  }

  /** A dispatcher settles its attempt only while it is the current, unexpired holder: once the
      event is claimed again, its verdict never changes anything any more. */
  lemma StaleDispatcherIsFenced(policy: RetryPolicy, w: World, steps: seq<Step>, c: ClaimedOutbox,
                                response: Response, random: real, now: Time)
    requires Inv(w) && c.event in w.box && w.box[c.event].epoch > c.epoch
    ensures var later := Run(policy, w, steps);
            SettleClaim(later.box, c, response, policy, random, now) == later.box
  {
    EpochsGrow(policy, w, steps, c.event);
  }

  /** The first verdict of a claim that is stored is final: settling it again changes nothing.  It
      is stored unless the transport or its delay raises. */
  lemma SettlesOnce(policy: RetryPolicy, box: Box, c: ClaimedOutbox, first: Response, second: Response,
                    random: real, now: Time, later: Time)
    requires c.event in box && Owns(box[c.event], c.worker, c.epoch, now)
    ensures var after := SettleClaim(box, c, first, policy, random, now);
            && (Raises(c, first) <==> after[c.event].owner.Some?)
            && (Raises(c, first) ==> after == box)
            && (!Raises(c, first) ==>
                  && after[c.event].state == Judge(first).outcome
                  && SettleClaim(after, c, second, policy, random, later) == after)
  {
  }

  /** Whatever raises gets no back-off: the attempt stays open until its lease expires, and the
      recovery makes the event due at once. */
  lemma RaiseSkipsBackOff(policy: RetryPolicy, box: Box, c: ClaimedOutbox, response: Response, random: real, now: Time, later: Time)
    requires c.event in box && Owns(box[c.event], c.worker, c.epoch, now)
    requires Raises(c, response) && box[c.event].expiresAt.value <= later
    ensures var after := SettleClaim(box, c, response, policy, random, now);
            var recovered := Recover(after, later)[c.event];
            && after == box && !Claimable(after[c.event], now)
            && recovered.state == Retrying && recovered.nextAt == later && Claimable(recovered, later)
  {
  }
}
