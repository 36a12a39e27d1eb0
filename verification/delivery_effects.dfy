/** What each delivery transaction writes (storage.py, callbacks.py). */
module DeliveryEffects {
  // Row by row, for every state of the outbox: when a transaction acts, what the row it touches
  // holds afterwards, and that all others stay.

  import opened CallbackOutbox

  /** The dispatcher of the current claim, before its lease ends. */
  predicate Holder(box: Box, c: ClaimedOutbox, now: Time) {
    && c.event in box && (box[c.event].state == Pending || box[c.event].state == Retrying)
    && box[c.event].owner == Some(c.worker) && box[c.event].epoch == c.epoch
    && box[c.event].expiresAt.Some? && box[c.event].expiresAt.value > now
  }

  ghost predicate OthersStay(box: Box, after: Box, e: Id) {
    after.Keys == box.Keys && forall f | f in box && f != e :: after[f] == box[f]
  }

  // ------------------------------------------------------------------------------- the verdict

  predicate Acknowledged(response: Response) {
    response.Http? && response.status >= 200 && response.status <= 299
  }

  predicate WorthRetrying(response: Response) {
    response.TransportError? || (response.Http? && (response.status in {408, 425, 429} || (500 <= response.status <= 599)))
  }

  function Header(response: Response): RetryAfter {
    if response.Http? then response.retryAfter else Absent
  }

  /** The server named seconds or a date in the years 1 to 9999, or the power of two fits a float. */
  predicate HasDelay(attempts: nat, header: RetryAfter) {
    match header
    case Seconds(_) => true
    case Date(local, offset) => -62135596800.0 <= local - offset < 253402300800.0
    case _ => attempts <= 1024
  }

  /** What the new row keeps: everything but its state, its lease, its next moment and its open
      attempt. */
  ghost predicate SameEvent(row: Row, after: Row) {
    && after.key == row.key && after.payload == row.payload && after.attempts == row.attempts && after.epoch == row.epoch
    && after.replays == row.replays && after.createdAt == row.createdAt
  }

  /** The attempt of the claim is closed with the outcome, unless it was closed before. */
  ghost predicate AttemptClosed(row: Row, after: Row, outcome: DeliveryState, status: Option<int>, now: Time) {
    && after.tries.Keys == row.tries.Keys
    && (forall n | n in row.tries ::
          after.tries[n] == if n == row.attempts && row.tries[n].completedAt.None?
                            then Attempt(row.tries[n].startedAt, Some(outcome), status, Some(now)) else row.tries[n])
  }

  ghost predicate Settled(row: Row, after: Row, outcome: DeliveryState, response: Response, now: Time) {
    && SameEvent(row, after) && after.state == outcome && after.owner == None && after.expiresAt == None
    && AttemptClosed(row, after, outcome, if response.Http? then Some(response.status) else None, now)
  }

  predicate NextAttempt(policy: RetryPolicy, header: RetryAfter, nextAt: Time, now: Time) {
    match header
    case Seconds(n) => nextAt == now + (if n as real <= policy.max then n as real else policy.max)
    case Date(local, offset) =>
      if local - offset <= now then nextAt == now
      else if local - offset <= now + policy.max then nextAt == local - offset
      else nextAt == now + policy.max
    case _ => now <= nextAt <= now + policy.max
  }

  /** A settlement by the holder delivers exactly on a status from 200 to 299; retries exactly on a
      transport error or a status 408, 425, 429 or 500 to 599, if there is a delay, and then at
      the moment the server named, capped, or within the maximum; leaves the claim open exactly
      when something raises; and blocks on everything else.  Nobody else's settlement does
      anything. */
  lemma SettlementWrites(policy: RetryPolicy, w: World, i: nat, response: Response, random: real, now: Time)
    requires policy.Valid() && i < |w.claims|
    ensures var c := w.claims[i];
            var box := Do(policy, w, Settle(i, response, random, now)).box;
            && Do(policy, w, Settle(i, response, random, now)) == w.(box := box)
            && if !Holder(w.box, c, now) || response.BadReply?
                  || (WorthRetrying(response) && !HasDelay(c.attempts, Header(response)))
               then box == w.box
               else
                 && OthersStay(w.box, box, c.event)
                 && (Acknowledged(response) ==> Settled(w.box[c.event], box[c.event], Delivered, response, now))
                 && (WorthRetrying(response) ==>
                       && Settled(w.box[c.event], box[c.event], Retrying, response, now)
                       && NextAttempt(policy, Header(response), box[c.event].nextAt, now))
                 && (!Acknowledged(response) && !WorthRetrying(response) ==>
                       Settled(w.box[c.event], box[c.event], Blocked, response, now))
  {
    var c := w.claims[i];
    DelayIsBounded(policy, c.attempts, Header(response), now, random);
    hide Ceiling, Jittered, Pow2;
  }

  // ------------------------------------------------------------------------------ the back-off

  /** The share of a delay that a random value takes. */
  function Share(full: real, random: real): real {
    if random <= 0.0 then 0.0 else if random <= 1.0 then full * random else full
  }

  lemma JitterIsAShare(x: real, random: real)
    ensures Jittered(x, 1.0) == x && Jittered(x, random) == Share(x, random)
  {
    assert Clamped(1.0) == 1.0;
    assert Clamped(random) == if random <= 0.0 then 0.0 else if random <= 1.0 then random else 1.0;
  }

  lemma FullDelay(policy: RetryPolicy, attempts: nat, now: Time, random: real)
    requires attempts <= 1024
    ensures Delay(policy, attempts, Absent, now, 1.0) == Some(Ceiling(policy, attempts))
    ensures Delay(policy, attempts, Absent, now, random) == Some(Share(Ceiling(policy, attempts), random))
  {
    JitterIsAShare(Ceiling(policy, attempts), random);
    hide Jittered, Ceiling, Share;
  }

  lemma CeilingDoubles(policy: RetryPolicy, attempts: nat)
    requires policy.Valid() && attempts >= 1
    ensures Ceiling(policy, 1) == policy.base
    ensures var full := Ceiling(policy, attempts);
            Ceiling(policy, attempts + 1) == if 2.0 * full <= policy.max then 2.0 * full else policy.max
  {
    assert Pow2(0) == 1.0 && policy.base * 1.0 == policy.base;
    var x := policy.base * Pow2(attempts - 1);
    assert Pow2(attempts) == 2.0 * Pow2(attempts - 1);
    Doubled(policy.base, Pow2(attempts - 1));
    assert policy.base * Pow2(attempts) == 2.0 * x;
  }

  /** Without a Retry-After the full delay starts at the base and doubles up to the maximum; the
      random value, cut to between 0 and 1, takes its share of it. */
  lemma BackOffDoubles(policy: RetryPolicy, attempts: nat, now: Time, random: real)
    requires policy.Valid() && 1 <= attempts < 1024
    ensures Delay(policy, 1, Absent, now, 1.0) == Some(policy.base)
    ensures var full := Delay(policy, attempts, Absent, now, 1.0);
            && full.Some?
            && Delay(policy, attempts + 1, Absent, now, 1.0)
               == Some(if 2.0 * full.value <= policy.max then 2.0 * full.value else policy.max)
            && Delay(policy, attempts, Absent, now, random) == Some(Share(full.value, random))
  {
    hide *;
    FullDelay(policy, 1, now, 1.0);
    FullDelay(policy, attempts + 1, now, 1.0);
    FullDelay(policy, attempts, now, random);
    CeilingDoubles(policy, attempts);
  }

  lemma Doubled(base: real, x: real)
    ensures base * (2.0 * x) == 2.0 * (base * x)
  {
  }

  // ------------------------------------------------------------------- the other transactions

  predicate Due(row: Row, now: Time) {
    && (row.state == Pending || row.state == Retrying) && row.nextAt <= now
    && (row.expiresAt == None || row.expiresAt.value <= now)
  }

  /** e is due, and no due event was created before it. */
  ghost predicate NextInLine(box: Box, e: Id, now: Time) {
    && e in box && Due(box[e], now)
    && (forall f | f in box && Due(box[f], now) ::
          box[e].createdAt < box[f].createdAt || (box[e].createdAt == box[f].createdAt && e <= f))
  }

  /** A claim leases exactly the next event in line, opens its next attempt and hands its key and
      payload to the dispatcher; with none due it does nothing. */
  lemma ClaimWrites(policy: RetryPolicy, w: World, worker: Worker, lease: Time, now: Time)
    ensures var after := Do(policy, w, ClaimStep(worker, lease, now));
            && ((forall e :: !NextInLine(w.box, e, now)) ==> after == w)
            && (forall e | NextInLine(w.box, e, now) ::
                  var row := w.box[e];
                  && after.sent == w.sent
                  && after.box == w.box[e := Row(row.key, row.payload, row.state, row.attempts + 1, row.nextAt, Some(worker),
                                                 row.epoch + 1, Some(now + lease), row.replays, row.createdAt,
                                                 row.tries[row.attempts + 1 := Attempt(now, None, None, None)])]
                  && after.claims
                     == w.claims + [ClaimedOutbox(e, row.key, row.payload, row.attempts + 1, worker, row.epoch + 1)])
  {
    forall e ensures IsFirst(w.box, e, now) <==> NextInLine(w.box, e, now) {
    }
    hide NextInLine;
  }

  /** A replay re-opens the event at once and counts it, exactly while nobody leases it. */
  lemma ReplayWrites(policy: RetryPolicy, w: World, e: Id, now: Time)
    ensures var after := Do(policy, w, ReplayStep(e, now));
            if e in w.box && w.box[e].owner == None then
              && after.claims == w.claims && after.sent == w.sent && OthersStay(w.box, after.box, e)
              && after.box[e] == w.box[e].(state := Pending, nextAt := now, replays := w.box[e].replays + 1)
            else after == w
  {
  }

  /** Recovery sets exactly the events whose lease ran out to be retried at once. */
  lemma RecoveryWrites(policy: RetryPolicy, w: World, now: Time)
    ensures var after := Do(policy, w, RecoverStep(now));
            && after.claims == w.claims && after.sent == w.sent && after.box.Keys == w.box.Keys
            && (forall e | e in w.box ::
                  var row := w.box[e];
                  if (row.state == Pending || row.state == Retrying) && row.expiresAt.Some? && row.expiresAt.value <= now then
                    && SameEvent(row, after.box[e]) && after.box[e].state == Retrying && after.box[e].nextAt == now
                    && after.box[e].owner == None && after.box[e].expiresAt == None
                    && AttemptClosed(row, after.box[e], Retrying, None, now)
                  else after.box[e] == row)
  {
  }

  /** A new event is pending and due at once; a known one is left alone. */
  lemma InsertWrites(policy: RetryPolicy, w: World, e: Id, key: Id, payload: Id, now: Time)
    ensures var after := Do(policy, w, Insert(e, key, payload, now));
            if e in w.box then after == w
            else after == World(w.box[e := Row(key, payload, Pending, 0, now, None, 0, None, 0, now, map[])], w.claims, w.sent)
  {
  }
}
