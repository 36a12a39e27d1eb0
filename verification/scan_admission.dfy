/** Upload admission. */
module ScanAdmission {
  // After scan-admission.service.ts.  `ScanAdmissionService` is the object the backend mutates: one
  // method for every stretch of code that runs without an `await`.  `Service` is the value of that
  // object, and `World` adds what the object cannot see: how far each call of `enter` has got, the
  // pending rows in the database, and the admission history.  A run is any sequence of `Step`s, so
  // the theorems about `Run` hold for every interleaving.

  type Credential = nat
  // Calls of enter() are numbered in arrival order; the number also names the promise the
  // call leaves in the credential chain.
  type Upload = nat

  const WINDOW_MS := 60_000

  datatype Option<+T> = None | Some(value: T)

  datatype Limits = Limits(ratePerMinute: nat, concurrentPerCredential: nat, maxPending: nat)

  datatype Refusal = RateLimited | ConcurrencyLimited

  datatype LimitCheck = Within(calls: seq<int>) | Refused(reason: Refusal)

  // ---------------------------------------------------------------- the reservation counters

  datatype Gate = Gate(inFlight: int, checks: int, deferred: int)

  function Max0(x: int): nat {
    if x < 0 then 0 else x
  }

  function BeginCheck(g: Gate): Gate {
    g.(checks := g.checks + 1, inFlight := g.inFlight + 1)
  }

  /** The `finally` block: the last check out flushes the deferred releases. */
  function EndCheck(g: Gate): Gate {
    var h := g.(checks := g.checks - 1);
    if h.checks == 0 && h.deferred > 0
    then h.(inFlight := Max0(h.inFlight - h.deferred), deferred := 0)
    else h
  }

  predicate Grants(g: Gate, pending: nat, limits: Limits) {
    pending + g.inFlight <= limits.maxPending
  }

  function Decide(g: Gate, pending: nat, limits: Limits): Gate {
    EndCheck(if Grants(g, pending, limits) then g else g.(inFlight := g.inFlight - 1))
  }

  function CountFailed(g: Gate): Gate {
    EndCheck(g.(inFlight := Max0(g.inFlight - 1)))
  }

  function ReleaseSlot(g: Gate): Gate {
    if g.checks > 0
    then g.(deferred := g.deferred + 1)
    else g.(inFlight := Max0(g.inFlight - 1))
  }

  // ------------------------------------------------------------------ the service as a value

  datatype Service = Service(
    active: map<Credential, nat>,
    recent: map<Credential, seq<int>>,
    locks: map<Credential, Upload>,
    gate: Gate)

  function Get<K, V>(m: map<K, V>, k: K, default: V): V {
    if k in m then m[k] else default
  }

  /** The calls still inside the rate window that ends at `now`. */
  function Window(stamps: seq<int>, now: int): seq<int> {
    if stamps == [] then []
    else Window(stamps[..|stamps| - 1], now)
         + (if stamps[|stamps| - 1] >= now - WINDOW_MS then [stamps[|stamps| - 1]] else [])
  }

  function CheckLimits(s: Service, c: Credential, now: int, limits: Limits): LimitCheck {
    var calls := Window(Get(s.recent, c, []), now);
    if |calls| >= limits.ratePerMinute then Refused(RateLimited)
    else if Get(s.active, c, 0) >= limits.concurrentPerCredential then Refused(ConcurrencyLimited)
    else Within(calls)
  }

  function RequestLock(s: Service, c: Credential, u: Upload): Service {
    s.(locks := s.locks[c := u])
  }

  function Unlock(s: Service, c: Credential, u: Upload): Service {
    if c in s.locks && s.locks[c] == u then s.(locks := s.locks - {c}) else s
  }

  function RecordAdmission(s: Service, c: Credential, now: int, calls: seq<int>): Service {
    s.(recent := s.recent[c := calls + [now]], active := s.active[c := Get(s.active, c, 0) + 1])
  }

  function ReleaseActive(s: Service, c: Credential): Service {
    var held: int := Get(s.active, c, 0);
    var remaining := Max0(held - 1);
    s.(active := if remaining == 0 then s.active - {c} else s.active[c := remaining])
  }

  /** The closure `enter` returns, on its first call. */
  function Leave(s: Service, c: Credential): Service {
    ReleaseActive(s.(gate := ReleaseSlot(s.gate)), c)
  }

  // ---------------------------------------------------------------------- the mutable object

  class ScanAdmissionService {
    const limits: Limits
    var active: map<Credential, nat>
    var recent: map<Credential, seq<int>>
    var credentialLocks: map<Credential, Upload>
    var inFlightPendingReservations: int
    var pendingChecksInProgress: int
    var deferredPendingReleases: int

    function State(): Service
      reads this
    {
      Service(active, recent, credentialLocks,
              Gate(inFlightPendingReservations, pendingChecksInProgress, deferredPendingReleases))
    }

    constructor (limits: Limits)
      ensures this.limits == limits
      ensures State() == Service(map[], map[], map[], Gate(0, 0, 0))
    {
      this.limits := limits;
      active, recent, credentialLocks := map[], map[], map[];
      inFlightPendingReservations, pendingChecksInProgress, deferredPendingReleases := 0, 0, 0;
    }

    method TakeTicket(c: Credential, u: Upload) returns (previous: Option<Upload>)
      modifies this
      ensures previous == if c in old(credentialLocks) then Some(old(credentialLocks)[c]) else None
      ensures State() == RequestLock(old(State()), c, u)
    {
      previous := if c in credentialLocks then Some(credentialLocks[c]) else None;
      credentialLocks := credentialLocks[c := u];
    }

    method CheckCredentialLimits(c: Credential, now: int) returns (check: LimitCheck)
      ensures check == CheckLimits(State(), c, now, limits)
      ensures var calls := |LastMinute(if c in recent then recent[c] else [], now)|;
              var running := if c in active then active[c] else 0;
              && (check == Refused(RateLimited) <==> calls >= limits.ratePerMinute)
              && (check == Refused(ConcurrencyLimited)
                  <==> calls < limits.ratePerMinute && running >= limits.concurrentPerCredential)
    {
      WindowCounts(if c in recent then recent[c] else [], now);
      var stored := if c in recent then recent[c] else [];
      var calls := [];
      var i := 0;
      while i < |stored|
        invariant 0 <= i <= |stored|
        invariant calls == Window(stored[..i], now)
      {
        assert stored[..i + 1][..i] == stored[..i];
        if stored[i] >= now - WINDOW_MS {
          calls := calls + [stored[i]];
        }
        i := i + 1;
      }
      assert stored[..|stored|] == stored;
      if |calls| >= limits.ratePerMinute {
        return Refused(RateLimited);
      }
      var running := if c in active then active[c] else 0;
      if running >= limits.concurrentPerCredential {
        return Refused(ConcurrencyLimited);
      }
      return Within(calls);
    }

    method BeginReservation()
      modifies this
      ensures State() == old(State()).(gate := BeginCheck(old(State()).gate))
    {
      pendingChecksInProgress := pendingChecksInProgress + 1;
      inFlightPendingReservations := inFlightPendingReservations + 1;
    }

    method FinishCheck()
      modifies this
      ensures State() == old(State()).(gate := EndCheck(old(State()).gate))
    {
      pendingChecksInProgress := pendingChecksInProgress - 1;
      if pendingChecksInProgress == 0 && deferredPendingReleases > 0 {
        inFlightPendingReservations := Max0(inFlightPendingReservations - deferredPendingReleases);
        deferredPendingReleases := 0;
      }
    }

    method DecideReservation(pending: nat) returns (granted: bool)
      modifies this
      ensures granted == Grants(old(State()).gate, pending, limits)
      ensures State() == old(State()).(gate := Decide(old(State()).gate, pending, limits))
    {
      granted := pending + inFlightPendingReservations <= limits.maxPending;
      if !granted {
        inFlightPendingReservations := inFlightPendingReservations - 1;
      }
      FinishCheck();
    }

    method AbandonReservation()
      modifies this
      ensures State() == old(State()).(gate := CountFailed(old(State()).gate))
    {
      inFlightPendingReservations := Max0(inFlightPendingReservations - 1);
      FinishCheck();
    }

    method ReleasePending()
      modifies this
      ensures State() == old(State()).(gate := ReleaseSlot(old(State()).gate))
    {
      if pendingChecksInProgress > 0 {
        deferredPendingReleases := deferredPendingReleases + 1;
      } else {
        inFlightPendingReservations := Max0(inFlightPendingReservations - 1);
      }
    }

    method Admit(c: Credential, now: int, calls: seq<int>)
      modifies this
      ensures State() == RecordAdmission(old(State()), c, now, calls)
    {
      recent := recent[c := calls + [now]];
      active := active[c := (if c in active then active[c] else 0) + 1];
    }

    method LeaveUpload(c: Credential)
      modifies this
      ensures State() == Leave(old(State()), c)
    {
      ReleasePending();
      var held: int := if c in active then active[c] else 0;
      var remaining := Max0(held - 1);
      if remaining == 0 {
        active := active - {c};
      } else {
        active := active[c := remaining];
      }
    }

    method ReleaseLock(c: Credential, u: Upload)
      modifies this
      ensures State() == Unlock(old(State()), c, u)
    {
      if c in credentialLocks && credentialLocks[c] == u {
        credentialLocks := credentialLocks - {c};
      }
    }
  }

  // ---------------------------------------------------------------------------- interleavings

  /** How far one call of `enter` has got.  The lock is held in Checking and Reserved, and in
      Failed and Held until `unlocked`. */
  datatype Phase =
    | Queued(previous: Option<Upload>)
    | Checking(now: int, calls: seq<int>, count: Option<nat>)
    | Reserved(now: int, calls: seq<int>)
    | Failed(unlocked: bool)
    | Held(unlocked: bool, committed: bool)
    | Released

  predicate Resolved(p: Phase) {
    p.Released? || ((p.Failed? || p.Held?) && p.unlocked)
  }

  predicate InCritical(p: Phase) {
    !p.Queued? && !Resolved(p)
  }

  /** phase and owner are sequences indexed by arrival number. */
  datatype World = World(
    service: Service,
    phase: seq<Phase>,
    owner: seq<Credential>,
    rows: nat,
    clock: int,
    history: map<Credential, seq<int>>)

  datatype Step =
    | Arrive(c: Credential)
    | Start(u: Upload, now: int)
    | Count(u: Upload)
    | CountFails(u: Upload)
    | DecideStep(u: Upload)
    | AdmitStep(u: Upload)
    | StorageFull(u: Upload)
    | UnlockStep(u: Upload)
    | Commit(u: Upload)
    | LeaveStep(u: Upload)
    | RowDone

  predicate LockFree(w: World, previous: Option<Upload>) {
    previous.None? || (previous.value < |w.phase| && Resolved(w.phase[previous.value]))
  }

  predicate Enabled(w: World, s: Step) {
    match s
    case Arrive(_) => true
    case Start(u, now) =>
      u < |w.phase| && w.phase[u].Queued? && LockFree(w, w.phase[u].previous) && w.clock <= now
    case Count(u) => u < |w.phase| && w.phase[u].Checking? && w.phase[u].count.None?
    case CountFails(u) => u < |w.phase| && w.phase[u].Checking? && w.phase[u].count.None?
    case DecideStep(u) => u < |w.phase| && w.phase[u].Checking? && w.phase[u].count.Some?
    case AdmitStep(u) => u < |w.phase| && w.phase[u].Reserved?
    case StorageFull(u) => u < |w.phase| && w.phase[u].Reserved?
    case UnlockStep(u) => u < |w.phase| && (w.phase[u].Failed? || w.phase[u].Held?) && !w.phase[u].unlocked
    case Commit(u) => u < |w.phase| && w.phase[u] == Held(true, false)
    case LeaveStep(u) => u < |w.phase| && w.phase[u].Held? && w.phase[u].unlocked
    case RowDone => w.rows > 0
  }

  predicate WellFormed(w: World) {
    |w.owner| == |w.phase|
  }

  function At(w: World, u: Upload, p: Phase): World
    requires u < |w.phase|
  {
    w.(phase := w.phase[u := p])
  }

  function WithGate(w: World, g: Gate): World {
    w.(service := w.service.(gate := g))
  }

  function Do(limits: Limits, w: World, s: Step): World
    requires WellFormed(w) && Enabled(w, s)
  {
    match s
    case Arrive(c) =>
      var u := |w.phase|;
      var previous := if c in w.service.locks then Some(w.service.locks[c]) else None;
      w.(service := RequestLock(w.service, c, u),
         phase := w.phase + [Queued(previous)],
         owner := w.owner + [c])
    case Start(u, now) =>
      var check := CheckLimits(w.service, w.owner[u], now, limits);
      var ticked := w.(clock := now);
      if check.Refused? then At(ticked, u, Failed(false))
      else WithGate(At(ticked, u, Checking(now, check.calls, None)), BeginCheck(w.service.gate))
    case Count(u) => At(w, u, w.phase[u].(count := Some(w.rows)))
    case CountFails(u) => WithGate(At(w, u, Failed(false)), CountFailed(w.service.gate))
    case DecideStep(u) =>
      var p := w.phase[u];
      var g := w.service.gate;
      WithGate(At(w, u, if Grants(g, p.count.value, limits) then Reserved(p.now, p.calls) else Failed(false)),
               Decide(g, p.count.value, limits))
    case AdmitStep(u) =>
      var p := w.phase[u];
      var c := w.owner[u];
      At(w, u, Held(false, false)).(
        service := RecordAdmission(w.service, c, p.now, p.calls),
        history := w.history[c := Get(w.history, c, []) + [p.now]])
    case StorageFull(u) => WithGate(At(w, u, Failed(false)), ReleaseSlot(w.service.gate))
    case UnlockStep(u) =>
      At(w, u, w.phase[u].(unlocked := true)).(service := Unlock(w.service, w.owner[u], u))
    case Commit(u) => At(w, u, Held(true, true)).(rows := w.rows + 1)
    case LeaveStep(u) => At(w, u, Released).(service := Leave(w.service, w.owner[u]))
    case RowDone => w.(rows := w.rows - 1)
  }

  /** Runs the steps in order; a step that is not enabled leaves the world alone. */
  function Run(limits: Limits, w: World, steps: seq<Step>): (r: World)
    requires WellFormed(w)
    ensures WellFormed(r)
    decreases |steps|
  {
    if steps == [] then w
    else Run(limits, if Enabled(w, steps[0]) then Do(limits, w, steps[0]) else w, steps[1..])
  }

  predicate Initial(limits: Limits, w: World) {
    && w.service == Service(map[], map[], map[], Gate(0, 0, 0))
    && w.phase == [] && w.owner == []
    && w.rows <= limits.maxPending
    && w.history == map[]
  }

  // ------------------------------------------------------------------------------- accounting

  datatype Kind = InCheck | SlotHolder | Uncommitted | CommittedHolder | ActiveOf(c: Credential)

  predicate Is(p: Phase, c: Credential, k: Kind) {
    match k
    case InCheck => p.Checking?
    case SlotHolder => p.Reserved? || p.Held?
    case Uncommitted => p.Reserved? || (p.Held? && !p.committed)
    case CommittedHolder => p.Held? && p.committed
    case ActiveOf(d) => p.Held? && c == d
  }

  function One(b: bool): nat {
    if b then 1 else 0
  }

  /** The number of uploads of one kind. */
  function Tally(phase: seq<Phase>, owner: seq<Credential>, k: Kind): nat
    requires |phase| == |owner|
  {
    if phase == [] then 0
    else Tally(phase[..|phase| - 1], owner[..|phase| - 1], k)
         + One(Is(phase[|phase| - 1], owner[|phase| - 1], k))
  }

  lemma {:induction false} TallyUpdate(phase: seq<Phase>, owner: seq<Credential>, u: Upload, p: Phase, k: Kind)
    requires |phase| == |owner| && u < |phase|
    ensures Tally(phase[u := p], owner, k)
            == Tally(phase, owner, k) - One(Is(phase[u], owner[u], k)) + One(Is(p, owner[u], k))
  {
    var n := |phase| - 1;
    if u == n {
      assert phase[u := p][..n] == phase[..n];
    } else {
      assert phase[u := p][..n] == phase[..n][u := p];
      TallyUpdate(phase[..n], owner[..n], u, p, k);
    }
  }

  lemma {:induction false} TallyPositive(phase: seq<Phase>, owner: seq<Credential>, u: Upload, k: Kind)
    requires |phase| == |owner| && u < |phase| && Is(phase[u], owner[u], k)
    ensures Tally(phase, owner, k) >= 1
  {
    var n := |phase| - 1;
    if u < n {
      TallyPositive(phase[..n], owner[..n], u, k);
    }
  }

  function Total(w: World, k: Kind): nat
    requires WellFormed(w)
  {
    Tally(w.phase, w.owner, k)
  }

  /** in-check + held + deferred, and nothing is deferred once no check is running. */
  predicate Balanced(w: World)
    requires WellFormed(w)
  {
    var g := w.service.gate;
    && g.checks == Total(w, InCheck)
    && g.deferred >= 0
    && (g.checks == 0 ==> g.deferred == 0)
    && g.inFlight == Total(w, InCheck) + Total(w, SlotHolder) + g.deferred
  }

  /** Every row that appeared after a snapshot is still represented by a holder or a deferral. */
  predicate SnapshotsCovered(w: World)
    requires WellFormed(w)
  {
    forall u | 0 <= u < |w.phase| && w.phase[u].Checking? && w.phase[u].count.Some? ::
      w.rows <= w.phase[u].count.value + Total(w, CommittedHolder) + w.service.gate.deferred
  }

  predicate WithinPending(limits: Limits, w: World)
    requires WellFormed(w)
  {
    w.rows + Total(w, Uncommitted) <= limits.maxPending
  }

  predicate GateInv(limits: Limits, w: World)
    requires WellFormed(w)
  {
    Balanced(w) && SnapshotsCovered(w) && WithinPending(limits, w)
  }

  lemma {:induction false} SlotsSplit(phase: seq<Phase>, owner: seq<Credential>)
    requires |phase| == |owner|
    ensures Tally(phase, owner, SlotHolder)
            == Tally(phase, owner, Uncommitted) + Tally(phase, owner, CommittedHolder)
  {
    if phase != [] {
      SlotsSplit(phase[..|phase| - 1], owner[..|phase| - 1]);
    }
  }

  lemma TotalsAfter(w: World, u: Upload, p: Phase)
    requires WellFormed(w) && u < |w.phase|
    ensures forall k :: Total(At(w, u, p), k)
                        == Total(w, k) - One(Is(w.phase[u], w.owner[u], k)) + One(Is(p, w.owner[u], k))
    ensures forall k :: Is(w.phase[u], w.owner[u], k) ==> Total(w, k) >= 1
  {
    forall k ensures Total(At(w, u, p), k)
                     == Total(w, k) - One(Is(w.phase[u], w.owner[u], k)) + One(Is(p, w.owner[u], k)) {
      TallyUpdate(w.phase, w.owner, u, p, k);
    }
    forall k | Is(w.phase[u], w.owner[u], k) ensures Total(w, k) >= 1 {
      TallyPositive(w.phase, w.owner, u, k);
    }
  }

  /** The arithmetic of one decision: what the grant test must have counted. */
  lemma GrantIsSafe(limits: Limits, w: World, u: Upload)
    requires WellFormed(w) && GateInv(limits, w) && Enabled(w, DecideStep(u))
    requires Grants(w.service.gate, w.phase[u].count.value, limits)
    ensures w.rows + Total(w, Uncommitted) + 1 <= limits.maxPending
  {
    SlotsSplit(w.phase, w.owner);
    TallyPositive(w.phase, w.owner, u, InCheck);
  }

  lemma NoneChecking(w: World)
    requires WellFormed(w)
    ensures Total(w, InCheck) == 0 ==> forall u | 0 <= u < |w.phase| :: !w.phase[u].Checking?
  {
    if u :| 0 <= u < |w.phase| && w.phase[u].Checking? {
      TallyPositive(w.phase, w.owner, u, InCheck);
    }
  }

  lemma GateCheckStep(limits: Limits, w: World, s: Step)
    requires WellFormed(w) && GateInv(limits, w) && Enabled(w, s)
    requires s.Start? || s.Count? || s.CountFails? || s.DecideStep?
    ensures GateInv(limits, Do(limits, w, s))
  {
    var after := Do(limits, w, s);
    var u := s.u;
    TotalsAfter(w, u, after.phase[u]);
    NoneChecking(after);
    if s.DecideStep? && Grants(w.service.gate, w.phase[u].count.value, limits) {
      GrantIsSafe(limits, w, u);
    }
    assert forall k :: Total(after, k) == Total(At(w, u, after.phase[u]), k);
  }

  lemma GateHolderStep(limits: Limits, w: World, s: Step)
    requires WellFormed(w) && GateInv(limits, w) && Enabled(w, s)
    requires s.AdmitStep? || s.StorageFull? || s.UnlockStep? || s.Commit? || s.LeaveStep?
    ensures GateInv(limits, Do(limits, w, s))
  {
    var after := Do(limits, w, s);
    var u := s.u;
    TotalsAfter(w, u, after.phase[u]);
    NoneChecking(after);
    assert forall k :: Total(after, k) == Total(At(w, u, after.phase[u]), k);
  }

  lemma GateStep(limits: Limits, w: World, s: Step)
    requires WellFormed(w) && GateInv(limits, w) && Enabled(w, s)
    ensures GateInv(limits, Do(limits, w, s))
  {
    match s
    case Arrive(c) =>
      var after := Do(limits, w, s);
      assert after.phase[..|w.phase|] == w.phase && after.owner[..|w.phase|] == w.owner;
      assert forall k :: Total(after, k) == Total(w, k);
    case RowDone =>
    case Start(_, _) => GateCheckStep(limits, w, s);
    case Count(_) => GateCheckStep(limits, w, s);
    case CountFails(_) => GateCheckStep(limits, w, s);
    case DecideStep(_) => GateCheckStep(limits, w, s);
    case _ => GateHolderStep(limits, w, s);
  }

  lemma {:induction false} GateRun(limits: Limits, w: World, steps: seq<Step>)
    requires WellFormed(w) && GateInv(limits, w)
    ensures GateInv(limits, Run(limits, w, steps))
    decreases |steps|
  {
    if steps != [] {
      if Enabled(w, steps[0]) {
        GateStep(limits, w, steps[0]);
        GateRun(limits, Do(limits, w, steps[0]), steps[1..]);
      } else {
        GateRun(limits, w, steps[1..]);
      }
    }
  }

  /** Over every interleaving of checks, commits and releases: pending rows plus admitted uploads
      that have not committed yet never exceed the maximum, and the reservation counter is
      exactly in-check + held + deferred. */
  lemma NeverOverAdmits(limits: Limits, start: World, steps: seq<Step>)
    requires Initial(limits, start)
    ensures var w := Run(limits, start, steps);
            var g := w.service.gate;
            && w.rows + Total(w, Uncommitted) <= limits.maxPending
            && g.inFlight == Total(w, InCheck) + Total(w, SlotHolder) + g.deferred
  {
    GateRun(limits, start, steps);
  }

  /** How many uploads a run commits, or how many pending rows it completes. */
  function Effective(limits: Limits, w: World, steps: seq<Step>, commits: bool): nat
    requires WellFormed(w)
    decreases |steps|
  {
    if steps == [] then 0
    else
      var acts := Enabled(w, steps[0]);
      One(acts && (if commits then steps[0].Commit? else steps[0].RowDone?))
      + Effective(limits, if acts then Do(limits, w, steps[0]) else w, steps[1..], commits)
  }

  /** Every committed upload is one pending row until that row is done, whatever else happens. */
  lemma {:induction false} PendingRowsAreCounted(limits: Limits, w: World, steps: seq<Step>)
    requires WellFormed(w)
    ensures w.rows + Effective(limits, w, steps, true) == Run(limits, w, steps).rows + Effective(limits, w, steps, false)
    decreases |steps|
  {
    if steps != [] {
      PendingRowsAreCounted(limits, if Enabled(w, steps[0]) then Do(limits, w, steps[0]) else w, steps[1..]);
    }
  }

  /** None of the three `Math.max(0, ...)` clamps ever changes a value. */
  lemma ClampsNeverFire(limits: Limits, start: World, steps: seq<Step>, s: Step)
    requires Initial(limits, start) && Enabled(Run(limits, start, steps), s)
    ensures var w := Run(limits, start, steps);
            var g := w.service.gate;
            match s
            case CountFails(_) => g.inFlight >= 1 && (g.checks == 1 ==> g.inFlight - 1 >= g.deferred)
            case DecideStep(_) => g.inFlight >= 1 && (g.checks == 1 ==> g.inFlight - 1 >= g.deferred)
            case StorageFull(_) => g.inFlight >= 1
            case LeaveStep(_) => g.inFlight >= 1
            case _ => true
  {
    var w := Run(limits, start, steps);
    GateRun(limits, start, steps);
    match s
    case CountFails(u) => TallyPositive(w.phase, w.owner, u, InCheck);
    case DecideStep(u) => TallyPositive(w.phase, w.owner, u, InCheck);
    case StorageFull(u) => TallyPositive(w.phase, w.owner, u, SlotHolder);
    case LeaveStep(u) => TallyPositive(w.phase, w.owner, u, SlotHolder);
    case _ =>
  }

  lemma {:induction false} TallyZero(phase: seq<Phase>, owner: seq<Credential>, k: Kind)
    requires |phase| == |owner|
    requires forall u | 0 <= u < |phase| :: !Is(phase[u], owner[u], k)
    ensures Tally(phase, owner, k) == 0
  {
    if phase != [] {
      TallyZero(phase[..|phase| - 1], owner[..|phase| - 1], k);
    }
  }

  predicate Quiescent(w: World) {
    forall u | 0 <= u < |w.phase| :: w.phase[u].Queued? || w.phase[u].Failed? || w.phase[u].Released?
  }

  lemma QuiescentGate(limits: Limits, w: World)
    requires WellFormed(w) && GateInv(limits, w) && Quiescent(w)
    ensures w.service.gate == Gate(0, 0, 0)
  {
    TallyZero(w.phase, w.owner, InCheck);
    TallyZero(w.phase, w.owner, SlotHolder);
  }

  /** Nothing leaks: once every call has been refused or has left, all counters are back to zero. */
  lemma QuiescentMeansZero(limits: Limits, start: World, steps: seq<Step>)
    requires Initial(limits, start) && Quiescent(Run(limits, start, steps))
    ensures Run(limits, start, steps).service.gate == Gate(0, 0, 0)
  {
    GateRun(limits, start, steps);
    QuiescentGate(limits, Run(limits, start, steps));
  }

  /** What the grant test means in any reachable world: the snapshot plus everyone in check,
      everyone holding a slot and every release still deferred must fit. */
  lemma GrantedExactlyWhen(limits: Limits, start: World, steps: seq<Step>, u: Upload)
    requires Initial(limits, start) && Enabled(Run(limits, start, steps), DecideStep(u))
    ensures var w := Run(limits, start, steps);
            Do(limits, w, DecideStep(u)).phase[u].Reserved?
            <==> w.phase[u].count.value + Total(w, InCheck) + Total(w, SlotHolder) + w.service.gate.deferred
                 <= limits.maxPending
  {
    GateRun(limits, start, steps);
  }

  // ------------------------------------------------------------------ per-credential ordering

  predicate Before(w: World, v: Upload, u: Upload)
    requires WellFormed(w)
  {
    v < u < |w.phase| && w.owner[v] == w.owner[u]
  }

  ghost predicate AllResolvedBefore(w: World, u: Upload)
    requires WellFormed(w)
  {
    forall v | 0 <= v && Before(w, v, u) :: Resolved(w.phase[v])
  }

  ghost predicate NoneBetween(w: World, p: Upload, u: Upload)
    requires WellFormed(w)
  {
    Before(w, p, u) && forall v | p < v < u :: w.owner[v] != w.owner[u]
  }

  ghost predicate ChainLink(w: World, u: Upload)
    requires WellFormed(w) && u < |w.phase|
  {
    match w.phase[u]
    case Queued(None) => AllResolvedBefore(w, u)
    case Queued(Some(p)) => NoneBetween(w, p, u)
    case _ => AllResolvedBefore(w, u)
  }

  /** locks[c] is the newest unresolved call of c, and c has no entry when all its calls are
      resolved: deleting entries loses nothing. */
  ghost predicate LockEntries(w: World)
    requires WellFormed(w)
  {
    && (forall c | c in w.service.locks ::
          && w.service.locks[c] < |w.phase|
          && w.owner[w.service.locks[c]] == c
          && !Resolved(w.phase[w.service.locks[c]])
          && forall v | w.service.locks[c] < v < |w.phase| :: w.owner[v] != c)
    && (forall u | 0 <= u < |w.phase| && w.owner[u] !in w.service.locks :: Resolved(w.phase[u]))
  }

  ghost predicate ChainInv(w: World)
    requires WellFormed(w)
  {
    LockEntries(w) && forall u | 0 <= u < |w.phase| :: ChainLink(w, u)
  }

  lemma StartFollowsItsPredecessors(w: World, u: Upload, now: int)
    requires WellFormed(w) && ChainInv(w) && Enabled(w, Start(u, now))
    ensures AllResolvedBefore(w, u)
  {
    assert ChainLink(w, u);
    if w.phase[u].previous.Some? {
      var p := w.phase[u].previous.value;
      assert ChainLink(w, p);
      forall v | 0 <= v && Before(w, v, u) ensures Resolved(w.phase[v]) {
        assert v <= p;
        assert v < p ==> Before(w, v, p);
      }
    }
  }

  lemma ChainArrive(limits: Limits, w: World, c: Credential)
    requires WellFormed(w) && ChainInv(w)
    ensures ChainInv(Do(limits, w, Arrive(c)))
  {
    var after := Do(limits, w, Arrive(c));
    forall u | 0 <= u < |after.phase| ensures ChainLink(after, u) {
      if u < |w.phase| {
        assert ChainLink(w, u);
      }
    }
  }

  /** A step that keeps u's promise as it was. */
  lemma ChainKept(w: World, u: Upload, p: Phase, after: World)
    requires WellFormed(w) && WellFormed(after) && ChainInv(w) && u < |w.phase|
    requires after.phase == w.phase[u := p] && after.owner == w.owner && after.service.locks == w.service.locks
    requires Resolved(w.phase[u]) <==> Resolved(p)
    requires !p.Queued? && AllResolvedBefore(w, u)
    ensures ChainInv(after)
  {
    forall v | 0 <= v < |w.phase| ensures ChainLink(after, v) {
      assert ChainLink(w, v);
    }
  }

  lemma ChainUnlock(limits: Limits, w: World, u: Upload)
    requires WellFormed(w) && ChainInv(w) && Enabled(w, UnlockStep(u))
    ensures ChainInv(Do(limits, w, UnlockStep(u)))
  {
    var after := Do(limits, w, UnlockStep(u));
    var c := w.owner[u];
    assert ChainLink(w, u);
    forall v | 0 <= v < |w.phase| ensures ChainLink(after, v) {
      assert ChainLink(w, v);
    }
    forall v | 0 <= v < |w.phase| && w.owner[v] !in after.service.locks ensures Resolved(after.phase[v]) {
      if w.owner[v] == c && v != u {
        assert c in w.service.locks && w.service.locks[c] == u;
        assert Before(w, v, u);
      }
    }
  }

  lemma ChainRowDone(limits: Limits, w: World)
    requires WellFormed(w) && ChainInv(w) && Enabled(w, RowDone)
    ensures ChainInv(Do(limits, w, RowDone))
  {
    forall u | 0 <= u < |w.phase| ensures ChainLink(Do(limits, w, RowDone), u) {
      assert ChainLink(w, u);
    }
  }

  lemma ChainStart(limits: Limits, w: World, u: Upload, now: int)
    requires WellFormed(w) && ChainInv(w) && Enabled(w, Start(u, now))
    ensures ChainInv(Do(limits, w, Start(u, now)))
  {
    StartFollowsItsPredecessors(w, u, now);
    var after := Do(limits, w, Start(u, now));
    ChainKept(w, u, after.phase[u], after);
  }

  lemma ChainElse(limits: Limits, w: World, s: Step)
    requires WellFormed(w) && ChainInv(w) && Enabled(w, s)
    requires !s.Arrive? && !s.RowDone? && !s.UnlockStep? && !s.Start?
    ensures ChainInv(Do(limits, w, s))
  {
    assert ChainLink(w, s.u);
    var after := Do(limits, w, s);
    ChainKept(w, s.u, after.phase[s.u], after);
  }

  lemma ChainStep(limits: Limits, w: World, s: Step)
    requires WellFormed(w) && ChainInv(w) && Enabled(w, s)
    ensures ChainInv(Do(limits, w, s))
  {
    hide ChainInv, Do, WellFormed, Enabled;
    match s
    case Arrive(c) => ChainArrive(limits, w, c);
    case RowDone => ChainRowDone(limits, w);
    case UnlockStep(u) => ChainUnlock(limits, w, u);
    case Start(u, now) => ChainStart(limits, w, u, now);
    case _ => ChainElse(limits, w, s);
  }

  lemma CriticalComesLast(w: World, u: Upload, v: Upload)
    requires WellFormed(w) && ChainInv(w)
    requires u < v < |w.phase| && w.owner[u] == w.owner[v] && InCritical(w.phase[v])
    ensures Resolved(w.phase[u])
  {
    assert Before(w, u, v);
    assert ChainLink(w, v);
  }

  /** At most one call of a credential is between taking and releasing the lock. */
  lemma MutualExclusion(w: World, u: Upload, v: Upload)
    requires WellFormed(w) && ChainInv(w)
    requires u < |w.phase| && v < |w.phase| && w.owner[u] == w.owner[v]
    requires InCritical(w.phase[u]) && InCritical(w.phase[v])
    ensures u == v
  {
    if u < v {
      CriticalComesLast(w, u, v);
    } else if v < u {
      CriticalComesLast(w, v, u);
    }
  }

  // -------------------------------------------------------------------- rate and concurrency

  ghost predicate Sorted(stamps: seq<int>) {
    forall i, j | 0 <= i < j < |stamps| :: stamps[i] <= stamps[j]
  }

  /** Any rate + 1 consecutive admissions span more than the window. */
  ghost predicate Spaced(stamps: seq<int>, rate: nat) {
    forall i, j | 0 <= i && j == i + rate && j < |stamps| :: stamps[i] < stamps[j] - WINDOW_MS
  }

  ghost predicate NoneAfter(stamps: seq<int>, now: int) {
    forall i | 0 <= i < |stamps| :: stamps[i] <= now
  }

  /** Dropping old calls from `recent` is invisible to every later check. */
  ghost predicate SameWindows(recent: seq<int>, history: seq<int>) {
    forall t | NoneAfter(history, t) :: Window(recent, t) == Window(history, t)
  }

  lemma {:induction false} WindowOfWindow(stamps: seq<int>, a: int, b: int)
    requires a <= b
    ensures Window(Window(stamps, a), b) == Window(stamps, b)
  {
    if stamps != [] {
      var n := |stamps| - 1;
      WindowOfWindow(stamps[..n], a, b);
      if stamps[n] >= a - WINDOW_MS {
        WindowAppend(Window(stamps[..n], a), stamps[n], b);
      } else {
        assert Window(stamps, a) == Window(stamps[..n], a);
      }
    }
  }

  lemma WindowAppend(stamps: seq<int>, x: int, t: int)
    ensures Window(stamps + [x], t) == Window(stamps, t) + (if x >= t - WINDOW_MS then [x] else [])
  {
  }

  lemma {:induction false} WindowHoldsSuffix(stamps: seq<int>, i: nat, t: int)
    requires Sorted(stamps) && i < |stamps| && stamps[i] >= t - WINDOW_MS
    ensures |Window(stamps, t)| >= |stamps| - i
  {
    var n := |stamps| - 1;
    if i < n {
      WindowHoldsSuffix(stamps[..n], i, t);
    }
  }

  predicate Deciding(p: Phase) {
    p.Checking? || p.Reserved?
  }

  function Admissions(w: World, c: Credential): seq<int> {
    Get(w.history, c, [])
  }

  ghost predicate HistoryOk(limits: Limits, w: World, c: Credential) {
    var h := Admissions(w, c);
    && Sorted(h) && NoneAfter(h, w.clock) && Spaced(h, limits.ratePerMinute)
    && SameWindows(Get(w.service.recent, c, []), h)
  }

  ghost predicate ActiveOk(limits: Limits, w: World, c: Credential)
    requires WellFormed(w)
  {
    && Get(w.service.active, c, 0) == Total(w, ActiveOf(c)) <= limits.concurrentPerCredential
    && (c in w.service.active ==> w.service.active[c] > 0)
  }

  /** What an upload learned when it passed the limit checks still holds when it is admitted. */
  ghost predicate StillWithin(limits: Limits, w: World, u: Upload)
    requires WellFormed(w) && u < |w.phase| && Deciding(w.phase[u])
  {
    var h := Admissions(w, w.owner[u]);
    var p := w.phase[u];
    && p.now <= w.clock && NoneAfter(h, p.now)
    && p.calls == Window(h, p.now) && |p.calls| < limits.ratePerMinute
    && Get(w.service.active, w.owner[u], 0) < limits.concurrentPerCredential
  }

  ghost predicate CredentialInv(limits: Limits, w: World)
    requires WellFormed(w)
  {
    && (forall c :: HistoryOk(limits, w, c))
    && (forall c :: ActiveOk(limits, w, c))
    && (forall u | 0 <= u < |w.phase| && Deciding(w.phase[u]) :: StillWithin(limits, w, u))
  }

  lemma AppendAdmission(limits: Limits, h: seq<int>, recent: seq<int>, calls: seq<int>, now: int)
    requires Sorted(h) && NoneAfter(h, now) && Spaced(h, limits.ratePerMinute)
    requires calls == Window(h, now) && |calls| < limits.ratePerMinute
    ensures Sorted(h + [now]) && Spaced(h + [now], limits.ratePerMinute)
    ensures SameWindows(calls + [now], h + [now])
  {
    var rate := limits.ratePerMinute;
    var h' := h + [now];
    if i, j :| 0 <= i && j == i + rate && j < |h'| && h'[i] >= h'[j] - WINDOW_MS {
      if j == |h| {
        WindowHoldsSuffix(h, i, now);
      }
      assert false;
    }
    forall t | NoneAfter(h', t) ensures Window(calls + [now], t) == Window(h', t) {
      assert h'[|h|] <= t;
      WindowAppend(calls, now, t);
      WindowAppend(h, now, t);
      WindowOfWindow(h, now, t);
    }
  }

  lemma CredentialStart(limits: Limits, w: World, u: Upload, now: int)
    requires WellFormed(w) && CredentialInv(limits, w) && Enabled(w, Start(u, now))
    ensures CredentialInv(limits, Do(limits, w, Start(u, now)))
  {
    var after := Do(limits, w, Start(u, now));
    var c := w.owner[u];
    TotalsAfter(w, u, after.phase[u]);
    assert forall k :: Total(after, k) == Total(At(w, u, after.phase[u]), k);
    assert HistoryOk(limits, w, c);
    assert NoneAfter(Admissions(w, c), now);
    forall d ensures HistoryOk(limits, after, d) && ActiveOk(limits, after, d) {
      assert HistoryOk(limits, w, d) && ActiveOk(limits, w, d);
    }
    forall v | 0 <= v < |after.phase| && Deciding(after.phase[v]) ensures StillWithin(limits, after, v) {
      if v != u {
        assert StillWithin(limits, w, v);
      }
    }
  }

  lemma AdmitRecords(limits: Limits, w: World, u: Upload)
    requires WellFormed(w) && CredentialInv(limits, w) && Enabled(w, AdmitStep(u))
    ensures forall d :: HistoryOk(limits, Do(limits, w, AdmitStep(u)), d)
  {
    var after := Do(limits, w, AdmitStep(u));
    var c := w.owner[u];
    var p := w.phase[u];
    assert StillWithin(limits, w, u) && HistoryOk(limits, w, c);
    AppendAdmission(limits, Admissions(w, c), Get(w.service.recent, c, []), p.calls, p.now);
    forall d ensures HistoryOk(limits, after, d) {
      assert HistoryOk(limits, w, d);
    }
  }

  lemma AdmitCounts(limits: Limits, w: World, u: Upload)
    requires WellFormed(w) && CredentialInv(limits, w) && Enabled(w, AdmitStep(u))
    ensures forall d :: ActiveOk(limits, Do(limits, w, AdmitStep(u)), d)
  {
    var after := Do(limits, w, AdmitStep(u));
    TotalsAfter(w, u, after.phase[u]);
    assert StillWithin(limits, w, u);
    forall d ensures ActiveOk(limits, after, d) {
      assert ActiveOk(limits, w, d);
      assert Total(after, ActiveOf(d)) == Total(At(w, u, after.phase[u]), ActiveOf(d));
    }
  }

  lemma CredentialAdmit(limits: Limits, w: World, u: Upload)
    requires WellFormed(w) && CredentialInv(limits, w) && ChainInv(w) && Enabled(w, AdmitStep(u))
    ensures CredentialInv(limits, Do(limits, w, AdmitStep(u)))
  {
    var after := Do(limits, w, AdmitStep(u));
    AdmitRecords(limits, w, u);
    AdmitCounts(limits, w, u);
    forall v | 0 <= v < |after.phase| && Deciding(after.phase[v]) ensures StillWithin(limits, after, v) {
      assert v != u && StillWithin(limits, w, v);
      if w.owner[v] == w.owner[u] {
        MutualExclusion(w, u, v);
      }
    }
  }

  lemma CredentialLeave(limits: Limits, w: World, u: Upload)
    requires WellFormed(w) && CredentialInv(limits, w) && Enabled(w, LeaveStep(u))
    ensures CredentialInv(limits, Do(limits, w, LeaveStep(u)))
  {
    var after := Do(limits, w, LeaveStep(u));
    TotalsAfter(w, u, after.phase[u]);
    assert forall k :: Total(after, k) == Total(At(w, u, after.phase[u]), k);
    forall d ensures HistoryOk(limits, after, d) && ActiveOk(limits, after, d) {
      assert HistoryOk(limits, w, d) && ActiveOk(limits, w, d) && ActiveOk(limits, w, w.owner[u]);
    }
    forall v | 0 <= v < |after.phase| && Deciding(after.phase[v]) ensures StillWithin(limits, after, v) {
      assert StillWithin(limits, w, v);
    }
  }

  /** Steps that touch neither the history nor the active counts. */
  lemma CredentialOther(limits: Limits, w: World, s: Step)
    requires WellFormed(w) && CredentialInv(limits, w) && Enabled(w, s)
    requires !s.Start? && !s.AdmitStep? && !s.LeaveStep?
    ensures CredentialInv(limits, Do(limits, w, s))
  {
    hide Sorted, Spaced, SameWindows, NoneAfter, Window;
    var after := Do(limits, w, s);
    if s.Arrive? {
      assert after.phase[..|w.phase|] == w.phase && after.owner[..|w.phase|] == w.owner;
    } else if !s.RowDone? {
      TotalsAfter(w, s.u, after.phase[s.u]);
      assert forall k :: Total(after, k) == Total(At(w, s.u, after.phase[s.u]), k);
    }
    forall d ensures HistoryOk(limits, after, d) && ActiveOk(limits, after, d) {
      assert HistoryOk(limits, w, d) && ActiveOk(limits, w, d);
    }
    forall v | 0 <= v < |after.phase| && Deciding(after.phase[v]) ensures StillWithin(limits, after, v) {
      assert StillWithin(limits, w, v);
    }
  }

  lemma CredentialStep(limits: Limits, w: World, s: Step)
    requires WellFormed(w) && CredentialInv(limits, w) && ChainInv(w) && Enabled(w, s)
    ensures CredentialInv(limits, Do(limits, w, s))
  {
    match s
    case Start(u, now) => CredentialStart(limits, w, u, now);
    case AdmitStep(u) => CredentialAdmit(limits, w, u);
    case LeaveStep(u) => CredentialLeave(limits, w, u);
    case _ => CredentialOther(limits, w, s);
  }

  lemma {:induction false} CredentialRun(limits: Limits, w: World, steps: seq<Step>)
    requires WellFormed(w) && ChainInv(w) && CredentialInv(limits, w)
    ensures ChainInv(Run(limits, w, steps)) && CredentialInv(limits, Run(limits, w, steps))
    decreases |steps|
  {
    if steps != [] {
      if Enabled(w, steps[0]) {
        ChainStep(limits, w, steps[0]);
        CredentialStep(limits, w, steps[0]);
        CredentialRun(limits, Do(limits, w, steps[0]), steps[1..]);
      } else {
        CredentialRun(limits, w, steps[1..]);
      }
    }
  }

  /** The positions of the admissions in the closed window [from, from + 60 s]. */
  ghost function InWindow(stamps: seq<int>, from: int): set<int> {
    set i: int | 0 <= i < |stamps| && from <= stamps[i] <= from + 60_000
  }

  lemma RangeSize(lo: int, size: nat, s: set<int>)
    requires forall i | i in s :: lo <= i < lo + size
    ensures |s| <= size
    decreases size
  {
    if size == 0 {
      forall i: int ensures i !in s {
      }
      assert s == {};
    } else {
      RangeSize(lo, size - 1, s - {lo + size - 1});
    }
  }

  lemma SpacedMeansRateLimited(stamps: seq<int>, rate: nat, from: int)
    requires Sorted(stamps) && Spaced(stamps, rate)
    ensures |InWindow(stamps, from)| <= rate
  {
    var s := InWindow(stamps, from);
    if s != {} {
      var i :| i in s;
      while i > 0 && stamps[i - 1] >= from
        invariant i in s
      {
        i := i - 1;
      }
      forall j | j in s ensures i <= j < i + rate {
        assert i + rate < |stamps| ==> stamps[i] < stamps[i + rate] - WINDOW_MS;
      }
      RangeSize(i, rate, s);
    }
  }

  /** Over every interleaving, every credential: the calls still running never exceed the
      configured maximum, and no closed 60-second window holds more admissions than the rate. */
  lemma CredentialLimitsHold(limits: Limits, start: World, steps: seq<Step>, c: Credential, from: int)
    requires Initial(limits, start)
    ensures var w := Run(limits, start, steps);
            && Total(w, ActiveOf(c)) <= limits.concurrentPerCredential
            && |InWindow(Admissions(w, c), from)| <= limits.ratePerMinute
  {
    var w := Run(limits, start, steps);
    CredentialRun(limits, start, steps);
    assert HistoryOk(limits, w, c) && ActiveOk(limits, w, c);
    SpacedMeansRateLimited(Admissions(w, c), limits.ratePerMinute, from);
  }

  /** The positions of the admissions of the last minute. */
  ghost function LastMinute(stamps: seq<int>, now: int): set<int> {
    set i: int | 0 <= i < |stamps| && stamps[i] >= now - 60_000
  }

  lemma {:induction false} WindowCounts(stamps: seq<int>, now: int)
    ensures |Window(stamps, now)| == |LastMinute(stamps, now)|
  {
    if stamps == [] {
      assert LastMinute(stamps, now) == {};
    } else {
      var n := |stamps| - 1;
      WindowCounts(stamps[..n], now);
      assert LastMinute(stamps, now)
             == LastMinute(stamps[..n], now) + (if stamps[n] >= now - 60_000 then {n} else {});
    }
  }

  /** In every reachable world a call that starts passes the credential limits exactly when fewer
      admissions of its credential than the rate lie in the last minute and fewer of its calls
      than the maximum are running; passing, it is represented before it counts the rows. */
  lemma StartPassesExactlyWhen(limits: Limits, start: World, steps: seq<Step>, u: Upload, now: int)
    requires Initial(limits, start) && Enabled(Run(limits, start, steps), Start(u, now))
    ensures var w := Run(limits, start, steps);
            var after := Do(limits, w, Start(u, now));
            var c := w.owner[u];
            && (after.phase[u].Checking?
                <==> |LastMinute(Admissions(w, c), now)| < limits.ratePerMinute
                     && Total(w, ActiveOf(c)) < limits.concurrentPerCredential)
            && (!after.phase[u].Checking? ==> after.phase[u] == Failed(false) && after.service == w.service)
  {
    var w := Run(limits, start, steps);
    var c := w.owner[u];
    CredentialRun(limits, start, steps);
    assert HistoryOk(limits, w, c) && ActiveOk(limits, w, c);
    assert NoneAfter(Admissions(w, c), now);
    WindowCounts(Admissions(w, c), now);
    hide Run, Sorted, Spaced, Window, LastMinute;
  }

  /** Nothing is lost in the chain: a waiting call may start exactly when every earlier call of its
      credential is finished. */
  lemma StartsExactlyWhen(limits: Limits, start: World, steps: seq<Step>, u: Upload, now: int)
    requires Initial(limits, start)
    ensures var w := Run(limits, start, steps);
            Enabled(w, Start(u, now))
            <==> u < |w.phase| && w.phase[u].Queued? && w.clock <= now && AllResolvedBefore(w, u)
  {
    var w := Run(limits, start, steps);
    CredentialRun(limits, start, steps);
    hide Run;
    if Enabled(w, Start(u, now)) {
      StartFollowsItsPredecessors(w, u, now);
    }
    if u < |w.phase| && w.phase[u].Queued? && AllResolvedBefore(w, u) {
      assert ChainLink(w, u);
      if w.phase[u].previous.Some? {
        assert Before(w, w.phase[u].previous.value, u);
      }
    }
  }

  /** Over every interleaving the lock is exclusive and granted in arrival order: a call that may
      start finds every earlier call of its credential finished. */
  lemma LockIsFairAndExclusive(limits: Limits, start: World, steps: seq<Step>, u: Upload, v: Upload)
    requires Initial(limits, start)
    requires var w := Run(limits, start, steps);
             u < v < |w.phase| && w.owner[u] == w.owner[v]
    ensures var w := Run(limits, start, steps);
            && !(InCritical(w.phase[u]) && InCritical(w.phase[v]))
            && (forall now | Enabled(w, Start(v, now)) :: Resolved(w.phase[u]))
  {
    var w := Run(limits, start, steps);
    CredentialRun(limits, start, steps);
    if InCritical(w.phase[u]) && InCritical(w.phase[v]) {
      MutualExclusion(w, u, v);
    }
    forall now | Enabled(w, Start(v, now)) ensures Resolved(w.phase[u]) {
      StartFollowsItsPredecessors(w, v, now);
      assert Before(w, u, v);
    }
  }
}
