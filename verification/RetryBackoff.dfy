/** Retry pacing after failed clones: retryBackoff and handleFailure in
    internal/gitops/worker.go, and the gate scheduleCloneJobs puts in front of a
    repository in internal/gitops/scheduler.go.  Times are in nanoseconds.
  */
module RetryBackoff {
  import opened Wrappers

  const SECOND: int64 := 1_000_000_000
  const MINUTE: int64 := 60 * SECOND
  const HOUR: int64 := 3600 * SECOND  // retryBackoffCap

  function Min(a: int, b: int): int {
    if a < b then a else b
  }

  function Base(configured: int64): int64 {
    if configured <= 0 then MINUTE else configured
  }

  /** The delay the comments promise: base * 2^n, capped at an hour. */
  function Promised(configured: int64, n: nat): int {
    Min(Base(configured) as int * Pow2(n), HOUR as int)
  }

  /** From the configured base, or a minute, doubled by each further failure, at most an hour. */
  lemma PromisedDoubles(configured: int64, n: nat)
    ensures configured <= 0 ==> Promised(configured, 0) == 60_000_000_000
    ensures configured > 0 ==>
              Promised(configured, 0) == if configured as int < 3_600_000_000_000 then configured as int
                                         else 3_600_000_000_000
    ensures Promised(configured, n + 1) == if 2 * Promised(configured, n) < 3_600_000_000_000 then
                                             2 * Promised(configured, n) else 3_600_000_000_000
  {
    var base, p := Base(configured) as int, Pow2(n);
    PromisedIsPositive(configured, n);
    assert base * Pow2(n + 1) == 2 * (base * p);
  }

  lemma AtLeastOnce(base: int, p: int, q: int)
    requires base > 0 && p <= q
    ensures base * p <= base * q
    ensures p >= 1 ==> base * p > 0
  {
    assert base * q == base * p + base * (q - p);
  }

  lemma DoubledPastCap(base: int, i: nat, n: nat)
    requires base > 0 && i <= n && base * Pow2(i) >= HOUR as int
    ensures Min(base * Pow2(n), HOUR as int) == HOUR as int
  {
    Pow2Monotone(i, n);
    AtLeastOnce(base, Pow2(i), Pow2(n));
  }

  /** retryBackoff.  Every sum and product is an int64 operation that Dafny proves in
      range, whatever the configured base and the failure count; draw stands for the
      random generator. */
  method RetryDelay(configured: int64, retryCount: int, draw: nat) returns (delay: int64)
    ensures var promised := Promised(configured, if retryCount < 0 then 0 else retryCount);
            promised <= delay as int <= promised + promised / 2
  {
    var base := configured;
    if base <= 0 {
      base := MINUTE;
    }
    var backoff := base;
    var i := 0;
    while i < retryCount && backoff < HOUR
      invariant 0 <= i && (i <= retryCount || i == 0)
      invariant 0 < base <= backoff && base == Base(configured)
      invariant backoff as int == base as int * Pow2(i)
      invariant backoff < 2 * HOUR || backoff == base
      decreases retryCount - i
    {
      backoff := backoff * 2;
      i := i + 1;
    }
    if retryCount > i {
      DoubledPastCap(base as int, i, retryCount);
    }
    if backoff > HOUR {
      backoff := HOUR;
    }
    var jitter := (draw % (backoff as int / 2 + 1)) as int64;
    delay := backoff + jitter;
  }

  lemma PromisedIsPositive(cfg: int64, n: nat)
    ensures Promised(cfg, n) > 0
  {
    Pow2Monotone(0, n);
    AtLeastOnce(Base(cfg) as int, 1, Pow2(n));
  }

  // ------------------------------------------------------- one repository's attempts

  /** Where a job of the repository is.  A cancelled attempt goes on: git is not stopped. */
  datatype Where = Timed(due: int) | Queued | Attempting(cancelled: bool)

  /** early marks a job that was there at the last handled failure, or that a tick made
      which had read the repository before it. */
  datatype Job = Job(requested: bool, early: bool, at: Where)

  /** A scheduler tick: what it has read of the repository, then what it has decided. */
  datatype Tick = Reading(opens: Option<int>, stale: bool) | Decided(goes: bool, stale: bool)

  datatype Repo = Repo(
    now: int,
    failures: nat,
    nextRetry: Option<int>,
    dueAt: Option<int>,        // the interval since the last clone is over then; None before the first
    jobs: map<nat, Job>,       // every job that is waiting or attempting, cancelled ones only while attempting
    tick: Option<Tick>,
    floor: Option<int>)        // the earliest time the last handled failure allows

  datatype Step =
    | Wait(later: nat)
    | Request(j: nat)                          // by hand or by an incoming webhook
    | TickReads                                // the tick loads the repositories,
    | TickDecides                              // then the busy set and the clock,
    | TickSchedules(j: nat)                    // and then creates the job
    | TickPasses
    | TimerFires(j: nat)
    | Start(j: nat)
    | Defer(j: nat)                            // the path is locked by another attempt
    | Fails(j: nat, jitter: nat, retry: nat)   // failJob and handleFailure
    | FailsUnhandled(j: nat)                   // failJob alone
    | Succeeds(j: nat, next: int)
    | Cancel(j: nat)

  const DEFER_DELAY: int := 5 * SECOND as int

  predicate Unfinished(j: Job) {
    j.at != Attempting(true)
  }

  predicate Busy(r: Repo) {
    exists j :: j in r.jobs && Unfinished(r.jobs[j])
  }

  predicate PathLocked(r: Repo) {
    exists j :: j in r.jobs && r.jobs[j].at.Attempting?
  }

  function Later(a: Option<int>, b: Option<int>): Option<int> {
    if a.None? then b else if b.None? || a.value >= b.value then a else b
  }

  predicate Passes(opens: Option<int>, now: int) {
    opens.None? || now >= opens.value
  }

  predicate Waiting(r: Repo, j: nat) {
    j in r.jobs && r.jobs[j].at.Queued?
  }

  predicate Attempts(r: Repo, j: nat) {
    j in r.jobs && r.jobs[j].at.Attempting?
  }

  predicate Guard(r: Repo, step: Step, cfg: int64) {
    match step
    case Wait(_) => true
    case Request(j) => j !in r.jobs
    case TickReads => r.tick.None?
    case TickDecides => r.tick.Some? && r.tick.value.Reading?
    case TickSchedules(j) => r.tick.Some? && r.tick.value.Decided? && r.tick.value.goes && j !in r.jobs
    case TickPasses => r.tick.Some? && r.tick.value.Decided?
    case TimerFires(j) => j in r.jobs && r.jobs[j].at.Timed? && r.now >= r.jobs[j].at.due
    case Start(j) => Waiting(r, j) && !PathLocked(r)
    case Defer(j) => Waiting(r, j) && PathLocked(r)
    case Fails(j, jitter, retry) => Attempts(r, j) && jitter <= Promised(cfg, r.failures) / 2 && retry !in r.jobs
    case FailsUnhandled(j) => Waiting(r, j) || Attempts(r, j)
    case Succeeds(j, _) => Attempts(r, j)
    case Cancel(j) => j in r.jobs && Unfinished(r.jobs[j])
  }

  function Marked(jobs: map<nat, Job>): map<nat, Job> {
    map j | j in jobs :: jobs[j].(early := true)
  }

  function MarkedTick(tick: Option<Tick>): Option<Tick> {
    if tick.Some? then Some(tick.value.(stale := true)) else None
  }

  function Put(r: Repo, j: nat, at: Where): Repo
    requires j in r.jobs
  {
    r.(jobs := r.jobs[j := r.jobs[j].(at := at)])
  }

  function Failed(r: Repo, j: nat, due: int, retry: nat, budget: int, cfg: int64): Repo {
    var others := Marked(r.jobs - {j});
    Repo(r.now, r.failures + 1, Some(due), r.dueAt,
         if r.failures >= budget then others else others[retry := Job(false, false, Timed(due))],
         MarkedTick(r.tick), Some(r.now + Promised(cfg, r.failures)))
  }

  function Do(r: Repo, step: Step, cfg: int64, budget: int): Repo
    requires Guard(r, step, cfg)
  {
    match step
    case Wait(later) => r.(now := r.now + later)
    case Request(j) => r.(jobs := r.jobs[j := Job(true, false, Queued)])
    case TickReads => r.(tick := Some(Reading(Later(r.nextRetry, r.dueAt), false)))
    case TickDecides => r.(tick := Some(Decided(!Busy(r) && Passes(r.tick.value.opens, r.now), r.tick.value.stale)))
    case TickSchedules(j) => r.(jobs := r.jobs[j := Job(false, r.tick.value.stale, Queued)], tick := None)
    case TickPasses => r.(tick := None)
    case TimerFires(j) => Put(r, j, Queued)
    case Start(j) => Put(r, j, Attempting(false))
    case Defer(j) => Put(r, j, Timed(r.now + DEFER_DELAY))
    case Fails(j, jitter, retry) => Failed(r, j, r.now + Promised(cfg, r.failures) + jitter, retry, budget, cfg)
    case FailsUnhandled(j) => r.(jobs := r.jobs - {j})
    case Succeeds(j, next) => r.(failures := 0, nextRetry := None, dueAt := Some(next), jobs := r.jobs - {j},
        floor := None)
    case Cancel(j) => if r.jobs[j].at.Attempting? then Put(r, j, Attempting(true)) else r.(jobs := r.jobs - {j})
  }

  ghost predicate Run(r: Repo, steps: seq<Step>, t: Repo, cfg: int64, budget: int)
    decreases |steps|
  {
    if steps == [] then r == t
    else Guard(r, steps[0], cfg) && Run(Do(r, steps[0], cfg, budget), steps[1..], t, cfg, budget)
  }

  /** A starting process: whatever an earlier one recorded, and the rows it recovered. */
  ghost predicate Starts(r: Repo) {
    r.tick.None? && r.floor.None? && forall j :: j in r.jobs ==> r.jobs[j].at.Queued?
  }

  ghost predicate Reachable(r: Repo, cfg: int64, budget: int) {
    exists r0, steps :: Starts(r0) && Run(r0, steps, r, cfg, budget)
  }

  // -------------------------------------------------------------------- what holds

  predicate JobOk(j: Job, now: int, floor: int) {
    !j.requested && !j.early ==> (j.at.Timed? ==> j.at.due >= floor) && (j.at.Queued? ==> now >= floor)
  }

  predicate TickOk(t: Tick, now: int, floor: int) {
    !t.stale ==> if t.Reading? then t.opens.Some? && t.opens.value >= floor else t.goes ==> now >= floor
  }

  ghost predicate FloorInv(r: Repo) {
    r.floor.Some? ==>
      && r.nextRetry.Some? && r.nextRetry.value >= r.floor.value
      && (forall j :: j in r.jobs ==> JobOk(r.jobs[j], r.now, r.floor.value))
      && (r.tick.Some? ==> TickOk(r.tick.value, r.now, r.floor.value))
  }

  // The path lock admits one attempt.
  ghost predicate OneAttempt(r: Repo) {
    forall j, k :: Attempts(r, j) && Attempts(r, k) ==> j == k
  }

  ghost predicate Inv(r: Repo) {
    FloorInv(r) && OneAttempt(r)
  }

  lemma StepKeepsFloor(r: Repo, step: Step, cfg: int64, budget: int)
    requires FloorInv(r) && Guard(r, step, cfg)
    ensures FloorInv(Do(r, step, cfg, budget))
  {
    hide Promised, Busy, PathLocked;
  }

  lemma StepKeepsOneAttempt(r: Repo, step: Step, cfg: int64, budget: int)
    requires OneAttempt(r) && Guard(r, step, cfg)
    ensures OneAttempt(Do(r, step, cfg, budget))
  {
    if step.Start? {
      assert forall k :: !Attempts(r, k);
    }
    hide Promised, Busy, Passes, PathLocked;
    forall k | Attempts(Do(r, step, cfg, budget), k) ensures Attempts(r, k) || step == Start(k) {}
  }

  lemma {:induction false} RunKeepsInv(r: Repo, steps: seq<Step>, t: Repo, cfg: int64, budget: int)
    requires Inv(r) && Run(r, steps, t, cfg, budget)
    ensures Inv(t)
    decreases |steps|
  {
    hide Guard, Do, FloorInv, OneAttempt;
    if steps != [] {
      StepKeepsFloor(r, steps[0], cfg, budget);
      StepKeepsOneAttempt(r, steps[0], cfg, budget);
      RunKeepsInv(Do(r, steps[0], cfg, budget), steps[1..], t, cfg, budget);
    }
  }

  lemma ReachableInv(r: Repo, cfg: int64, budget: int)
    requires Reachable(r, cfg, budget)
    ensures Inv(r)
  {
    var r0, steps :| Starts(r0) && Run(r0, steps, r, cfg, budget);
    RunKeepsInv(r0, steps, r, cfg, budget);
  }

  /** Over any run, an attempt that was not asked for starts no earlier than the last
      handled failure's time plus its backoff, unless its job was there already at that
      failure or comes from a tick that had read the repository before it. */
  lemma NextAttemptWaits(r: Repo, j: nat, cfg: int64, budget: int)
    requires Reachable(r, cfg, budget) && Guard(r, Start(j), cfg) && !r.jobs[j].requested && r.floor.Some?
    ensures r.now < r.floor.value ==> r.jobs[j].early
  {
    ReachableInv(r, cfg, budget);
    assert JobOk(r.jobs[j], r.now, r.floor.value);
  }

  predicate Makes(step: Step, j: nat) {
    step == Request(j) || step == TickSchedules(j) || (step.Fails? && step.retry == j)
  }

  lemma {:induction false} StillDeferred(r: Repo, steps: seq<Step>, t: Repo, j: nat, due: int, cfg: int64, budget: int)
    requires j in r.jobs ==> r.jobs[j].at == Timed(due) || r.now >= due
    requires Run(r, steps, t, cfg, budget) && forall s :: s in steps ==> !Makes(s, j)
    ensures j in t.jobs ==> t.jobs[j].at == Timed(due) || t.now >= due
    decreases |steps|
  {
    hide Promised, Busy, PathLocked;
    if steps != [] {
      assert steps[0] in steps && forall s :: s in steps[1..] ==> s in steps;
      StillDeferred(Do(r, steps[0], cfg, budget), steps[1..], t, j, due, cfg, budget);
    }
  }

  /** A job that finds its path locked tries again after five seconds at the earliest,
      whatever else happens. */
  lemma DeferredJobWaits(r: Repo, j: nat, steps: seq<Step>, t: Repo, cfg: int64, budget: int)
    requires Guard(r, Defer(j), cfg) && Run(Do(r, Defer(j), cfg, budget), steps, t, cfg, budget)
    requires (forall s :: s in steps ==> !Makes(s, j)) && Guard(t, Start(j), cfg)
    ensures t.now >= r.now + 5_000_000_000
  {
    StillDeferred(Do(r, Defer(j), cfg, budget), steps, t, j, r.now + DEFER_DELAY, cfg, budget);
    hide Run;
  }

  /** And after those five seconds it is back in the line. */
  lemma DeferredJobReturns(r: Repo, j: nat, cfg: int64, budget: int) returns (t: Repo)
    requires Guard(r, Defer(j), cfg)
    ensures Run(r, [Defer(j), Wait(5_000_000_000), TimerFires(j)], t, cfg, budget)
    ensures t.now == r.now + 5_000_000_000 && j in t.jobs && t.jobs[j] == r.jobs[j].(at := Queued)
  {
    var m := Do(r, Defer(j), cfg, budget);
    var n := Do(m, Wait(5_000_000_000), cfg, budget);
    t := Do(n, TimerFires(j), cfg, budget);
    hide PathLocked, Busy, Promised;
    assert Guard(n, TimerFires(j), cfg);
    RunThree(r, Defer(j), Wait(5_000_000_000), TimerFires(j), cfg, budget);
  }

  lemma RunThree(r: Repo, a: Step, b: Step, c: Step, cfg: int64, budget: int)
    requires Guard(r, a, cfg) && Guard(Do(r, a, cfg, budget), b, cfg)
    requires Guard(Do(Do(r, a, cfg, budget), b, cfg, budget), c, cfg)
    ensures Run(r, [a, b, c], Do(Do(Do(r, a, cfg, budget), b, cfg, budget), c, cfg, budget), cfg, budget)
  {
    var m := Do(r, a, cfg, budget);
    var n := Do(m, b, cfg, budget);
    OneStep(n, c, cfg, budget);
    hide Guard, Do;
    assert [b, c][1..] == [c] && [a, b, c][1..] == [b, c];
    assert Run(m, [b, c], Do(n, c, cfg, budget), cfg, budget);
  }

  /** An attempt that is asked for does not wait for any backoff. */
  lemma RequestsDoNotWait(r: Repo, j: nat, cfg: int64, budget: int) returns (t: Repo)
    requires j !in r.jobs && !PathLocked(r)
    ensures Run(r, [Request(j)], t, cfg, budget) && Guard(t, Start(j), cfg) && t.now == r.now
    ensures t.jobs == r.jobs[j := Job(true, false, Queued)] && t.nextRetry == r.nextRetry && t.floor == r.floor
  {
    t := Do(r, Request(j), cfg, budget);
    OneStep(r, Request(j), cfg, budget);
    assert !PathLocked(t) by {
      forall k | k in t.jobs ensures !t.jobs[k].at.Attempting? {
        assert k == j || (k in r.jobs && t.jobs[k] == r.jobs[k]);
      }
    }
    hide Run, PathLocked;
  }

  /** A handled failure with any delay RetryDelay can return: one failure more, the scheduler's
      gate at the delay's end, and a retry row with its timer for that moment while the budget
      lasts. */
  lemma FailureSchedules(r: Repo, j: nat, delay: int, retry: nat, cfg: int64, budget: int) returns (t: Repo)
    requires Attempts(r, j) && retry !in r.jobs
    requires var promised := Promised(cfg, r.failures); promised <= delay <= promised + promised / 2
    ensures Run(r, [Fails(j, delay - Promised(cfg, r.failures), retry)], t, cfg, budget)
    ensures t.failures == r.failures + 1 && t.nextRetry == Some(r.now + delay) && t.now == r.now && t.dueAt == r.dueAt
    ensures forall k :: k in t.jobs <==> (k in r.jobs && k != j) || (k == retry && r.failures < budget)
    ensures r.failures < budget ==> t.jobs[retry] == Job(false, false, Timed(r.now + delay))
    ensures forall k :: k in r.jobs && k != j ==> t.jobs[k] == r.jobs[k].(early := true)
  {
    var step := Fails(j, delay - Promised(cfg, r.failures), retry);
    hide Promised;
    t := Do(r, step, cfg, budget);
    OneStep(r, step, cfg, budget);
    hide Run;
  }

  /** A success forgets the failures, and a failure before git ran or one whose repository is gone
      leaves everything but its job. */
  lemma OtherEnds(r: Repo, j: nat, next: int, cfg: int64, budget: int)
    ensures Attempts(r, j) ==>
              Run(r, [Succeeds(j, next)],
                  r.(failures := 0, nextRetry := None, dueAt := Some(next), jobs := r.jobs - {j}, floor := None), cfg,
                  budget)
    ensures Waiting(r, j) || Attempts(r, j) ==>
              Run(r, [FailsUnhandled(j)], r.(jobs := r.jobs - {j}), cfg, budget)
  {
    if Attempts(r, j) {
      OneStep(r, Succeeds(j, next), cfg, budget);
    }
    if Waiting(r, j) || Attempts(r, j) {
      OneStep(r, FailsUnhandled(j), cfg, budget);
    }
    hide Run;
  }

  // ------------------------------------------------------------ the exact condition

  // Up to the next handled verdict.
  ghost predicate Undisturbed(steps: seq<Step>) {
    forall i :: 0 <= i < |steps| ==> !steps[i].Fails? && !steps[i].Succeeds?
  }

  /** A tick half-way at the failure lets nothing through before the floor. */
  predicate HarmlessTick(tick: Option<Tick>, floor: int) {
    tick.None? || if tick.value.Reading? then tick.value.opens.Some?
        && tick.value.opens.value >= floor else !tick.value.goes
  }

  /** No other job of the repository is waiting that could start before the floor, other
      than by request. */
  predicate NoneEarly(jobs: map<nat, Job>, floor: int) {
    forall j :: j in jobs && !jobs[j].requested ==>
        !jobs[j].at.Queued? && (jobs[j].at.Timed? ==> jobs[j].at.due >= floor)
  }

  // Every later start that was not asked for, up to the next verdict, keeps the gap.
  ghost predicate KeepsGap(failed: Repo, floor: int, cfg: int64, budget: int) {
    forall after, t, j ::
      Run(failed, after, t, cfg, budget) && Undisturbed(after) && Guard(t, Start(j), cfg) && !t.jobs[j].requested
      ==> t.now >= floor
  }

  ghost predicate Held(r: Repo, floor: int) {
    && r.nextRetry.Some? && r.nextRetry.value >= floor
    && (forall j :: j in r.jobs ==> JobOk(r.jobs[j].(early := false), r.now, floor))
    && (r.tick.Some? ==> TickOk(r.tick.value.(stale := false), r.now, floor))
  }

  lemma StepHolds(r: Repo, step: Step, floor: int, cfg: int64, budget: int)
    requires Held(r, floor) && Guard(r, step, cfg) && !step.Fails? && !step.Succeeds?
    ensures Held(Do(r, step, cfg, budget), floor)
  {
    hide Busy, PathLocked;
  }

  lemma {:induction false} RunHolds(r: Repo, steps: seq<Step>, t: Repo, floor: int, cfg: int64, budget: int)
    requires Held(r, floor) && Run(r, steps, t, cfg, budget) && Undisturbed(steps)
    ensures Held(t, floor)
    decreases |steps|
  {
    hide Guard, Do, Held;
    if steps != [] {
      assert !steps[0].Fails? && !steps[0].Succeeds?;
      StepHolds(r, steps[0], floor, cfg, budget);
      assert Undisturbed(steps[1..]);
      RunHolds(Do(r, steps[0], cfg, budget), steps[1..], t, floor, cfg, budget);
    }
  }

  lemma FailureHolds(r: Repo, j: nat, jitter: nat, retry: nat, cfg: int64, budget: int)
    requires Guard(r, Fails(j, jitter, retry), cfg)
    requires HarmlessTick(r.tick, r.now + Promised(cfg, r.failures))
    requires NoneEarly(r.jobs - {j}, r.now + Promised(cfg, r.failures))
    ensures Held(Do(r, Fails(j, jitter, retry), cfg, budget), r.now + Promised(cfg, r.failures))
  {
    hide Promised;
  }

  lemma {:induction false} RunConcat(r: Repo, xs: seq<Step>, m: Repo, ys: seq<Step>, t: Repo, cfg: int64, budget: int)
    requires Run(r, xs, m, cfg, budget) && Run(m, ys, t, cfg, budget)
    ensures Run(r, xs + ys, t, cfg, budget)
    decreases |xs|
  {
    hide Guard, Do;
    if xs == [] {
      assert xs + ys == ys;
    } else {
      RunConcat(Do(r, xs[0], cfg, budget), xs[1..], m, ys, t, cfg, budget);
      assert (xs + ys)[1..] == xs[1..] + ys;
    }
  }

  lemma OneStep(r: Repo, step: Step, cfg: int64, budget: int)
    requires Guard(r, step, cfg)
    ensures Run(r, [step], Do(r, step, cfg, budget), cfg, budget)
  {
    var t := Do(r, step, cfg, budget);
    hide Guard, Do;
    assert [step][1..] == [];
    assert Run(t, [], t, cfg, budget);
  }

  // A user may cancel everything that waits.
  lemma {:induction false} CancelAll(r: Repo, cfg: int64, budget: int) returns (steps: seq<Step>)
    requires !PathLocked(r)
    ensures Run(r, steps, r.(jobs := map[]), cfg, budget) && Undisturbed(steps)
    decreases |r.jobs|
  {
    if r.jobs == map[] {
      steps := [];
    } else {
      var j :| j in r.jobs;
      assert Unfinished(r.jobs[j]);
      var r' := Do(r, Cancel(j), cfg, budget);
      assert r' == r.(jobs := r.jobs - {j});
      var rest := CancelAll(r', cfg, budget);
      OneStep(r, Cancel(j), cfg, budget);
      RunConcat(r, [Cancel(j)], r', rest, r.(jobs := map[]), cfg, budget);
      steps := [Cancel(j)] + rest;
    }
  }

  // A waiting job starts as soon as its timer, if it has one, has fired.
  lemma EarlyJobStarts(r: Repo, j: nat, floor: int, cfg: int64, budget: int) returns (after: seq<Step>, t: Repo)
    requires !PathLocked(r) && r.now < floor && j in r.jobs && !r.jobs[j].requested
    requires r.jobs[j].at.Queued? || (r.jobs[j].at.Timed? && r.jobs[j].at.due < floor)
    ensures Run(r, after, t, cfg, budget) && Undisturbed(after) && Guard(t, Start(j), cfg) && !t.jobs[j].requested
              && t.now < floor
  {
    if r.jobs[j].at.Queued? {
      after, t := [], r;
    } else {
      var later := if r.jobs[j].at.due > r.now then r.jobs[j].at.due - r.now else 0;
      var m := Do(r, Wait(later), cfg, budget);
      t := Do(m, TimerFires(j), cfg, budget);
      OneStep(r, Wait(later), cfg, budget);
      OneStep(m, TimerFires(j), cfg, budget);
      RunConcat(r, [Wait(later)], m, [TimerFires(j)], t, cfg, budget);
      after := [Wait(later)] + [TimerFires(j)];
      hide Run;
      assert !PathLocked(t);
    }
  }

  // A harmful tick waits for its own gate, if any, and schedules.
  lemma TickGoes(r: Repo, floor: int, cfg: int64, budget: int) returns (after: seq<Step>, t: Repo)
    requires r.jobs == map[] && r.now < floor && !HarmlessTick(r.tick, floor)
    ensures Run(r, after, t, cfg, budget) && Undisturbed(after) && Guard(t, Start(0), cfg) && !t.jobs[0].requested
              && t.now < floor
  {
    var m, before := r, [];
    if r.tick.value.Reading? {
      var later := if r.tick.value.opens.Some?
          && r.tick.value.opens.value > r.now then r.tick.value.opens.value - r.now else 0;
      var w := Do(r, Wait(later), cfg, budget);
      m := Do(w, TickDecides, cfg, budget);
      OneStep(r, Wait(later), cfg, budget);
      OneStep(w, TickDecides, cfg, budget);
      before := [Wait(later)] + [TickDecides];
      RunConcat(r, [Wait(later)], w, [TickDecides], m, cfg, budget);
    } else {
      assert Run(r, [], r, cfg, budget);
    }
    t := Do(m, TickSchedules(0), cfg, budget);
    OneStep(m, TickSchedules(0), cfg, budget);
    RunConcat(r, before, m, [TickSchedules(0)], t, cfg, budget);
    after := before + [TickSchedules(0)];
  }

  lemma HarmfulTickStarts(r: Repo, floor: int, cfg: int64, budget: int) returns (after: seq<Step>, t: Repo)
    requires !PathLocked(r) && r.now < floor && !HarmlessTick(r.tick, floor)
    ensures Run(r, after, t, cfg, budget) && Undisturbed(after) && Guard(t, Start(0), cfg) && !t.jobs[0].requested
              && t.now < floor
  {
    var cancels := CancelAll(r, cfg, budget);
    var m := r.(jobs := map[]);
    var rest;
    rest, t := TickGoes(m, floor, cfg, budget);
    RunConcat(r, cancels, m, rest, t, cfg, budget);
    after := cancels + rest;
  }

  lemma FailureUnlocks(r: Repo, j: nat, jitter: nat, retry: nat, cfg: int64, budget: int)
    requires OneAttempt(r) && Guard(r, Fails(j, jitter, retry), cfg)
    ensures !PathLocked(Do(r, Fails(j, jitter, retry), cfg, budget))
  {
    assert forall k :: k in r.jobs - {j} ==> !Attempts(r, k);
    hide Promised;
  }

  /** Exactly: after a handled failure every run keeps the gap min(base * 2^n, 1 h) if and
      only if no tick was half-way at that moment with a reading that opens before the gap
      is over, and no other job of the repository was waiting, other than by request, that
      could start before then. */
  lemma GapHoldsExactly(r: Repo, j: nat, jitter: nat, retry: nat, cfg: int64, budget: int)
    requires Reachable(r, cfg, budget) && Guard(r, Fails(j, jitter, retry), cfg)
    ensures var floor := r.now + Promised(cfg, r.failures);
            KeepsGap(Do(r, Fails(j, jitter, retry), cfg, budget), floor, cfg, budget)
            <==> HarmlessTick(r.tick, floor) && NoneEarly(r.jobs - {j}, floor)
  {
    ReachableInv(r, cfg, budget);
    var floor, failed := r.now + Promised(cfg, r.failures), Do(r, Fails(j, jitter, retry), cfg, budget);
    PromisedIsPositive(cfg, r.failures);
    FailureUnlocks(r, j, jitter, retry, cfg, budget);
    if HarmlessTick(r.tick, floor) && NoneEarly(r.jobs - {j}, floor) {
      FailureHolds(r, j, jitter, retry, cfg, budget);
      HeldKeepsGap(failed, floor, cfg, budget);
    } else if !HarmlessTick(r.tick, floor) {
      assert !HarmlessTick(failed.tick, floor);
      hide Run, Do, Promised, HarmlessTick;
      var after, t := HarmfulTickStarts(failed, floor, cfg, budget);
    } else {
      var k :| k in r.jobs - {j} && !r.jobs[k].requested
          && (r.jobs[k].at.Queued? || (r.jobs[k].at.Timed? && r.jobs[k].at.due < floor));
      assert k in failed.jobs && failed.jobs[k] == r.jobs[k].(early := true) && failed.now == r.now;
      hide Run, Do, Promised;
      var after, t := EarlyJobStarts(failed, k, floor, cfg, budget);
    }
  }

  lemma HeldKeepsGap(failed: Repo, floor: int, cfg: int64, budget: int)
    requires Held(failed, floor)
    ensures KeepsGap(failed, floor, cfg, budget)
  {
    forall after, t, j |
      Run(failed, after, t, cfg, budget) && Undisturbed(after) && Guard(t, Start(j), cfg) && !t.jobs[j].requested
      ensures t.now >= floor
    {
      RunHolds(failed, after, t, floor, cfg, budget);
      assert JobOk(t.jobs[j].(early := false), t.now, floor);
    }
  }

  /** Stated on times: a failure at f after n earlier ones, with no scheduler tick half-way
      and nothing else of the repository waiting; the next attempt not asked for is at f plus
      min(base * 2^n, 1 h) or later, whether the retry's timer or the scheduler starts it. */
  lemma GapAfterFailure(r: Repo, j: nat, jitter: nat, retry: nat, after: seq<Step>, t: Repo, k: nat, cfg: int64,
                        budget: int)
    requires Reachable(r, cfg, budget) && Guard(r, Fails(j, jitter, retry), cfg) && r.tick.None? && r.jobs.Keys == {j}
    requires Run(Do(r, Fails(j, jitter, retry), cfg, budget), after, t, cfg, budget) && Undisturbed(after)
    requires Guard(t, Start(k), cfg) && !t.jobs[k].requested
    ensures t.now >= r.now + Promised(cfg, r.failures)
  {
    GapHoldsExactly(r, j, jitter, retry, cfg, budget);
    hide Run, Do;
  }

  /** A tick half-way at the failure, whose gate is open, is held back exactly by an
      unfinished job: the retry row while the in-process budget lasts, or another one. */
  lemma BudgetBlocksStaleTick(r: Repo, j: nat, jitter: nat, retry: nat, cfg: int64, budget: int)
    requires Guard(r, Fails(j, jitter, retry), cfg) && r.tick.Some? && r.tick.value.Reading?
    ensures var failed := Do(r, Fails(j, jitter, retry), cfg, budget);
            Do(failed, TickDecides, cfg, budget).tick.value.goes <==>
              && r.failures >= budget && Passes(r.tick.value.opens, r.now)
              && forall k :: k in r.jobs && k != j ==> !Unfinished(r.jobs[k])
  {
    var failed := Do(r, Fails(j, jitter, retry), cfg, budget);
    if r.failures >= budget {
      if k :| k in r.jobs && k != j && Unfinished(r.jobs[k]) {
        assert k in failed.jobs && Unfinished(failed.jobs[k]);
      }
    } else {
      assert retry in failed.jobs && Unfinished(failed.jobs[retry]);
    }
  }

  // --------------------------------------------------------- the two ways it fails

  // A repository that has failed so often, its last backoff over.
  function NewRepo(failures: nat, jobs: map<nat, Job>, tick: Option<Tick>): Repo {
    Repo(0, failures, if failures == 0 then None else Some(0), None, jobs, tick, None)
  }

  ghost predicate BreaksGap(r: Repo, j: nat, cfg: int64) {
    r.floor.Some? && r.now < r.floor.value && Guard(r, Start(j), cfg) && !r.jobs[j].requested
  }

  lemma ReachableStep(r: Repo, step: Step, cfg: int64, budget: int)
    requires Reachable(r, cfg, budget) && Guard(r, step, cfg)
    ensures Reachable(Do(r, step, cfg, budget), cfg, budget)
  {
    var r0, steps :| Starts(r0) && Run(r0, steps, r, cfg, budget);
    OneStep(r, step, cfg, budget);
    RunConcat(r0, steps, r, [step], Do(r, step, cfg, budget), cfg, budget);
    hide Starts, Guard, Do;
  }

  // A job asked for by hand, under way.
  lemma FirstAttempt(failures: nat, cfg: int64, budget: int)
    ensures Reachable(NewRepo(failures, map[1 := Job(true, false, Attempting(false))], None), cfg, budget)
  {
    var r := NewRepo(failures, map[1 := Job(true, false, Queued)], None);
    assert Run(r, [], r, cfg, budget) && Starts(r);
    assert Reachable(r, cfg, budget);
    hide Reachable, Run;
    assert Do(r, Start(1), cfg, budget) == NewRepo(failures, map[1 := Job(true, false, Attempting(false))], None);
    ReachableStep(r, Start(1), cfg, budget);
  }

  /** A tick that reads the repository before a failure and the busy set after it, once the
      budget is spent, starts the next attempt at once; whatever the budget. */
  lemma StaleTickBreaksTheGap(failures: nat, cfg: int64, budget: int)
    requires failures >= budget
    ensures exists r :: Reachable(r, cfg, budget) && r.failures == failures + 1 && r.tick.None? && BreaksGap(r, 2, cfg)
  {
    FirstAttempt(failures, cfg, budget);
    hide Reachable;
    var r2 := NewRepo(failures, map[1 := Job(true, false, Attempting(false))], None);
    ReachableStep(r2, TickReads, cfg, budget);
    var r := TickAfterFailure(Do(r2, TickReads, cfg, budget), failures, cfg, budget);
  }

  lemma TickAfterFailure(r3: Repo, failures: nat, cfg: int64, budget: int) returns (r: Repo)
    requires Reachable(r3, cfg, budget) && failures >= budget
    requires var opens := if failures == 0 then None else Some(0);
             r3 == NewRepo(failures, map[1 := Job(true, false, Attempting(false))], Some(Reading(opens, false)))
    ensures Reachable(r, cfg, budget) && r.failures == failures + 1 && r.tick.None? && BreaksGap(r, 2, cfg)
  {
    PromisedIsPositive(cfg, failures);
    hide Promised, Reachable;
    var r4 := Do(r3, Fails(1, 0, 9), cfg, budget);
    assert r4.jobs == map[] && r4.tick.value.stale;
    ReachableStep(r3, Fails(1, 0, 9), cfg, budget);
    ReachableStep(r4, TickDecides, cfg, budget);
    var r5 := Do(r4, TickDecides, cfg, budget);
    assert r5.tick == Some(Decided(true, true));
    ReachableStep(r5, TickSchedules(2), cfg, budget);
    r := Do(r5, TickSchedules(2), cfg, budget);
  }

  /** And with no tick half-way: a running attempt is cancelled, git goes on, the next tick
      finds the repository idle and makes a second job; the attempt fails, and the second job
      starts at once, because processJob never looks at next_retry_at. */
  lemma SecondJobBreaksTheGap(cfg: int64, budget: int)
    ensures exists r :: Reachable(r, cfg, budget) && r.tick.None? && r.failures == 1 && BreaksGap(r, 2, cfg)
  {
    FirstAttempt(0, cfg, budget);
    hide Reachable;
    var r2 := NewRepo(0, map[1 := Job(true, false, Attempting(false))], None);
    var r3 := NewRepo(0, map[1 := Job(true, false, Attempting(true))], None);
    assert Do(r2, Cancel(1), cfg, budget) == r3;
    ReachableStep(r2, Cancel(1), cfg, budget);
    TickBesideAttempt(r3, cfg, budget);
    var r := FailureBesideJob(r3.(jobs := r3.jobs[2 := Job(false, false, Queued)]), cfg, budget);
  }

  lemma TickBesideAttempt(r3: Repo, cfg: int64, budget: int)
    requires Reachable(r3, cfg, budget) && r3 == NewRepo(0, map[1 := Job(true, false, Attempting(true))], None)
    ensures Reachable(r3.(jobs := r3.jobs[2 := Job(false, false, Queued)]), cfg, budget)
  {
    hide Reachable;
    var r4 := Do(r3, TickReads, cfg, budget);
    ReachableStep(r3, TickReads, cfg, budget);
    var r5 := Do(r4, TickDecides, cfg, budget);
    ReachableStep(r4, TickDecides, cfg, budget);
    assert r5.tick == Some(Decided(true, false));
    ReachableStep(r5, TickSchedules(2), cfg, budget);
    assert Do(r5, TickSchedules(2), cfg, budget) == r3.(jobs := r3.jobs[2 := Job(false, false, Queued)]);
  }

  lemma FailureBesideJob(r6: Repo, cfg: int64, budget: int) returns (r: Repo)
    requires Reachable(r6, cfg, budget)
    requires r6 == NewRepo(0, map[1 := Job(true, false, Attempting(true)), 2 := Job(false, false, Queued)], None)
    ensures Reachable(r, cfg, budget) && r.tick.None? && r.failures == 1 && BreaksGap(r, 2, cfg)
  {
    PromisedIsPositive(cfg, 0);
    hide Promised, Reachable;
    r := Do(r6, Fails(1, 0, 9), cfg, budget);
    ReachableStep(r6, Fails(1, 0, 9), cfg, budget);
    assert 2 in r6.jobs - {1} && r.jobs[2] == Job(false, true, Queued);
    assert forall k :: k in r.jobs ==> k == 2 || k == 9;
  }
}
