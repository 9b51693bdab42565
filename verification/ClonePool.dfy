/** The clone worker pool (internal/gitops/worker.go) as a transition system: the
    Enqueue callers, the dispatch line, a fixed set of workers running processJob,
    the deferral and retry timers, the cancel endpoint and the two-phase Stop, each
    taking one atomic step at a time in any order.
  */
module ClonePool {
  import opened Wrappers
  import opened DispatchLine

  datatype Status = Pending | Running | Success | Failed | Cancelled

  type Rows = map<Job, Status>

  /** Where one worker goroutine is.  From Started to Leaving it is inside
      processJob; from Locked to Wrapping it holds its path's lock. */
  datatype Worker =
    | Idle
    | Received(job: Job)
    | Started(job: Job)
    | Contended(job: Job)     // TryLock refused
    | Locked(job: Job)
    | Git(job: Job)           // row marked running, clone or fetch under way
    | Failing(job: Job)       // git failed while the worker context was alive
    | Interrupted(job: Job)   // git failed and the worker context was cancelled
    | Wrapping(path: string)  // row settled, path still locked
    | Leaving
    | Exited

  datatype Shutdown = Shutdown(soft: bool, stopping: bool, drained: bool, cancelled: bool, returned: bool)

  datatype State = State(
    rows: Rows,
    callers: multiset<Job>,    // row persisted, Enqueue not yet called
    line: Line,
    workers: seq<Worker>,
    locks: map<string, nat>,   // the per-path locks and the workers holding them
    inflight: int,
    timers: multiset<Job>,     // enqueueAfter goroutines, by the job they will enqueue
    done: multiset<Job>,       // settled by a worker
    left: multiset<Job>,       // let go at shutdown for the next start
    pinned: multiset<Job>,     // rows a crashed process left running and the start-up pass took for live
    stop: Shutdown)

  predicate Waits(st: Status) { st.Pending? || st.Cancelled? }
  predicate Active(st: Status) { st.Running? || st.Cancelled? }
  predicate Final(st: Status) { st.Success? || st.Failed? || st.Cancelled? }

  /** No row of an earlier process is still marked running. */
  ghost predicate Resumable(rows: Rows) {
    forall j :: j in rows ==> rows[j].Pending? || Final(rows[j])
  }

  /** A starting process, whatever rows it finds: pending ones are about to be enqueued by
      the start-up pass, final ones are settled, and running ones belong to nobody. */
  function Initial(workers: nat, rows: Rows): State {
    State(rows, multiset(set j | j in rows && rows[j].Pending?), EMPTY_LINE, seq(workers, _ => Idle), map[], 0,
        multiset{},
          multiset(set j | j in rows && Final(rows[j])), multiset{}, multiset(set j | j in rows && rows[j].Running?),
          Shutdown(false, false, false, false, false))
  }

  datatype WorkStep =
    | Take                       // receive from the channel
    | Quit                       // see softStop or the cancelled context
    | Admit
    | TryPath
    | Defer                      // a contended job goes back to pending, or is dropped if cancelled
    | MarkRunning
    | Reject                     // failJob before any git operation
    | GitSucceeds
    | GitFails
    | Requeue                    // interrupted by shutdown
    | Fail(retry: Option<Job>)   // failJob, then handleFailure with or without a retry row
    | Unlock
    | Finish

  datatype StopStep = CloseSoftStop | SetStopping | Drain | CancelContext | Return

  datatype Step =
    | Create(j: Job)             // a caller persists a pending row
    | Enqueue(j: Job)            // and appends it to the backlog
    | SignalDispatcher
    | Cancel(j: Job)
    | Dispatch(d: LineStep)
    | Work(i: nat, w: WorkStep)
    | Fire(j: Job)
    | TimerQuit(j: Job)
    | Stopping(p: StopStep)

  predicate HasJob(w: Worker) {
    !(w.Idle? || w.Wrapping? || w.Leaving? || w.Exited?)
  }

  predicate Busy(w: Worker) {
    !(w.Idle? || w.Received? || w.Exited?)
  }

  function PathHeld(w: Worker): Option<string> {
    match w
    case Locked(j) => Some(j.path)
    case Git(j) => Some(j.path)
    case Failing(j) => Some(j.path)
    case Interrupted(j) => Some(j.path)
    case Wrapping(path) => Some(path)
    case _ => None
  }

  predicate CanWork(s: State, w: Worker, step: WorkStep) {
    && (HasJob(w) ==> w.job in s.rows)
    && match step
       case Take => w.Idle? && s.line.chan != []
       case Quit => w.Idle? && (s.stop.soft || s.stop.cancelled)
       case Admit => w.Received?
       case TryPath => w.Started?
       case Defer => w.Contended?
       case MarkRunning => w.Locked?
       case Reject => w.Started? || w.Git?
       case GitSucceeds => w.Git?
       case GitFails => w.Git?
       case Requeue => w.Interrupted?
       case Fail(retry) => w.Failing? && (retry.Some? ==> retry.value !in s.rows)
       case Unlock => w.Wrapping?
       case Finish => w.Leaving?
  }

  predicate CanStop(s: State, p: StopStep) {
    match p
    case CloseSoftStop => true
    case SetStopping => s.stop.soft
    case Drain => s.stop.stopping && s.inflight == 0
    case CancelContext => s.stop.stopping  // after the drain, or when the grace period is over
    case Return =>
      s.stop.cancelled && s.line.disp.Gone? && s.timers == multiset{} && forall i :: 0 <= i < |s.workers| ==>
          s.workers[i].Exited?
  }

  predicate Guard(s: State, step: Step) {
    match step
    case Create(j) => j !in s.rows
    case Enqueue(j) => j in s.callers
    case SignalDispatcher => s.line.signallers > 0
    case Cancel(j) => j in s.rows && (s.rows[j].Pending? || s.rows[j].Running?)
    case Dispatch(d) =>
      && (d.Scan? || d.Wake? || d.Send? || d.DispatchExit?) && CanStep(s.line, d)
      && (d.DispatchExit? ==> s.stop.soft || s.stop.cancelled)
    case Work(i, w) => i < |s.workers| && CanWork(s, s.workers[i], w)
    case Fire(j) => j in s.timers
    case TimerQuit(j) => j in s.timers && s.stop.cancelled
    case Stopping(p) => CanStop(s, p)
  }

  // Every status write of a worker is conditional on the row not being cancelled.
  function Write(rows: Rows, j: Job, st: Status): Rows
    requires j in rows
  {
    if rows[j].Cancelled? then rows else rows[j := st]
  }

  /** What becomes of the worker's job in one step, and of the row. */
  datatype Fate = Keep | Settle | Arm | Leave
  datatype Effect = Effect(next: Worker, fate: Fate, row: Option<Status>)

  function WorkEffect(s: State, w: Worker, step: WorkStep): Effect
    requires CanWork(s, w, step) && !step.Take?
  {
    match step
    case Quit => Effect(Exited, Keep, None)
    case Admit => if s.stop.stopping then Effect(Exited, Leave, None) else Effect(Started(w.job), Keep, None)
    case TryPath => Effect(if w.job.path in s.locks then Contended(w.job) else Locked(w.job), Keep, None)
    case Defer =>
      if s.rows[w.job].Cancelled? then Effect(Leaving, Settle, None) else Effect(Leaving, Arm, Some(Pending))
    case MarkRunning =>
      if s.rows[w.job].Cancelled? then Effect(Wrapping(w.job.path), Settle, None)
          else Effect(Git(w.job), Keep, Some(Running))
    case Reject => Effect(if w.Started? then Leaving else Wrapping(w.job.path), Settle, Some(Failed))
    case GitSucceeds => Effect(Wrapping(w.job.path), Settle, Some(Success))
    case GitFails => Effect(if s.stop.cancelled then Interrupted(w.job) else Failing(w.job), Keep, None)
    case Requeue =>
      if s.rows[w.job].Cancelled? then Effect(Wrapping(w.job.path), Settle, None)
      else Effect(Wrapping(w.job.path), Leave, Some(Pending))
    case Fail(_) => Effect(Wrapping(w.job.path), Settle, Some(Failed))
    case Unlock => Effect(Leaving, Keep, None)
    case Finish => Effect(Idle, Keep, None)
  }

  function WorkLocks(s: State, i: nat, step: WorkStep): map<string, nat>
    requires i < |s.workers| && CanWork(s, s.workers[i], step)
  {
    if step.TryPath? && s.workers[i].job.path !in s.locks then s.locks[s.workers[i].job.path := i]
    else if step.Unlock? then s.locks - {s.workers[i].path}
    else s.locks
  }

  function WorkInflight(s: State, step: WorkStep): int {
    if step.Admit? && !s.stop.stopping then s.inflight + 1
    else if step.Finish? then s.inflight - 1
    else s.inflight
  }

  function WorkRows(s: State, w: Worker, step: WorkStep): Rows
    requires CanWork(s, w, step) && !step.Take?
  {
    var e := WorkEffect(s, w, step);
    var rows := if e.row.Some? then Write(s.rows, w.job, e.row.value) else s.rows;
    if step.Fail? && step.retry.Some? then rows[step.retry.value := Pending] else rows
  }

  function DoWork(s: State, i: nat, step: WorkStep): State
    requires i < |s.workers| && CanWork(s, s.workers[i], step)
  {
    if step.Take? then
      s.(workers := s.workers[i := Received(s.line.chan[0])], line := Next(s.line, Receive))
    else
      var w := s.workers[i];
      var e := WorkEffect(s, w, step);
      s.(rows := WorkRows(s, w, step),
         workers := s.workers[i := e.next],
         locks := WorkLocks(s, i, step),
         inflight := WorkInflight(s, step),
         timers := if e.fate.Arm? then s.timers + multiset{w.job}
                   else if step.Fail? && step.retry.Some? then s.timers + multiset{step.retry.value} else s.timers,
         done := if e.fate.Settle? then s.done + multiset{w.job} else s.done,
         left := if e.fate.Leave? then s.left + multiset{w.job} else s.left)
  }

  function DoStop(stop: Shutdown, p: StopStep): Shutdown {
    match p
    case CloseSoftStop => stop.(soft := true)
    case SetStopping => stop.(stopping := true)
    case Drain => stop.(drained := true)
    case CancelContext => stop.(cancelled := true)
    case Return => stop.(returned := true)
  }

  function Do(s: State, step: Step): State
    requires Guard(s, step)
  {
    match step
    case Create(j) => s.(rows := s.rows[j := Pending], callers := s.callers + multiset{j})
    case Enqueue(j) => s.(callers := s.callers - multiset{j}, line := Next(s.line, Append(j)))
    case SignalDispatcher => s.(line := Next(s.line, Signal))
    case Cancel(j) => s.(rows := s.rows[j := Cancelled])
    case Dispatch(d) =>
      s.(line := Next(s.line, d),
         left := if d.DispatchExit? && s.line.disp.Sending? then s.left + multiset{s.line.disp.job} else s.left)
    case Work(i, w) => DoWork(s, i, w)
    case Fire(j) => s.(timers := s.timers - multiset{j}, line := Next(s.line, Append(j)))
    case TimerQuit(j) => s.(timers := s.timers - multiset{j}, left := s.left + multiset{j})
    case Stopping(p) => s.(stop := DoStop(s.stop, p))
  }

  ghost predicate Run(s: State, steps: seq<Step>, t: State)
    decreases |steps|
  {
    if steps == [] then s == t
    else Guard(s, steps[0]) && Run(Do(s, steps[0]), steps[1..], t)
  }

  // --------------------------------------------------------------- conservation

  predicate Carries(w: Worker, k: Job) {
    HasJob(w) && w.job == k
  }

  function Carriers(ws: seq<Worker>, k: Job): nat {
    if ws == [] then 0 else Is(Carries(ws[0], k)) + Carriers(ws[1..], k)
  }

  // The places where nobody is working on the job.
  function Parked(s: State, k: Job): nat {
    s.callers[k] + InLine(s.line, k) + s.timers[k] + s.left[k]
  }

  function Places(s: State, k: Job): nat {
    Parked(s, k) + Carriers(s.workers, k) + s.done[k] + s.pinned[k]
  }

  // A persisted job is in exactly one place, and nothing else is anywhere.
  ghost predicate Conserved(s: State) {
    forall k :: Places(s, k) == Is(k in s.rows)
  }

  lemma {:induction false} CarriersUpdate(ws: seq<Worker>, i: nat, w: Worker, k: Job)
    requires i < |ws|
    ensures Carriers(ws[i := w], k) + Is(Carries(ws[i], k)) == Carriers(ws, k) + Is(Carries(w, k))
  {
    if i > 0 {
      CarriersUpdate(ws[1..], i - 1, w, k);
      assert ws[i := w][1..] == ws[1..][i - 1 := w];
    } else {
      assert ws[i := w][1..] == ws[1..];
    }
  }

  lemma {:induction false} CarriersHas(ws: seq<Worker>, i: nat, k: Job)
    requires i < |ws| && Carries(ws[i], k)
    ensures Carriers(ws, k) >= 1
  {
    if i > 0 {
      CarriersHas(ws[1..], i - 1, k);
    }
  }

  lemma {:induction false} CarriersHasBoth(ws: seq<Worker>, i: nat, h: nat, k: Job)
    requires i < h < |ws| && Carries(ws[i], k) && Carries(ws[h], k)
    ensures Carriers(ws, k) >= 2
  {
    if i > 0 {
      CarriersHasBoth(ws[1..], i - 1, h - 1, k);
    } else {
      CarriersHas(ws[1..], h - 1, k);
    }
  }

  // The worker lets go of its job exactly when the effect gives it another fate.
  lemma EffectMovesJob(s: State, w: Worker, step: WorkStep, k: Job)
    requires CanWork(s, w, step) && !step.Take?
    ensures var e := WorkEffect(s, w, step);
            && (!e.fate.Keep? ==> HasJob(w))
            && Is(Carries(e.next, k)) == Is(Carries(w, k) && e.fate.Keep?)
  {
  }

  lemma WorkRowKeys(s: State, w: Worker, step: WorkStep, k: Job)
    requires CanWork(s, w, step) && !step.Take?
    ensures k in WorkRows(s, w, step) <==> k in s.rows || (step.Fail? && step.retry == Some(k))
  {
  }

  // A worker step moves the worker's job, and at most that job, to another place.
  lemma WorkConserves(s: State, i: nat, w: WorkStep, k: Job)
    requires Guard(s, Work(i, w)) && !w.Take?
    ensures Places(DoWork(s, i, w), k) - Is(k in DoWork(s, i, w).rows) == Places(s, k) - Is(k in s.rows)
  {
    EffectMovesJob(s, s.workers[i], w, k);
    WorkRowKeys(s, s.workers[i], w, k);
    CarriersUpdate(s.workers, i, WorkEffect(s, s.workers[i], w).next, k);
    hide WorkEffect, WorkRows, WorkLocks, WorkInflight, CanWork, InLine, PathHeld;
  }

  lemma TakeConserves(s: State, i: nat, k: Job)
    requires Guard(s, Work(i, Take))
    ensures Places(DoWork(s, i, Take), k) == Places(s, k)
  {
    CarriersUpdate(s.workers, i, Received(s.line.chan[0]), k);
    StepCounts(s.line, Receive, k);
  }

  lemma LineStepParks(s: State, step: Step, k: Job)
    requires Guard(s, step) && (step.Enqueue? || step.SignalDispatcher? || step.Dispatch? || step.Fire?)
    ensures Parked(Do(s, step), k) == Parked(s, k)
  {
    match step
    case Enqueue(j) => StepCounts(s.line, Append(j), k);
    case SignalDispatcher => StepCounts(s.line, Signal, k);
    case Dispatch(d) => StepCounts(s.line, d, k);
    case Fire(j) => StepCounts(s.line, Append(j), k);
    hide InLine, Next, LineInv;
  }

  // Everyone else only moves jobs between the places where nobody works on them.
  lemma OtherParks(s: State, step: Step, k: Job)
    requires Guard(s, step) && !step.Work?
    ensures Parked(Do(s, step), k) == Parked(s, k) + Is(step.Create? && step.j == k)
  {
    if step.Enqueue? || step.SignalDispatcher? || step.Dispatch? || step.Fire? {
      LineStepParks(s, step, k);
    }
    hide InLine, Next;
  }

  lemma OtherRows(s: State, step: Step, k: Job)
    requires Guard(s, step) && !step.Work?
    ensures Do(s, step).workers == s.workers && Do(s, step).done == s.done && Do(s, step).pinned == s.pinned
    ensures k in Do(s, step).rows <==> k in s.rows || (step.Create? && step.j == k)
    ensures k in s.rows && Do(s, step).rows[k] != s.rows[k] ==> step == Cancel(k) && Do(s, step).rows[k] == Cancelled
    ensures k !in s.rows && k in Do(s, step).rows ==> Do(s, step).rows[k] == Pending
    ensures step == Cancel(k) ==> !s.rows[k].Success? && !s.rows[k].Failed?
  {
    hide Next;
  }

  lemma OtherStepConserves(s: State, step: Step, k: Job)
    requires Guard(s, step) && !step.Work?
    ensures Places(Do(s, step), k) - Is(k in Do(s, step).rows) == Places(s, k) - Is(k in s.rows)
  {
    OtherParks(s, step, k);
    OtherRows(s, step, k);
    hide Do, Parked;
  }

  lemma StepConserves(s: State, step: Step)
    requires Guard(s, step) && Conserved(s)
    ensures Conserved(Do(s, step))
  {
    forall k ensures Places(Do(s, step), k) == Is(k in Do(s, step).rows) {
      match step
      case Work(i, w) =>
        if w.Take? {
          TakeConserves(s, i, k);
        } else {
          WorkConserves(s, i, w, k);
        }
      case _ => OtherStepConserves(s, step, k);
    }
  }

  // ------------------------------------------------------------ row statuses

  predicate WorkerRow(w: Worker, rows: Rows) {
    HasJob(w) ==>
      && w.job in rows
      && (if w.Git? || w.Failing? || w.Interrupted? then Active(rows[w.job]) else Waits(rows[w.job]))
  }

  // The row's status tells where the job can be.
  ghost predicate StatusInv(s: State) {
    && (forall k :: k in s.rows && Parked(s, k) > 0 ==> Waits(s.rows[k]))
    && (forall k :: k in s.rows && s.done[k] > 0 ==> Final(s.rows[k]))
    && (forall k :: k in s.rows && s.pinned[k] > 0 ==> Active(s.rows[k]))
    && (forall i :: 0 <= i < |s.workers| ==> WorkerRow(s.workers[i], s.rows))
  }

  // A job in a worker's hand is nowhere else.
  lemma SoleCarrier(s: State, i: nat, h: nat)
    requires Conserved(s) && i < |s.workers| && HasJob(s.workers[i])
    ensures var j := s.workers[i].job; j in s.rows && Parked(s, j) == 0 && s.done[j] == 0 && s.pinned[j] == 0
    ensures h < |s.workers| && h != i ==> !Carries(s.workers[h], s.workers[i].job)
  {
    var j := s.workers[i].job;
    CarriersHas(s.workers, i, j);
    assert Places(s, j) == Is(j in s.rows);
    if h < |s.workers| && h != i && Carries(s.workers[h], j) {
      CarriersHasBoth(s.workers, if i < h then i else h, if i < h then h else i, j);
    }
  }

  lemma WorkOwnStatus(s: State, i: nat, w: WorkStep)
    requires Conserved(s) && Guard(s, Work(i, w)) && !w.Take? && WorkerRow(s.workers[i], s.rows)
    ensures WorkerRow(WorkEffect(s, s.workers[i], w).next, WorkRows(s, s.workers[i], w))
    ensures var j := s.workers[i]; HasJob(j) ==>
              match WorkEffect(s, j, w).fate
              case Keep => true
              case Settle => Final(WorkRows(s, j, w)[j.job])
              case Arm => Waits(WorkRows(s, j, w)[j.job])
              case Leave => Waits(WorkRows(s, j, w)[j.job])
  {
  }

  lemma WorkOtherRows(s: State, w: Worker, step: WorkStep, k: Job)
    requires CanWork(s, w, step) && !step.Take? && k in s.rows && !Carries(w, k)
    ensures k in WorkRows(s, w, step) && WorkRows(s, w, step)[k] == s.rows[k]
  {
  }

  lemma WorkKeepsStatusOf(s: State, i: nat, w: WorkStep, k: Job)
    requires Conserved(s) && StatusInv(s) && Guard(s, Work(i, w)) && !w.Take? && k in DoWork(s, i, w).rows
    ensures Parked(DoWork(s, i, w), k) > 0 ==> Waits(DoWork(s, i, w).rows[k])
    ensures DoWork(s, i, w).done[k] > 0 ==> Final(DoWork(s, i, w).rows[k])
    ensures DoWork(s, i, w).pinned[k] > 0 ==> Active(DoWork(s, i, w).rows[k])
  {
    var worker := s.workers[i];
    WorkOwnStatus(s, i, w);
    EffectMovesJob(s, worker, w, k);
    WorkRowKeys(s, worker, w, k);
    if HasJob(worker) {
      SoleCarrier(s, i, i);
    }
    if k in s.rows {
      if !Carries(worker, k) {
        WorkOtherRows(s, worker, w, k);
      }
    } else {
      assert Places(s, k) == 0;
    }
    hide WorkEffect, WorkLocks, WorkInflight, InLine, PathHeld;
  }

  lemma WorkKeepsStatus(s: State, i: nat, w: WorkStep)
    requires Conserved(s) && StatusInv(s) && Guard(s, Work(i, w)) && !w.Take?
    ensures StatusInv(DoWork(s, i, w))
  {
    var s' := DoWork(s, i, w);
    forall k | k in s'.rows
      ensures (Parked(s', k) > 0 ==> Waits(s'.rows[k])) && (s'.done[k] > 0 ==> Final(s'.rows[k]))
                && (s'.pinned[k] > 0 ==> Active(s'.rows[k]))
    {
      WorkKeepsStatusOf(s, i, w, k);
    }
    forall h | 0 <= h < |s'.workers| ensures WorkerRow(s'.workers[h], s'.rows) {
      if h == i {
        WorkOwnStatus(s, i, w);
      } else if HasJob(s.workers[h]) {
        SoleCarrier(s, h, i);
        WorkOtherRows(s, s.workers[i], w, s.workers[h].job);
      }
    }
  }

  lemma TakeKeepsStatus(s: State, i: nat)
    requires Conserved(s) && StatusInv(s) && Guard(s, Work(i, Take))
    ensures StatusInv(DoWork(s, i, Take))
  {
    var s' := DoWork(s, i, Take);
    var j := s.line.chan[0];
    forall k | k in s'.rows && Parked(s', k) > 0 ensures Waits(s'.rows[k]) {
      StepCounts(s.line, Receive, k);
    }
    CountHas(s.line.chan, j);
    assert Parked(s, j) > 0;
    assert Places(s, j) == Is(j in s.rows);
  }

  lemma OtherKeepsStatusOf(s: State, step: Step, k: Job)
    requires Conserved(s) && StatusInv(s) && Guard(s, step) && !step.Work? && k in Do(s, step).rows
    ensures Parked(Do(s, step), k) > 0 ==> Waits(Do(s, step).rows[k])
    ensures Do(s, step).done[k] > 0 ==> Final(Do(s, step).rows[k])
    ensures Do(s, step).pinned[k] > 0 ==> Active(Do(s, step).rows[k])
  {
    assert Places(s, k) == Is(k in s.rows);
    OtherParks(s, step, k);
    OtherRows(s, step, k);
    hide Do, Parked, Guard;
  }

  lemma OtherKeepsStatus(s: State, step: Step)
    requires Conserved(s) && StatusInv(s) && Guard(s, step) && !step.Work?
    ensures StatusInv(Do(s, step))
  {
    var s' := Do(s, step);
    hide Do, Guard, Parked, Conserved;
    forall k | k in s'.rows
      ensures (Parked(s', k) > 0 ==> Waits(s'.rows[k])) && (s'.done[k] > 0 ==> Final(s'.rows[k]))
                && (s'.pinned[k] > 0 ==> Active(s'.rows[k]))
    {
      OtherKeepsStatusOf(s, step, k);
    }
    OtherKeepsWorkers(s, step);
  }

  lemma OtherKeepsWorkers(s: State, step: Step)
    requires Conserved(s) && StatusInv(s) && Guard(s, step) && !step.Work?
    ensures forall h :: 0 <= h < |Do(s, step).workers| ==> WorkerRow(Do(s, step).workers[h], Do(s, step).rows)
  {
    var s' := Do(s, step);
    hide Do, Guard, Parked, Conserved;
    OtherRows(s, step, Job(0, ""));
    forall h | 0 <= h < |s'.workers| ensures WorkerRow(s'.workers[h], s'.rows) {
      if HasJob(s.workers[h]) {
        OtherRows(s, step, s.workers[h].job);
      }
    }
  }

  lemma StepKeepsStatus(s: State, step: Step)
    requires Conserved(s) && StatusInv(s) && Guard(s, step)
    ensures StatusInv(Do(s, step))
  {
    match step
    case Work(i, w) =>
      if w.Take? {
        TakeKeepsStatus(s, i);
      } else {
        WorkKeepsStatus(s, i, w);
      }
    case _ => OtherKeepsStatus(s, step);
  }

  // ------------------------------------------------- in-flight count and locks

  function BusyCount(ws: seq<Worker>): nat {
    if ws == [] then 0 else Is(Busy(ws[0])) + BusyCount(ws[1..])
  }

  lemma {:induction false} BusyUpdate(ws: seq<Worker>, i: nat, w: Worker)
    requires i < |ws|
    ensures BusyCount(ws[i := w]) + Is(Busy(ws[i])) == BusyCount(ws) + Is(Busy(w))
  {
    if i > 0 {
      BusyUpdate(ws[1..], i - 1, w);
      assert ws[i := w][1..] == ws[1..][i - 1 := w];
    } else {
      assert ws[i := w][1..] == ws[1..];
    }
  }

  lemma {:induction false} BusyNone(ws: seq<Worker>, i: nat)
    requires BusyCount(ws) == 0 && i < |ws|
    ensures !Busy(ws[i])
  {
    if i > 0 {
      BusyNone(ws[1..], i - 1);
    }
  }

  // The in-flight counter is the number of workers inside processJob.
  ghost predicate CountInv(s: State) {
    s.inflight == BusyCount(s.workers)
  }

  lemma WorkKeepsCount(s: State, i: nat, w: WorkStep)
    requires Guard(s, Work(i, w)) && CountInv(s)
    ensures CountInv(DoWork(s, i, w))
  {
    BusyUpdate(s.workers, i, DoWork(s, i, w).workers[i]);
    hide WorkRows, WorkLocks;
  }

  lemma StepKeepsCount(s: State, step: Step)
    requires Guard(s, step) && CountInv(s)
    ensures CountInv(Do(s, step))
  {
    match step
    case Work(i, w) => WorkKeepsCount(s, i, w);
    case _ =>
  }

  // A path is locked by exactly the worker that is between TryLock and unlock on it.
  ghost predicate LocksMatch(workers: seq<Worker>, locks: map<string, nat>) {
    && (forall i :: 0 <= i < |workers| && PathHeld(workers[i]).Some? ==>
          PathHeld(workers[i]).value in locks && locks[PathHeld(workers[i]).value] == i)
    && (forall p :: p in locks ==> locks[p] < |workers| && PathHeld(workers[locks[p]]) == Some(p))
  }

  ghost predicate LockInv(s: State) {
    LocksMatch(s.workers, s.locks)
  }

  lemma EffectKeepsPath(s: State, w: Worker, step: WorkStep)
    requires CanWork(s, w, step) && !step.Take?
    ensures var next := WorkEffect(s, w, step).next;
            PathHeld(next) == (if step.TryPath? && w.job.path !in s.locks then Some(w.job.path)
                               else if step.Unlock? then None else PathHeld(w))
    ensures step.Unlock? ==> PathHeld(w) == Some(w.path)
    ensures step.TryPath? ==> PathHeld(w).None?
  {
  }

  // The three ways a worker's next phase and the lock table can change together.
  lemma LocksFollow(workers: seq<Worker>, locks: map<string, nat>, i: nat, next: Worker, locks': map<string, nat>)
    requires LocksMatch(workers, locks) && i < |workers|
    requires
      || (locks' == locks && PathHeld(next) == PathHeld(workers[i]))
      || (exists p :: p !in locks && PathHeld(workers[i]).None? && PathHeld(next) == Some(p) && locks' == locks[p := i])
      || (exists p :: PathHeld(workers[i]) == Some(p) && PathHeld(next).None? && locks' == locks - {p})
    ensures LocksMatch(workers[i := next], locks')
  {
    hide PathHeld;
  }

  lemma WorkKeepsLocks(s: State, i: nat, w: WorkStep)
    requires Guard(s, Work(i, w)) && LockInv(s)
    ensures LockInv(DoWork(s, i, w))
  {
    hide LocksMatch, WorkRows, WorkInflight;
    if w.Take? {
      LocksFollow(s.workers, s.locks, i, Received(s.line.chan[0]), s.locks);
    } else {
      EffectKeepsPath(s, s.workers[i], w);
      hide WorkEffect;
      LocksFollow(s.workers, s.locks, i, WorkEffect(s, s.workers[i], w).next, WorkLocks(s, i, w));
    }
  }

  lemma StepKeepsLocks(s: State, step: Step)
    requires Guard(s, step) && LockInv(s)
    ensures LockInv(Do(s, step))
  {
    match step
    case Work(i, w) => WorkKeepsLocks(s, i, w);
    case _ =>
  }

  // -------------------------------------------------------------------- shutdown

  ghost predicate StopInv(s: State) {
    && (s.stop.stopping ==> s.stop.soft)
    && (s.stop.cancelled ==> s.stop.stopping)
    && (s.stop.drained ==> s.stop.stopping && s.inflight == 0)
    && (s.stop.returned ==>
          && s.stop.cancelled && s.line.disp.Gone? && s.timers == multiset{}
          && forall i :: 0 <= i < |s.workers| ==> s.workers[i].Exited?)
  }

  // A worker that finishes was counted, so a counter at zero only moves by Admit.
  lemma WorkKeepsDrained(s: State, i: nat, w: WorkStep)
    requires Guard(s, Work(i, w)) && CountInv(s) && s.stop.stopping && s.inflight == 0
    ensures DoWork(s, i, w).inflight == 0
  {
    BusyNone(s.workers, i);
    hide WorkEffect, WorkRows, WorkLocks;
  }

  lemma ExitedWorkersRest(s: State, i: nat, w: WorkStep)
    requires Guard(s, Work(i, w))
    ensures !s.workers[i].Exited?
  {
  }

  lemma WorkKeepsStop(s: State, i: nat, w: WorkStep)
    requires Guard(s, Work(i, w)) && StopInv(s) && CountInv(s)
    ensures StopInv(DoWork(s, i, w))
  {
    ExitedWorkersRest(s, i, w);
    if s.stop.drained {
      WorkKeepsDrained(s, i, w);
    }
    hide WorkEffect, WorkRows, WorkLocks, WorkInflight, CanWork, CountInv;
  }

  lemma StepKeepsStop(s: State, step: Step)
    requires Guard(s, step) && StopInv(s) && CountInv(s)
    ensures StopInv(Do(s, step))
  {
    match step
    case Work(i, w) => WorkKeepsStop(s, i, w);
    case _ =>
  }

  ghost predicate Inv(s: State) {
    Conserved(s) && StatusInv(s) && LineInv(s.line) && CountInv(s) && LockInv(s) && StopInv(s)
  }

  lemma {:induction false} AllIdle(n: nat, k: Job)
    ensures BusyCount(seq(n, _ => Idle)) == 0 && Carriers(seq(n, _ => Idle), k) == 0
  {
    if n > 0 {
      AllIdle(n - 1, k);
      assert seq(n, _ => Idle)[1..] == seq(n - 1, _ => Idle);
    }
  }

  lemma InitialInv(n: nat, rows: Rows)
    ensures Inv(Initial(n, rows))
  {
    var s := Initial(n, rows);
    forall k ensures Places(s, k) == Is(k in s.rows) && (k in s.rows && Parked(s, k) > 0 ==> Waits(s.rows[k])) {
      AllIdle(n, k);
    }
    AllIdle(n, Job(0, ""));
  }

  lemma StepKeepsLine(s: State, step: Step)
    requires Guard(s, step) && LineInv(s.line)
    ensures LineInv(Do(s, step).line)
  {
    match step
    case Enqueue(j) => StepKeepsLineInv(s.line, Append(j));
    case SignalDispatcher => StepKeepsLineInv(s.line, Signal);
    case Dispatch(d) => StepKeepsLineInv(s.line, d);
    case Work(i, w) =>
      if w.Take? {
        StepKeepsLineInv(s.line, Receive);
      }
    case Fire(j) => StepKeepsLineInv(s.line, Append(j));
    case _ =>
    hide LineInv, Next, WorkEffect, WorkRows, WorkLocks;
  }

  lemma StepKeepsInv(s: State, step: Step)
    requires Guard(s, step) && Inv(s)
    ensures Inv(Do(s, step))
  {
    StepConserves(s, step);
    StepKeepsStatus(s, step);
    StepKeepsLine(s, step);
    StepKeepsCount(s, step);
    StepKeepsLocks(s, step);
    StepKeepsStop(s, step);
    hide Guard, Do, Conserved, StatusInv, LineInv, CountInv, LockInv, StopInv;
  }

  lemma {:induction false} RunKeepsInv(s: State, steps: seq<Step>, t: State)
    requires Inv(s) && Run(s, steps, t)
    ensures Inv(t)
    decreases |steps|
  {
    hide Inv, Guard, Do;
    if steps != [] {
      StepKeepsInv(s, steps[0]);
      RunKeepsInv(Do(s, steps[0]), steps[1..], t);
    }
  }

  ghost predicate Reachable(t: State) {
    exists n: nat, rows, steps :: Run(Initial(n, rows), steps, t)
  }

  lemma ReachableInv(t: State)
    requires Reachable(t)
    ensures Inv(t)
  {
    var n: nat, rows, steps :| Run(Initial(n, rows), steps, t);
    InitialInv(n, rows);
    RunKeepsInv(Initial(n, rows), steps, t);
  }

  // ---------------------------------------------------------------- main results

  /** Conservation: in every reachable state each persisted job is in exactly one of
      its caller's hand, the backlog, the dispatcher's hand, the channel, a worker, a
      timer, the settled jobs, the jobs left for the next start, or the rows a crashed
      process left running. */
  lemma EveryJobIsInOnePlace(s: State, k: Job)
    requires Reachable(s)
    ensures s.callers[k] + Count(s.line.backlog, k) + Is(s.line.disp.Sending? && s.line.disp.job == k)
          + Count(s.line.chan, k) + Carriers(s.workers, k) + s.timers[k] + s.done[k] + s.left[k] + s.pinned[k]
              == Is(k in s.rows)
  {
    ReachableInv(s);
    assert Places(s, k) == Is(k in s.rows);
  }

  /** At most one worker is between TryLock and unlock on a path, duplicates of a
      repository's job included; a TryLock is refused only while another worker is. */
  lemma OneGitOperationPerPath(s: State, i: nat, h: nat)
    requires Reachable(s) && i < |s.workers| && h < |s.workers|
    ensures PathHeld(s.workers[i]).Some? && PathHeld(s.workers[i]) == PathHeld(s.workers[h]) ==> i == h
    ensures s.workers[i].Started? && s.workers[i].job.path in s.locks ==>
              exists g :: 0 <= g < |s.workers| && g != i && PathHeld(s.workers[g]) == Some(s.workers[i].job.path)
  {
    ReachableInv(s);
    if s.workers[i].Started? && s.workers[i].job.path in s.locks {
      var g := s.locks[s.workers[i].job.path];
      assert PathHeld(s.workers[g]) == Some(s.workers[i].job.path);
    }
  }

  /** A job that loses its path to another worker gets exactly one timer, and from
      then on exactly one appearance anywhere; unless its row was cancelled, when it
      is settled instead. */
  lemma LoserIsDeferredOnce(s: State, i: nat)
    requires Reachable(s) && Guard(s, Work(i, Defer))
    ensures var j := s.workers[i].job;
            var s' := Do(s, Work(i, Defer));
            && Places(s', j) == 1
            && if s.rows[j].Cancelled? then s'.done[j] == 1 && s'.rows[j].Cancelled?
               else s'.timers[j] == 1 && s'.rows[j].Pending?
  {
    ReachableInv(s);
    StepConserves(s, Work(i, Defer));
    SoleCarrier(s, i, i);
    var j := s.workers[i].job;
    assert Places(Do(s, Work(i, Defer)), j) == 1;
  }

  lemma {:induction false} DrainFrom(s: State, steps: seq<Step>, t: State)
    requires Inv(s) && s.stop.stopping && Run(s, steps, t)
    ensures Inv(t) && t.inflight <= s.inflight && t.stop.stopping && (s.stop.drained ==> t.stop.drained)
    decreases |steps|
  {
    if steps != [] {
      StepKeepsInv(s, steps[0]);
      StoppingIsMonotone(s, steps[0]);
      DrainFrom(Do(s, steps[0]), steps[1..], t);
    }
    hide Do, Guard, Inv;
  }

  /** The counter equals the number of workers inside processJob; once Stop has set
      stopping no step raises it, so no Add can overlap the Wait; and once it has been
      seen at zero no worker is ever inside processJob again. */
  lemma SafeDrain(s: State, steps: seq<Step>, t: State)
    requires Reachable(s) && s.stop.stopping && Run(s, steps, t)
    ensures t.inflight == BusyCount(t.workers) <= s.inflight
    ensures s.stop.drained ==> forall i :: 0 <= i < |t.workers| ==> !Busy(t.workers[i])
  {
    ReachableInv(s);
    DrainFrom(s, steps, t);
    if s.stop.drained {
      forall i | 0 <= i < |t.workers| ensures !Busy(t.workers[i]) {
        BusyNone(t.workers, i);
      }
    }
  }

  lemma StoppingIsMonotone(s: State, step: Step)
    requires Guard(s, step) && s.stop.stopping
    ensures Do(s, step).stop.stopping && Do(s, step).inflight <= s.inflight
    ensures s.stop.drained ==> Do(s, step).stop.drained
  {
    hide WorkEffect, WorkRows, WorkLocks, Next;
  }

  /** When Stop returns, a job is either settled with a final status or its row is
      pending or cancelled, ready for the next start; no row is still running but those
      a crashed process left so. */
  lemma StopLeavesResumableRows(s: State, k: Job)
    requires Reachable(s) && s.stop.returned && k in s.rows
    ensures if s.done[k] == 1 then Final(s.rows[k]) else if s.pinned[k] == 1 then Active(s.rows[k])
              else Waits(s.rows[k])
    ensures s.rows[k].Running? ==> s.pinned[k] == 1 && s.done[k] == 0
  {
    ReachableInv(s);
    assert Places(s, k) == 1;
    NoCarriers(s.workers, k);
  }

  lemma {:induction false} NoCarriers(ws: seq<Worker>, k: Job)
    requires forall i :: 0 <= i < |ws| ==> ws[i].Exited?
    ensures Carriers(ws, k) == 0
  {
    if ws != [] {
      assert ws[0].Exited?;
      forall i | 0 <= i < |ws[1..]| ensures ws[1..][i].Exited? {
        assert ws[i + 1].Exited?;
      }
      NoCarriers(ws[1..], k);
    }
  }

  lemma FinalStepKeepsRow(s: State, step: Step, k: Job)
    requires Inv(s) && Guard(s, step) && k in s.rows && Final(s.rows[k])
    ensures k in Do(s, step).rows && Do(s, step).rows[k] == s.rows[k]
  {
    match step
    case Work(i, w) =>
      if !w.Take? {
        if Carries(s.workers[i], k) {
          WorkerRowOfFinal(s, i, w);
        } else {
          WorkOtherRows(s, s.workers[i], w, k);
        }
      }
    case _ => OtherRows(s, step, k);
    hide Conserved, LineInv, CountInv, LockInv, StopInv, WorkEffect, WorkRows, WorkLocks;
  }

  // A worker can only be carrying a finished job if it was cancelled, and then every
  // one of its writes is refused.
  lemma WorkerRowOfFinal(s: State, i: nat, w: WorkStep)
    requires StatusInv(s) && Guard(s, Work(i, w)) && !w.Take? && HasJob(s.workers[i]) && Final(s.rows[s.workers[i].job])
    ensures var j := s.workers[i].job; s.rows[j].Cancelled? && WorkRows(s, s.workers[i], w)[j] == s.rows[j]
  {
    assert WorkerRow(s.workers[i], s.rows);
  }

  lemma {:induction false} FinalFrom(s: State, steps: seq<Step>, t: State, k: Job)
    requires Inv(s) && Run(s, steps, t) && k in s.rows && Final(s.rows[k])
    ensures k in t.rows && t.rows[k] == s.rows[k]
    decreases |steps|
  {
    hide Inv, Guard, Do;
    if steps != [] {
      StepKeepsInv(s, steps[0]);
      FinalStepKeepsRow(s, steps[0], k);
      FinalFrom(Do(s, steps[0]), steps[1..], t, k);
    }
  }

  /** A row that reaches success, failed or cancelled keeps that status for the rest
      of the process: in particular no worker resurrects a cancelled job. */
  lemma FinalStatusIsForever(s: State, steps: seq<Step>, t: State, k: Job)
    requires Reachable(s) && Run(s, steps, t) && k in s.rows && Final(s.rows[k])
    ensures k in t.rows && t.rows[k] == s.rows[k]
  {
    ReachableInv(s);
    FinalFrom(s, steps, t, k);
  }

  /** First in, first out across the whole pool: workers receive the jobs in the
      order of the Enqueue calls, and a parked dispatcher is never left asleep. */
  lemma PoolIsFifo(s: State)
    requires Reachable(s)
    ensures s.line.received <= s.line.enqueued
    ensures s.line.disp.Waiting? && s.line.backlog != [] ==> s.line.notify || s.line.signallers > 0
    ensures |s.line.chan| <= QUEUE_CAPACITY
  {
    ReachableInv(s);
  }
}
