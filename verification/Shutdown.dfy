/** That Stop can always finish (Stop and its helpers in internal/gitops/worker.go): whatever the
    pool is doing when it is called, steps of the pool's own goroutines lead to its return, so
    no worker, timer or dispatcher ever waits for another in a circle.
  */
module Shutdown {
  import opened Wrappers
  import opened DispatchLine
  import opened ClonePool
  import opened CloneWorker

  // Stop has told workers and dispatcher to leave.
  predicate Ending(stop: ClonePool.Shutdown) {
    stop.soft && stop.stopping
  }

  // What a worker does next once the pool is ending, and how much is still before it.
  function NextWork(w: Worker): WorkStep {
    match w
    case Idle => Quit
    case Received(_) => Admit
    case Started(_) => TryPath
    case Contended(_) => Defer
    case Locked(_) => MarkRunning
    case Git(_) => GitSucceeds
    case Failing(_) => Fail(None)
    case Interrupted(_) => Requeue
    case Wrapping(_) => Unlock
    case Leaving => Finish
    case Exited => Quit
  }

  function StagesLeft(w: Worker): nat {
    match w
    case Exited => 0
    case Idle => 1
    case Leaving => 2
    case Wrapping(_) => 3
    case Contended(_) => 3
    case Failing(_) => 4
    case Interrupted(_) => 4
    case Git(_) => 4
    case Locked(_) => 5
    case Started(_) => 6
    case Received(_) => 1
  }

  // A worker's next step is never refused, and brings it closer to its exit.
  lemma WorkGoesOn(s: State, i: nat)
    requires Inv(s) && Ending(s.stop) && i < |s.workers| && !s.workers[i].Exited?
    ensures Guard(s, Work(i, NextWork(s.workers[i])))
    ensures var t := Do(s, Work(i, NextWork(s.workers[i])));
            && |t.workers| == |s.workers| && t.stop == s.stop && t.line == s.line
            && (forall h :: 0 <= h < |s.workers| && h != i ==> t.workers[h] == s.workers[h])
            && StagesLeft(t.workers[i]) < StagesLeft(s.workers[i])
  {
    if HasJob(s.workers[i]) {
      assert WorkerRow(s.workers[i], s.rows);
    }
    hide Inv, WorkerRow;
    NextStage(s, s.workers[i]);
    hide NextWork, StagesLeft, WorkEffect, WorkRows, WorkLocks, WorkInflight, CanWork;
  }

  lemma NextStage(s: State, w: Worker)
    requires Ending(s.stop) && !w.Exited? && (HasJob(w) ==> w.job in s.rows)
    ensures CanWork(s, w, NextWork(w)) && !NextWork(w).Take?
    ensures StagesLeft(WorkEffect(s, w, NextWork(w)).next) < StagesLeft(w)
  {
  }

  lemma {:induction false} WorkerExits(s0: State, log: seq<Step>, s: State, i: nat)
      returns (steps: seq<Step>, t: State)
    requires Inv(s) && Ending(s.stop) && i < |s.workers| && Run(s0, log, s)
    ensures Run(s0, steps, t) && Inv(t) && |t.workers| == |s.workers| && t.stop == s.stop && t.line == s.line
    ensures t.workers[i].Exited? && forall h :: 0 <= h < |s.workers| && h != i ==> t.workers[h] == s.workers[h]
    decreases StagesLeft(s.workers[i])
  {
    if s.workers[i].Exited? {
      steps, t := log, s;
    } else {
      var step := Work(i, NextWork(s.workers[i]));
      WorkGoesOn(s, i);
      hide Inv, Run, Guard, Do, NextWork, StagesLeft;
      StepKeepsInv(s, step);
      RunSnoc(s0, log, s, step);
      steps, t := WorkerExits(s0, log + [step], Do(s, step), i);
    }
  }

  lemma {:induction false} WorkersExit(s0: State, log: seq<Step>, s: State, n: nat)
      returns (steps: seq<Step>, t: State)
    requires Inv(s) && Ending(s.stop) && n <= |s.workers| && Run(s0, log, s)
    requires forall h :: n <= h < |s.workers| ==> s.workers[h].Exited?
    ensures Run(s0, steps, t) && Inv(t) && t.stop == s.stop && t.line == s.line
    ensures forall h :: 0 <= h < |t.workers| ==> t.workers[h].Exited?
    decreases n
  {
    hide Inv, Run;
    if n == 0 {
      steps, t := log, s;
    } else {
      steps, t := WorkerExits(s0, log, s, n - 1);
      steps, t := WorkersExit(s0, steps, t, n - 1);
    }
  }

  lemma {:induction false} TimersQuit(s0: State, log: seq<Step>, s: State) returns (steps: seq<Step>, t: State)
    requires Inv(s) && s.stop.cancelled && Run(s0, log, s)
    ensures Run(s0, steps, t) && Inv(t) && t.stop == s.stop && t.line == s.line && t.workers == s.workers
    ensures t.timers == multiset{}
    decreases |s.timers|
  {
    if s.timers == multiset{} {
      steps, t := log, s;
    } else {
      var j :| j in s.timers;
      hide Inv, Run;
      StepKeepsInv(s, TimerQuit(j));
      RunSnoc(s0, log, s, TimerQuit(j));
      assert |s.timers - multiset{j}| == |s.timers| - 1;
      steps, t := TimersQuit(s0, log + [TimerQuit(j)], Do(s, TimerQuit(j)));
    }
  }

  // The dispatcher looks at the backlog once more, if it has to, and exits.
  lemma DispatcherExits(s0: State, log: seq<Step>, s: State) returns (steps: seq<Step>, t: State)
    requires Inv(s) && Ending(s.stop) && Run(s0, log, s)
    ensures Run(s0, steps, t) && Inv(t) && t.stop == s.stop && t.workers == s.workers && t.timers == s.timers
    ensures t.line.disp.Gone?
  {
    steps, t := log, s;
    hide Inv, Run;
    if t.line.disp.Scanning? {
      StepKeepsInv(t, Dispatch(Scan));
      RunSnoc(s0, steps, t, Dispatch(Scan));
      steps, t := steps + [Dispatch(Scan)], Do(t, Dispatch(Scan));
    }
    if !t.line.disp.Gone? {
      StepKeepsInv(t, Dispatch(DispatchExit));
      RunSnoc(s0, steps, t, Dispatch(DispatchExit));
      steps, t := steps + [Dispatch(DispatchExit)], Do(t, Dispatch(DispatchExit));
    }
  }

  lemma {:induction false} NobodyBusy(ws: seq<Worker>)
    requires forall h :: 0 <= h < |ws| ==> ws[h].Exited?
    ensures BusyCount(ws) == 0
  {
    if ws != [] {
      NobodyBusy(ws[1..]);
    }
  }

  // One of Stop's own steps.
  lemma StopGoesOn(s0: State, log: seq<Step>, s: State, p: StopStep) returns (steps: seq<Step>, t: State)
    requires Inv(s) && Run(s0, log, s) && Guard(s, Stopping(p))
    ensures Run(s0, steps, t) && Inv(t) && t == s.(stop := DoStop(s.stop, p))
  {
    hide Inv, Run, CanStop, DoStop;
    StepKeepsInv(s, Stopping(p));
    RunSnoc(s0, log, s, Stopping(p));
    steps, t := log + [Stopping(p)], Do(s, Stopping(p));
  }

  /** From every reachable state, whatever jobs, timers and git operations are under way, some
      run of Stop's and the pool's own steps ends with Stop returned; and if the context is not
      cancelled yet it need not be before every worker has finished its job and left. */
  lemma StopCanAlwaysReturn(s: State) returns (steps: seq<Step>, left: State, t: State)
    requires Reachable(s)
    ensures Run(s, steps, left) && left.stop.cancelled == s.stop.cancelled && left.stop.drained && left.line.disp.Gone?
    ensures forall h :: 0 <= h < |left.workers| ==> left.workers[h].Exited?
    ensures t.stop.returned && exists more :: Run(left, more, t)
  {
    ReachableInv(s);
    RunNothing(s);
    hide Inv, Run, Reachable, Guard, Do, DoStop;
    assert Guard(s, Stopping(CloseSoftStop)) by { CanCloseSoftStop(s); }
    steps, left := LeavesGracefully(s);
    RunNothing(left);
    var more;
    more, t := EndsAfter(left);
  }

  lemma CanCloseSoftStop(s: State)
    ensures Guard(s, Stopping(CloseSoftStop))
  {
  }

  // The soft stop: nobody is interrupted.
  lemma LeavesGracefully(s: State) returns (steps: seq<Step>, t: State)
    requires Inv(s)
    ensures Run(s, steps, t) && Inv(t) && t.stop.cancelled == s.stop.cancelled && t.stop.drained && Ending(t.stop)
    ensures t.line.disp.Gone? && forall h :: 0 <= h < |t.workers| ==> t.workers[h].Exited?
  {
    RunNothing(s);
    hide Inv, Run, Reachable, Do;
    steps, t := StopGoesOn(s, [], s, CloseSoftStop);
    steps, t := StopGoesOn(s, steps, t, SetStopping);
    steps, t := WorkersExit(s, steps, t, |t.workers|);
    steps, t := DispatcherExits(s, steps, t);
    NobodyBusy(t.workers);
    assert t.inflight == 0 by { assert CountInv(t) by { CountOf(t); } }
    steps, t := StopGoesOn(s, steps, t, Drain);
  }

  lemma CountOf(s: State)
    requires Inv(s)
    ensures CountInv(s)
  {
  }

  lemma EndsAfter(s: State) returns (steps: seq<Step>, t: State)
    requires Inv(s) && Ending(s.stop) && s.line.disp.Gone? && forall h :: 0 <= h < |s.workers| ==> s.workers[h].Exited?
    ensures Run(s, steps, t) && t.stop.returned
  {
    RunNothing(s);
    hide Inv, Run, Reachable, Do;
    steps, t := StopGoesOn(s, [], s, CancelContext);
    steps, t := TimersQuit(s, steps, t);
    steps, t := StopGoesOn(s, steps, t, Return);
  }

  /** Before that nobody leaves: until Stop has begun the dispatcher and all workers are there. */
  lemma {:induction false} NobodyLeavesEarly(s: State, steps: seq<Step>, t: State)
    requires Run(s, steps, t) && Stopping(CloseSoftStop) !in steps && AllThere(s)
    ensures AllThere(t)
    decreases |steps|
  {
    if steps != [] {
      assert steps[0] in steps && forall x :: x in steps[1..] ==> x in steps;
      StaysThere(s, steps[0]);
      hide AllThere, Guard, Do;
      NobodyLeavesEarly(Do(s, steps[0]), steps[1..], t);
    }
  }

  ghost predicate AllThere(s: State) {
    && !s.stop.soft && !s.stop.stopping && !s.stop.cancelled
    && !s.line.disp.Gone? && forall h :: 0 <= h < |s.workers| ==> !s.workers[h].Exited?
  }

  lemma StaysThere(s: State, step: Step)
    requires AllThere(s) && Guard(s, step) && step != Stopping(CloseSoftStop)
    ensures AllThere(Do(s, step))
  {
    if step.Work? && !step.w.Take? {
      StaysIn(s, s.workers[step.i], step.w);
    }
    hide WorkEffect, WorkRows, WorkLocks, WorkInflight;
  }

  lemma StaysIn(s: State, w: Worker, step: WorkStep)
    requires CanWork(s, w, step) && !step.Take? && !s.stop.soft && !s.stop.stopping && !s.stop.cancelled
    ensures !WorkEffect(s, w, step).next.Exited?
  {
  }

  lemma StartsThere(workers: nat, rows: Rows)
    ensures AllThere(Initial(workers, rows)) && |Initial(workers, rows).workers| == workers
  {
  }

  /** A parked dispatcher with work waiting goes on, in the pool as in the line alone. */
  lemma DispatcherGoesOn(s: State) returns (steps: seq<Step>, t: State)
    requires Reachable(s) && s.line.disp.Waiting? && s.line.backlog != []
    ensures Run(s, steps, t) && |steps| <= 3 && t.rows == s.rows && t.workers == s.workers
    ensures t.line.disp == Sending(s.line.backlog[0]) && t.line.backlog == s.line.backlog[1..]
  {
    ReachableInv(s);
    assert LineInv(s.line);
    RunNothing(s);
    hide Inv, Run, LineInv, Reachable;
    steps, t := [], s;
    if !t.line.notify {
      RunSnoc(s, steps, t, SignalDispatcher);
      steps, t := steps + [SignalDispatcher], Do(t, SignalDispatcher);
    }
    RunSnoc(s, steps, t, Dispatch(Wake));
    steps, t := steps + [Dispatch(Wake)], Do(t, Dispatch(Wake));
    RunSnoc(s, steps, t, Dispatch(Scan));
    steps, t := steps + [Dispatch(Scan)], Do(t, Dispatch(Scan));
  }

  /** What CancelCloneJob does is a step of the pool, whatever a worker is doing with the job. */
  lemma CancelIsARun(s: State, j: Job)
    requires j in s.rows && (s.rows[j] == Pending || s.rows[j] == Running)
    ensures Run(s, [Cancel(j)], s.(rows := s.rows[j := Cancelled]))
  {
    RunNothing(s);
    RunSnoc(s, [], s, Cancel(j));
    assert [] + [Cancel(j)] == [Cancel(j)];
    hide Run;
  }
}
