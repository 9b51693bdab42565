/** The clone worker object itself (internal/gitops/worker.go): its fields, and its
    functions run without interference.  The results the methods promise are functions
    of the old fields, and SequentialProcessJob and SequentialDispatch show that the
    transition system in ClonePool takes the same old state to the same new one.
  */
module CloneWorker {
  import opened Wrappers
  import opened DispatchLine
  import opened ClonePool

  /** What the database, the configuration and git answer while one job is processed. */
  datatype Answers = Answers(repoFound: bool, pathInTree: bool, hostBlocked: bool, credentialsOk: bool, gitOk: bool,
                             retry: Option<Job>)

  predicate RejectedEarly(a: Answers) {
    !a.repoFound || !a.pathInTree || a.hostBlocked
  }

  /** The row's status after processJob, as the comments around each write promise it. */
  function Verdict(before: Status, contended: bool, stopped: bool, a: Answers): Status {
    if before.Cancelled? then Cancelled
    else if RejectedEarly(a) then Failed
    else if contended then Pending
    else if !a.credentialsOk then Failed
    else if a.gitOk then Success
    else if stopped then Pending
    else Failed
  }

  /** The retry row's timer or the deferral's, if processJob arms one. */
  function Armed(before: Status, job: Job, contended: bool, stopped: bool, a: Answers): Option<Job> {
    if before.Cancelled? || RejectedEarly(a) then None
    else if contended then Some(job)
    else if a.credentialsOk && !a.gitOk && !stopped then a.retry
    else None
  }

  function RowsAfter(rows: Rows, job: Job, contended: bool, stopped: bool, a: Answers): Rows
    requires job in rows
  {
    var settled := rows[job := Verdict(rows[job], contended, stopped, a)];
    var armed := Armed(rows[job], job, contended, stopped, a);
    if armed.Some? && armed.value != job then settled[armed.value := Pending] else settled
  }

  function TimersAfter(timers: multiset<Job>, armed: Option<Job>): multiset<Job> {
    if armed.Some? then timers + multiset{armed.value} else timers
  }

  lemma {:induction false} RunSnoc(s: State, steps: seq<Step>, m: State, step: Step)
    requires Run(s, steps, m) && Guard(m, step)
    ensures Run(s, steps + [step], Do(m, step))
    decreases |steps|
  {
    hide Guard, Do;
    if steps == [] {
      assert ([] + [step])[1..] == [];
    } else {
      RunSnoc(Do(s, steps[0]), steps[1..], m, step);
      assert (steps + [step])[1..] == steps[1..] + [step];
    }
  }

  // One run extended by one step, with the step's effect written out.
  lemma ThenWork(s0: State, log: seq<Step>, m: State, i: nat, w: WorkStep, t: State)
    requires Run(s0, log, m) && Guard(m, Work(i, w)) && t == DoWork(m, i, w)
    ensures Run(s0, log + [Work(i, w)], t)
  {
    RunSnoc(s0, log, m, Work(i, w));
  }

  lemma ThenReject(s0: State, log: seq<Step>, m: State, i: nat, j: Job)
    requires Run(s0, log, m) && i < |m.workers| && (m.workers[i] == Started(j) || m.workers[i] == Git(j)) && j in m.rows
    ensures Run(s0, log + [Work(i, Reject)],
                m.(rows := Write(m.rows, j, Failed), done := m.done + multiset{j},
                   workers := m.workers[i := if m.workers[i].Started? then Leaving else Wrapping(j.path)]))
  {
    ThenWork(s0, log, m, i, Reject, DoWork(m, i, Reject));
  }

  lemma ThenLock(s0: State, log: seq<Step>, m: State, i: nat, j: Job)
    requires Run(s0, log, m) && i < |m.workers| && m.workers[i] == Started(j) && j in m.rows
    ensures Run(s0, log + [Work(i, TryPath)],
                if j.path in m.locks then m.(workers := m.workers[i := Contended(j)])
                else m.(workers := m.workers[i := Locked(j)], locks := m.locks[j.path := i]))
  {
    ThenWork(s0, log, m, i, TryPath, DoWork(m, i, TryPath));
  }

  lemma ThenDefer(s0: State, log: seq<Step>, m: State, i: nat, j: Job)
    requires Run(s0, log, m) && i < |m.workers| && m.workers[i] == Contended(j) && j in m.rows
    ensures Run(s0, log + [Work(i, Defer)],
                if m.rows[j].Cancelled? then m.(workers := m.workers[i := Leaving], done := m.done + multiset{j})
                else m.(workers := m.workers[i := Leaving], rows := m.rows[j := Pending],
                    timers := m.timers + multiset{j}))
  {
    ThenWork(s0, log, m, i, Defer, DoWork(m, i, Defer));
  }

  lemma ThenRun(s0: State, log: seq<Step>, m: State, i: nat, j: Job)
    requires Run(s0, log, m) && i < |m.workers| && m.workers[i] == Locked(j) && j in m.rows
    ensures Run(s0, log + [Work(i, MarkRunning)],
                if m.rows[j].Cancelled? then m.(workers := m.workers[i := Wrapping(j.path)],
                    done := m.done + multiset{j})
                else m.(workers := m.workers[i := Git(j)], rows := m.rows[j := Running]))
  {
    ThenWork(s0, log, m, i, MarkRunning, DoWork(m, i, MarkRunning));
  }

  lemma ThenSucceed(s0: State, log: seq<Step>, m: State, i: nat, j: Job)
    requires Run(s0, log, m) && i < |m.workers| && m.workers[i] == Git(j) && j in m.rows
    ensures Run(s0, log + [Work(i, GitSucceeds)],
                m.(rows := Write(m.rows, j, Success), done := m.done + multiset{j},
                    workers := m.workers[i := Wrapping(j.path)]))
  {
    ThenWork(s0, log, m, i, GitSucceeds, DoWork(m, i, GitSucceeds));
  }

  lemma ThenError(s0: State, log: seq<Step>, m: State, i: nat, j: Job)
    requires Run(s0, log, m) && i < |m.workers| && m.workers[i] == Git(j) && j in m.rows
    ensures Run(s0, log + [Work(i, GitFails)],
                m.(workers := m.workers[i := if m.stop.cancelled then Interrupted(j) else Failing(j)]))
  {
    ThenWork(s0, log, m, i, GitFails, DoWork(m, i, GitFails));
  }

  lemma ThenRequeue(s0: State, log: seq<Step>, m: State, i: nat, j: Job)
    requires Run(s0, log, m) && i < |m.workers| && m.workers[i] == Interrupted(j) && j in m.rows
              && !m.rows[j].Cancelled?
    ensures Run(s0, log + [Work(i, Requeue)],
                m.(rows := m.rows[j := Pending], left := m.left + multiset{j},
                    workers := m.workers[i := Wrapping(j.path)]))
  {
    ThenWork(s0, log, m, i, Requeue, DoWork(m, i, Requeue));
  }

  lemma ThenFail(s0: State, log: seq<Step>, m: State, i: nat, j: Job, retry: Option<Job>)
    requires Run(s0, log, m) && i < |m.workers| && m.workers[i] == Failing(j) && j in m.rows && !m.rows[j].Cancelled?
    requires retry.Some? ==> retry.value !in m.rows
    ensures Run(s0, log + [Work(i, Fail(retry))],
                m.(rows := if retry.Some? then m.rows[j := Failed][retry.value := Pending] else m.rows[j := Failed],
                   timers := if retry.Some? then m.timers + multiset{retry.value} else m.timers,
                   done := m.done + multiset{j}, workers := m.workers[i := Wrapping(j.path)]))
  {
    ThenWork(s0, log, m, i, Fail(retry), DoWork(m, i, Fail(retry)));
  }

  lemma ThenUnlock(s0: State, log: seq<Step>, m: State, i: nat, path: string)
    requires Run(s0, log, m) && i < |m.workers| && m.workers[i] == Wrapping(path)
    ensures Run(s0, log + [Work(i, Unlock)], m.(locks := m.locks - {path}, workers := m.workers[i := Leaving]))
  {
    ThenWork(s0, log, m, i, Unlock, DoWork(m, i, Unlock));
  }

  lemma ThenFinish(s0: State, log: seq<Step>, m: State, i: nat)
    requires Run(s0, log, m) && i < |m.workers| && m.workers[i] == Leaving
    ensures Run(s0, log + [Work(i, Finish)], m.(inflight := m.inflight - 1, workers := m.workers[i := Idle]))
  {
    ThenWork(s0, log, m, i, Finish, DoWork(m, i, Finish));
  }

  lemma RowsAfterEarlyExit(rows: Rows, job: Job, contended: bool, stopped: bool, a: Answers)
    requires job in rows
    ensures RejectedEarly(a) ==>
              RowsAfter(rows, job, contended, stopped, a) == Write(rows, job, Failed)
                  && Armed(rows[job], job, contended, stopped, a) == None
    ensures !RejectedEarly(a) && contended ==>
              && RowsAfter(rows, job, contended, stopped, a) == Write(rows, job, Pending)
              && Armed(rows[job], job, contended, stopped, a) == if rows[job].Cancelled? then None else Some(job)
  {
    assert rows[job].Cancelled? ==> rows[job := Cancelled] == rows;
  }

  // What is left and armed once git has run: success exactly if git succeeded, pending exactly
  // if the stop interrupted it, and otherwise a failure with its retry.
  ghost predicate GitDecides(rows: Rows, job: Job, stopped: bool, a: Answers, rows': Rows) {
    && job in rows' && (forall k :: k in rows && k != job ==> k in rows' && rows'[k] == rows[k])
    && (rows'[job] == Success <==> a.gitOk)
    && (rows'[job] == Pending <==> !a.gitOk && stopped)
    && (rows'[job] == Failed <==> !a.gitOk && !stopped)
    && (forall k :: k !in rows ==> (k in rows' <==> !a.gitOk && !stopped && a.retry == Some(k)))
    && (forall k :: k !in rows && k in rows' ==> rows'[k] == Pending)
  }

  /** The outcome in the source's own terms: a cancelled row is left as it is, a refused job
      fails before git, a contended one goes back to pending with its timer, one without usable
      credentials fails, and otherwise git decides. */
  lemma OutcomeOfJob(rows: Rows, job: Job, contended: bool, stopped: bool, a: Answers)
    requires job in rows && (a.retry.Some? ==> a.retry.value !in rows)
    ensures var (rows', armed) := (RowsAfter(rows, job, contended, stopped, a),
                                   Armed(rows[job], job, contended, stopped, a));
            if rows[job] == Cancelled then rows' == rows && armed == None
            else if !a.repoFound || !a.pathInTree || a.hostBlocked then rows' == rows[job := Failed] && armed == None
            else if contended then rows' == rows[job := Pending] && armed == Some(job)
            else if !a.credentialsOk then rows' == rows[job := Failed] && armed == None
            else GitDecides(rows, job, stopped, a, rows') && armed == if a.gitOk || stopped then None else a.retry
  {
    assert rows[job].Cancelled? ==> rows[job := Cancelled] == rows;
  }

  lemma RowsAfterGit(rows: Rows, timers: multiset<Job>, job: Job, stopped: bool, a: Answers)
    requires job in rows && !RejectedEarly(a) && (a.retry.Some? ==> a.retry.value !in rows)
    ensures RowsAfter(rows, job, false, stopped, a) ==
              if rows[job].Cancelled? then rows
              else if !a.credentialsOk then rows[job := Failed]
              else if a.gitOk then rows[job := Success]
              else if stopped then rows[job := Pending]
              else if a.retry.Some? then rows[job := Failed][a.retry.value := Pending]
              else rows[job := Failed]
    ensures TimersAfter(timers, Armed(rows[job], job, false, stopped, a)) ==
              if rows[job].Cancelled? || !a.credentialsOk || a.gitOk || stopped || a.retry.None? then timers
              else timers + multiset{a.retry.value}
  {
    assert rows[job].Cancelled? ==> rows[job := Cancelled] == rows;
  }

  /** processJob run to its end by worker i, as a run of the pool in which git succeeds exactly
      if it runs and answers so, and fails exactly if it runs and does not. */
  lemma SequentialProcessJob(s: State, i: nat, job: Job, a: Answers) returns (steps: seq<Step>, t: State)
    requires i < |s.workers| && s.workers[i] == Started(job) && job in s.rows
    requires a.retry.Some? ==> a.retry.value !in s.rows
    ensures Run(s, steps, t)
    ensures t.rows == RowsAfter(s.rows, job, job.path in s.locks, s.stop.cancelled, a)
    ensures t.timers == TimersAfter(s.timers, Armed(s.rows[job], job, job.path in s.locks, s.stop.cancelled, a))
    ensures t.locks == s.locks && t.inflight == s.inflight - 1 && t.workers == s.workers[i := Idle]
    ensures t.line == s.line && t.stop == s.stop
    ensures var gitRuns := s.rows[job] != Cancelled && a.repoFound && a.pathInTree && !a.hostBlocked
                           && job.path !in s.locks && a.credentialsOk;
            && (Work(i, GitSucceeds) in steps <==> gitRuns && a.gitOk)
            && (Work(i, GitFails) in steps <==> gitRuns && !a.gitOk)
  {
    hide Run, Guard, Do, DoWork, CanWork, WorkEffect;
    steps, t := [], s;
    RunNothing(s);
    if RejectedEarly(a) {
      ThenReject(s, steps, t, i, job);
      steps, t := steps + [Work(i, Reject)],
          t.(rows := Write(t.rows, job, Failed), done := t.done + multiset{job}, workers := t.workers[i := Leaving]);
    } else if job.path in s.locks {
      ThenLock(s, steps, t, i, job);
      steps, t := steps + [Work(i, TryPath)], t.(workers := t.workers[i := Contended(job)]);
      ThenDefer(s, steps, t, i, job);
      steps := steps + [Work(i, Defer)];
      t := if t.rows[job].Cancelled? then t.(workers := t.workers[i := Leaving], done := t.done + multiset{job})
           else t.(workers := t.workers[i := Leaving], rows := t.rows[job := Pending],
               timers := t.timers + multiset{job});
    } else {
      ThenLock(s, steps, t, i, job);
      steps, t := steps + [Work(i, TryPath)],
          t.(workers := t.workers[i := Locked(job)], locks := t.locks[job.path := i]);
      steps, t := SequentialGit(s, steps, t, i, job, a);
      ThenUnlock(s, steps, t, i, job.path);
      steps, t := steps + [Work(i, Unlock)], t.(locks := t.locks - {job.path}, workers := t.workers[i := Leaving]);
      assert t.locks == s.locks;
    }
    ThenFinish(s, steps, t, i);
    steps, t := steps + [Work(i, Finish)], t.(inflight := t.inflight - 1, workers := t.workers[i := Idle]);
  }

  lemma RunNothing(s: State)
    ensures Run(s, [], s)
  {
  }

  // The part of processJob between TryLock and the deferred unlock.
  lemma SequentialGit(s: State, log: seq<Step>, m: State, i: nat, job: Job, a: Answers)
      returns (steps: seq<Step>, t: State)
    requires Run(s, log, m) && i < |m.workers| && m.workers[i] == Locked(job) && job in m.rows && !RejectedEarly(a)
    requires a.retry.Some? ==> a.retry.value !in m.rows
    ensures Run(s, steps, t)
    ensures t.rows == RowsAfter(m.rows, job, false, m.stop.cancelled, a)
    ensures t.timers == TimersAfter(m.timers, Armed(m.rows[job], job, false, m.stop.cancelled, a))
    ensures t.workers == m.workers[i := Wrapping(job.path)]
    ensures t.locks == m.locks && t.inflight == m.inflight && t.line == m.line && t.stop == m.stop
    ensures var gitRuns := m.rows[job] != Cancelled && a.credentialsOk;
            && (Work(i, GitSucceeds) in steps <==> Work(i, GitSucceeds) in log || (gitRuns && a.gitOk))
            && (Work(i, GitFails) in steps <==> Work(i, GitFails) in log || (gitRuns && !a.gitOk))
  {
    hide Run, Guard, Do, DoWork, CanWork, WorkEffect;
    ThenRun(s, log, m, i, job);
    steps := log + [Work(i, MarkRunning)];
    if m.rows[job].Cancelled? {
      t := m.(workers := m.workers[i := Wrapping(job.path)], done := m.done + multiset{job});
      return;
    }
    var r := m.(workers := m.workers[i := Git(job)], rows := m.rows[job := Running]);
    if !a.credentialsOk {
      ThenReject(s, steps, r, i, job);
      steps := steps + [Work(i, Reject)];
      t := r.(rows := r.rows[job := Failed], done := r.done + multiset{job},
          workers := r.workers[i := Wrapping(job.path)]);
    } else if a.gitOk {
      ThenSucceed(s, steps, r, i, job);
      steps := steps + [Work(i, GitSucceeds)];
      t := r.(rows := r.rows[job := Success], done := r.done + multiset{job},
          workers := r.workers[i := Wrapping(job.path)]);
    } else {
      steps, t := SequentialError(s, steps, r, i, job, a.retry);
    }
  }

  lemma SequentialError(s: State, log: seq<Step>, r: State, i: nat, job: Job, retry: Option<Job>)
      returns (steps: seq<Step>, t: State)
    requires Run(s, log, r) && i < |r.workers| && r.workers[i] == Git(job) && job in r.rows && r.rows[job].Running?
    requires retry.Some? ==> retry.value !in r.rows
    ensures Run(s, steps, t)
    ensures t.rows == if r.stop.cancelled then r.rows[job := Pending]
                      else if retry.Some? then r.rows[job := Failed][retry.value := Pending] else r.rows[job := Failed]
    ensures t.timers == TimersAfter(r.timers, if r.stop.cancelled then None else retry)
    ensures t.workers == r.workers[i := Wrapping(job.path)]
    ensures t.locks == r.locks && t.inflight == r.inflight && t.line == r.line && t.stop == r.stop
    ensures Work(i, GitFails) in steps && (Work(i, GitSucceeds) in steps <==> Work(i, GitSucceeds) in log)
  {
    hide Run, Guard, Do, DoWork, CanWork, WorkEffect;
    ThenError(s, log, r, i, job);
    var e := r.(workers := r.workers[i := if r.stop.cancelled then Interrupted(job) else Failing(job)]);
    if r.stop.cancelled {
      ThenRequeue(s, log + [Work(i, GitFails)], e, i, job);
      steps := log + [Work(i, GitFails)] + [Work(i, Requeue)];
      t := e.(rows := e.rows[job := Pending], left := e.left + multiset{job},
          workers := e.workers[i := Wrapping(job.path)]);
    } else {
      ThenFail(s, log + [Work(i, GitFails)], e, i, job, retry);
      steps := log + [Work(i, GitFails)] + [Work(i, Fail(retry))];
      t := e.(rows := if retry.Some? then e.rows[job := Failed][retry.value := Pending] else e.rows[job := Failed],
              timers := TimersAfter(e.timers, retry), done := e.done + multiset{job},
                  workers := e.workers[i := Wrapping(job.path)]);
    }
  }

  lemma ScanThenSend(l: Line, more: seq<LineStep>, m: Line)
    requires l.disp.Scanning? && l.backlog != [] && |l.chan| < QUEUE_CAPACITY
    requires LineRun(Next(Next(l, Scan), Send), more, m)
    ensures LineRun(l, [Scan, Send] + more, m)
  {
    var steps := [Scan, Send] + more;
    assert steps[1..] == [Send] + more && steps[1..][1..] == more;
  }

  /** dispatch run until it parks, as a run of the line: as much of the backlog as
      fits has moved to the channel, in order. */
  lemma {:induction false} SequentialDispatch(l: Line) returns (steps: seq<LineStep>, m: Line)
    requires l.disp.Scanning? && |l.chan| <= QUEUE_CAPACITY
    ensures LineRun(l, steps, m) && m.chan + Hand(m.disp) + m.backlog == l.chan + l.backlog
    ensures if m.disp.Waiting? then m.backlog == [] else m.disp.Sending? && |m.chan| == QUEUE_CAPACITY
    decreases |l.backlog|
  {
    if l.backlog == [] || |l.chan| == QUEUE_CAPACITY {
      steps, m := [Scan], Next(l, Scan);
      assert LineRun(m, [], m) && steps[1..] == [];
      assert l.backlog != [] ==> l.backlog == [l.backlog[0]] + l.backlog[1..];
    } else {
      var l2 := Next(Next(l, Scan), Send);
      assert l2.chan + l2.backlog == l.chan + l.backlog;
      steps, m := SequentialDispatch(l2);
      ScanThenSend(l, steps, m);
      steps := [Scan, Send] + steps;
    }
  }

  class Pool {
    var rows: Rows
    var pending: seq<Job>
    var notify: bool
    var jobQueue: seq<Job>
    var repoLocks: set<string>
    var inflight: int
    var softStop: bool
    var stopping: bool
    var ctxDone: bool
    ghost var timers: multiset<Job>  // enqueueAfter goroutines alive

    constructor ()
      ensures rows == map[] && pending == [] && jobQueue == [] && repoLocks == {} && inflight == 0
                && timers == multiset{}
      ensures !notify && !softStop && !stopping && !ctxDone
    {
      rows, pending, notify, jobQueue := map[], [], false, [];
      repoLocks, inflight, softStop, stopping, ctxDone := {}, 0, false, false, false;
      timers := multiset{};
    }

    method Enqueue(job: Job)
      modifies this`pending, this`notify
      ensures pending == old(pending) + [job] && notify
    {
      pending := pending + [job];
      if !notify {
        notify := true;
      }
    }

    /** dispatch, from the top of its loop until it parks or returns, with the job it then
        holds: nothing is lost and nothing reordered; it returns exactly when a stop has
        been signalled, and otherwise parks only on an empty backlog without a token or on
        a full channel.  `stopFirst` says which select, of those that could also go on,
        takes the stop branch. */
    method Dispatch(stopFirst: nat -> bool) returns (held: Option<Job>, exited: bool)
      requires |jobQueue| <= QUEUE_CAPACITY
      modifies this`pending, this`jobQueue, this`notify
      ensures jobQueue + (if held.Some? then [held.value] else []) + pending == old(jobQueue) + old(pending)
      ensures exited <==> softStop || ctxDone
      ensures !exited ==> if held.None? then pending == [] && !notify else |jobQueue| == 128
      ensures |jobQueue| <= QUEUE_CAPACITY
    {
      held := None;
      var selects := 0;
      while true
        invariant |jobQueue| <= QUEUE_CAPACITY && held.None?
        invariant jobQueue + pending == old(jobQueue) + old(pending)
        decreases |pending|, notify
      {
        var stop := softStop || ctxDone;
        var stopNow := stop && stopFirst(selects);
        selects := selects + 1;
        if pending == [] {
          if notify && !stopNow {
            notify := false;
            continue;
          }
          return None, stop;
        }
        var job := pending[0];
        assert pending == [job] + pending[1..];
        pending := pending[1..];
        if |jobQueue| < QUEUE_CAPACITY && !stopNow {
          jobQueue := jobQueue + [job];
        } else {
          return Some(job), stop;
        }
      }
    }

    method Admit() returns (ok: bool)
      modifies this`inflight
      ensures ok <==> !stopping
      ensures inflight == old(inflight) + (if ok then 1 else 0)
    {
      if stopping {
        return false;
      }
      inflight := inflight + 1;
      ok := true;
    }

    method FailJob(job: Job)
      requires job in rows
      modifies this`rows
      ensures rows == Write(old(rows), job, Failed)
    {
      if !rows[job].Cancelled? {
        rows := rows[job := Failed];
      }
    }

    /** processJob: it settles, defers or hands back its job, gives back exactly what
        it took, and touches no other row but the retry it may create. */
    method ProcessJob(job: Job, a: Answers)
      requires job in rows && (a.retry.Some? ==> a.retry.value !in rows)
      modifies this`rows, this`repoLocks, this`inflight, this`timers
      ensures rows == RowsAfter(old(rows), job, job.path in old(repoLocks), ctxDone, a)
      ensures timers == TimersAfter(old(timers), Armed(old(rows)[job], job, job.path in old(repoLocks), ctxDone, a))
      ensures repoLocks == old(repoLocks) && inflight == old(inflight) - 1
      ensures old(rows)[job] == Cancelled ==> rows == old(rows) && timers == old(timers)
      ensures old(rows)[job] != Cancelled && (!a.repoFound || !a.pathInTree || a.hostBlocked) ==>
                rows == old(rows)[job := Failed] && timers == old(timers)
      ensures old(rows)[job] != Cancelled && a.repoFound && a.pathInTree && !a.hostBlocked && job.path in repoLocks ==>
                rows == old(rows)[job := Pending] && timers == old(timers) + multiset{job}
      ensures old(rows)[job] != Cancelled && a.repoFound && a.pathInTree && !a.hostBlocked && job.path !in repoLocks ==>
                if !a.credentialsOk then rows == old(rows)[job := Failed] && timers == old(timers)
                else && GitDecides(old(rows), job, ctxDone, a, rows)
                     && timers == if a.gitOk || ctxDone || a.retry.None? then old(timers)
                                  else old(timers) + multiset{a.retry.value}
    {
      OutcomeOfJob(rows, job, job.path in repoLocks, ctxDone, a);
      RowsAfterEarlyExit(rows, job, job.path in repoLocks, ctxDone, a);
      hide RowsAfter, Write, Armed;
      if !a.repoFound || !a.pathInTree || a.hostBlocked {
        FailJob(job);
      } else if job.path in repoLocks {
        DeferJob(job);
      } else {
        LockAndRun(job, a);
      }
      inflight := inflight - 1;
    }

    method LockAndRun(job: Job, a: Answers)
      requires job in rows && (a.retry.Some? ==> a.retry.value !in rows) && !RejectedEarly(a) && job.path !in repoLocks
      modifies this`rows, this`timers, this`repoLocks
      ensures rows == RowsAfter(old(rows), job, false, ctxDone, a)
      ensures timers == TimersAfter(old(timers), Armed(old(rows)[job], job, false, ctxDone, a))
      ensures repoLocks == old(repoLocks)
    {
      ghost var before := repoLocks;
      RowsAfterGit(rows, timers, job, ctxDone, a);
      hide RowsAfter, Armed, TimersAfter;
      repoLocks := repoLocks + {job.path};
      RunGit(job, a);
      repoLocks := repoLocks - {job.path};
      assert repoLocks == before;
    }

    method DeferJob(job: Job)
      requires job in rows
      modifies this`rows, this`timers
      ensures rows == Write(old(rows), job, Pending)
      ensures timers == if old(rows)[job].Cancelled? then old(timers) else old(timers) + multiset{job}
    {
      if !rows[job].Cancelled? {
        rows := rows[job := Pending];
        timers := timers + multiset{job};
      }
    }

    // processJob with the path locked.
    method RunGit(job: Job, a: Answers)
      requires job in rows && (a.retry.Some? ==> a.retry.value !in rows) && job.path in repoLocks
      modifies this`rows, this`timers
      ensures rows == if old(rows)[job] == Cancelled then old(rows)
                      else if !a.credentialsOk then old(rows)[job := Failed]
                      else if a.gitOk then old(rows)[job := Success]
                      else if ctxDone then old(rows)[job := Pending]
                      else if a.retry.Some? then old(rows)[job := Failed][a.retry.value := Pending]
                      else old(rows)[job := Failed]
      ensures timers == if old(rows)[job] == Cancelled || !a.credentialsOk || a.gitOk || ctxDone || a.retry.None?
                        then old(timers) else old(timers) + multiset{a.retry.value}
    {
      if rows[job].Cancelled? {
        return;
      }
      rows := rows[job := Running];
      FinishGit(job, a);
    }

    // The git operation, run only under the lock and a running row, and what follows it.
    method FinishGit(job: Job, a: Answers)
      requires job in rows && rows[job] == Running && job.path in repoLocks
      requires a.retry.Some? ==> a.retry.value !in rows
      modifies this`rows, this`timers
      ensures rows == if !a.credentialsOk then old(rows)[job := Failed]
                      else if a.gitOk then old(rows)[job := Success]
                      else if ctxDone then old(rows)[job := Pending]
                      else if a.retry.Some? then old(rows)[job := Failed][a.retry.value := Pending]
                      else old(rows)[job := Failed]
      ensures timers == if !a.credentialsOk || a.gitOk || ctxDone || a.retry.None? then old(timers)
                        else old(timers) + multiset{a.retry.value}
    {
      if !a.credentialsOk {
        FailJob(job);
      } else if !a.gitOk && ctxDone {
        rows := rows[job := Pending];
      } else if !a.gitOk {
        FailJob(job);
        if a.retry.Some? {
          rows := rows[a.retry.value := Pending];
          timers := timers + multiset{a.retry.value};
        }
      } else {
        rows := rows[job := Success];
      }
    }

    /** CancelCloneJob: only an unfinished row is cancelled; anything else is refused
        and left alone. */
    method CancelJob(job: Job) returns (ok: bool)
      modifies this`rows
      ensures ok <==> job in old(rows) && (old(rows)[job].Pending? || old(rows)[job].Running?)
      ensures rows == if ok then old(rows)[job := Cancelled] else old(rows)
    {
      ok := job in rows && (rows[job].Pending? || rows[job].Running?);
      if ok {
        rows := rows[job := Cancelled];
      }
    }
  }
}
