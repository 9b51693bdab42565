/** Everyone who inserts clone jobs, a step at a time: the scheduler tick
    (internal/gitops/scheduler.go) and CreateCloneJob (internal/services/clone_service.go)
    look first and insert later; handleFailure (internal/gitops/worker.go) inserts its retry
    without a look.
  */
module JobWriters {
  import opened Wrappers
  import opened ClonePool
  import opened Scheduler

  /** What a writer has seen and not acted on yet: CreateCloneJob one idle repository, a tick
      the set of busy ones (to which it adds those it has served). */
  datatype Intent = OneRepo(repo: RepoId) | AllBut(busy: set<RepoId>)

  datatype World = World(
    jobs: Jobs,
    seen: map<nat, Intent>,
    attempting: set<JobId>,      // a worker runs git for the job
    failing: set<JobId>)         // between failJob and handleFailure's insert

  datatype Step =
    | LookUp(p: nat, repo: RepoId)            // CreateCloneJob finds no unfinished job
    | TickLooks(p: nat)                       // a tick loads the busy set
    | InsertSeen(p: nat, repo: RepoId, id: JobId)
    | Turn(p: nat)                            // the writer is done, or its insert failed
    | Attempt(j: JobId)
    | Requeue(j: JobId)                       // deferral, or interrupted by shutdown
    | Succeed(j: JobId)
    | FailJob(j: JobId)
    | InsertRetry(j: JobId, id: JobId)        // handleFailure, without a look
    | GiveUp(j: JobId)
    | CancelJob(j: JobId)

  predicate Allows(i: Intent, repo: RepoId) {
    match i
    case OneRepo(r) => r == repo
    case AllBut(busy) => repo !in busy
  }

  // While a worker attempts a job its row is running, or cancelled under way.
  predicate Attempts(w: World, j: JobId) {
    j in w.attempting && j in w.jobs && (w.jobs[j].status.Running? || w.jobs[j].status.Cancelled?)
  }

  predicate Guard(w: World, step: Step) {
    match step
    case LookUp(p, repo) => p !in w.seen && repo !in BusyRepos(w.jobs)
    case TickLooks(p) => p !in w.seen
    case InsertSeen(p, repo, id) => p in w.seen && Allows(w.seen[p], repo) && id !in w.jobs
    case Turn(p) => p in w.seen
    case Attempt(j) => j in w.jobs && w.jobs[j].status.Pending? && j !in w.attempting
    case Requeue(j) => Attempts(w, j)
    case Succeed(j) => Attempts(w, j)
    case FailJob(j) => Attempts(w, j)
    case InsertRetry(j, id) => j in w.failing && j in w.jobs && id !in w.jobs
    case GiveUp(j) => j in w.failing
    case CancelJob(j) => j in w.jobs && Unfinished(w.jobs[j])
  }

  // A worker's write, conditional on the row not being cancelled.
  function Write(jobs: Jobs, j: JobId, st: Status): Jobs
    requires j in jobs
  {
    if jobs[j].status.Cancelled? then jobs else jobs[j := jobs[j].(status := st)]
  }

  function Do(w: World, step: Step): World
    requires Guard(w, step)
  {
    match step
    case LookUp(p, repo) => w.(seen := w.seen[p := OneRepo(repo)])
    case TickLooks(p) => w.(seen := w.seen[p := AllBut(BusyRepos(w.jobs))])
    case InsertSeen(p, repo, id) =>
      w.(jobs := w.jobs[id := JobRow(repo, Pending)],
         seen := if w.seen[p].AllBut? then w.seen[p := AllBut(w.seen[p].busy + {repo})] else w.seen - {p})
    case Turn(p) => w.(seen := w.seen - {p})
    case Attempt(j) => w.(jobs := Write(w.jobs, j, Running), attempting := w.attempting + {j})
    case Requeue(j) => w.(jobs := Write(w.jobs, j, Pending), attempting := w.attempting - {j})
    case Succeed(j) => w.(jobs := Write(w.jobs, j, Success), attempting := w.attempting - {j})
    case FailJob(j) => w.(jobs := Write(w.jobs, j, Failed), attempting := w.attempting - {j},
        failing := w.failing + {j})
    case InsertRetry(j, id) => w.(jobs := w.jobs[id := JobRow(w.jobs[j].repo, Pending)], failing := w.failing - {j})
    case GiveUp(j) => w.(failing := w.failing - {j})
    case CancelJob(j) => w.(jobs := w.jobs[j := w.jobs[j].(status := Cancelled)])
  }

  ghost predicate Run(w: World, steps: seq<Step>, t: World)
    decreases |steps|
  {
    if steps == [] then w == t else Guard(w, steps[0]) && Run(Do(w, steps[0]), steps[1..], t)
  }

  /** A row is inserted for a repository that has an unfinished one at that moment. */
  predicate Collides(w: World, step: Step)
    requires Guard(w, step)
  {
    match step
    case InsertSeen(_, repo, _) => repo in BusyRepos(w.jobs)
    case InsertRetry(j, _) => w.jobs[j].repo in BusyRepos(w.jobs)
    case _ => false
  }

  // Fewer rows are unfinished, and each keeps its repository.
  lemma FewerUnfinished(jobs: Jobs, jobs': Jobs)
    requires OneUnfinished(jobs)
    requires forall j :: j in jobs' && Unfinished(jobs'[j]) ==>
              j in jobs && Unfinished(jobs[j]) && jobs[j].repo == jobs'[j].repo
    ensures OneUnfinished(jobs')
  {
  }

  lemma StepKeepsOneExactly(w: World, step: Step)
    requires OneUnfinished(w.jobs) && Guard(w, step)
    ensures OneUnfinished(Do(w, step).jobs) <==> !Collides(w, step)
  {
    match step
    case InsertSeen(_, repo, id) => CreateKeepsOneUnfinished(w.jobs, repo, id);
    case InsertRetry(j, id) => CreateKeepsOneUnfinished(w.jobs, w.jobs[j].repo, id);
    case _ =>
      hide BusyRepos, Allows;
      assert !Collides(w, step);
      StatusSteps(w, step);
      FewerUnfinished(w.jobs, Do(w, step).jobs);
  }

  lemma StatusSteps(w: World, step: Step)
    requires Guard(w, step) && !step.InsertSeen? && !step.InsertRetry?
    ensures var jobs' := Do(w, step).jobs;
            forall j :: j in jobs' && Unfinished(jobs'[j]) ==>
                j in w.jobs && Unfinished(w.jobs[j]) && w.jobs[j].repo == jobs'[j].repo
  {
    hide BusyRepos, Allows;
  }

  ghost predicate AlwaysOne(w: World, steps: seq<Step>, t: World)
    requires Run(w, steps, t)
    decreases |steps|
  {
    OneUnfinished(w.jobs) && (steps == [] || AlwaysOne(Do(w, steps[0]), steps[1..], t))
  }

  ghost predicate NeverCollides(w: World, steps: seq<Step>, t: World)
    requires Run(w, steps, t)
    decreases |steps|
  {
    steps == [] || (!Collides(w, steps[0]) && NeverCollides(Do(w, steps[0]), steps[1..], t))
  }

  /** Exactly, over every run of all three writers with their looks and inserts apart: each
      repository has at most one unfinished job throughout if and only if no row is inserted
      while its repository has one. */
  lemma {:induction false} OneUnfinishedExactly(w: World, steps: seq<Step>, t: World)
    requires OneUnfinished(w.jobs) && Run(w, steps, t)
    ensures AlwaysOne(w, steps, t) <==> NeverCollides(w, steps, t)
    decreases |steps|
  {
    if steps != [] {
      StepKeepsOneExactly(w, steps[0]);
      hide OneUnfinished, Guard, Do, Collides;
      if OneUnfinished(Do(w, steps[0]).jobs) {
        OneUnfinishedExactly(Do(w, steps[0]), steps[1..], t);
      }
    }
  }

  // Unfinished rows were there before, unfinished and of the same repository, or are new.
  lemma {:induction false} NothingRevives(w: World, steps: seq<Step>, t: World, j: JobId)
    requires Run(w, steps, t) && j in w.jobs
    ensures j in t.jobs && t.jobs[j].repo == w.jobs[j].repo && (Unfinished(t.jobs[j]) ==> Unfinished(w.jobs[j]))
    decreases |steps|
  {
    if steps != [] {
      RowStays(w, steps[0], j);
      hide Guard, Do;
      NothingRevives(Do(w, steps[0]), steps[1..], t, j);
    }
  }

  lemma RowStays(w: World, step: Step, j: JobId)
    requires Guard(w, step) && j in w.jobs
    ensures var w' := Do(w, step);
            j in w'.jobs && w'.jobs[j].repo == w.jobs[j].repo && (Unfinished(w'.jobs[j]) ==> Unfinished(w.jobs[j]))
  {
    hide BusyRepos, Allows;
  }

  lemma IdleMeans(jobs: Jobs, repo: RepoId)
    requires repo !in BusyRepos(jobs)
    ensures forall j :: j in jobs && jobs[j].repo == repo ==> !Unfinished(jobs[j])
  {
    BusyMeans(jobs, repo);
    forall j | j in jobs && jobs[j].repo == repo ensures !Unfinished(jobs[j]) {
      assert j !in UnfinishedOf(jobs, repo);
    }
  }

  /** Exactly: a writer that saw the repository idle collides at its insert if and only if
      another row of the repository was inserted since its look and is still unfinished. */
  lemma LateInsertCollidesExactly(w: World, steps: seq<Step>, t: World, p: nat, repo: RepoId, id: JobId)
    requires repo !in BusyRepos(w.jobs) && Run(w, steps, t) && Guard(t, InsertSeen(p, repo, id))
    ensures Collides(t, InsertSeen(p, repo, id))
            <==> exists j :: j in t.jobs && j !in w.jobs && t.jobs[j].repo == repo && Unfinished(t.jobs[j])
  {
    if repo in BusyRepos(t.jobs) {
      var j :| j in t.jobs && Unfinished(t.jobs[j]) && t.jobs[j].repo == repo;
      IdleMeans(w.jobs, repo);
      assert j !in w.jobs by {
        if j in w.jobs {
          NothingRevives(w, steps, t, j);
        }
      }
    }
  }

  /** A look and the insert right after it cannot collide. */
  lemma LookThenInsert(w: World, p: nat, repo: RepoId, id: JobId)
    requires OneUnfinished(w.jobs) && Guard(w, LookUp(p, repo)) && id !in w.jobs
    ensures Guard(Do(w, LookUp(p, repo)), InsertSeen(p, repo, id))
    ensures OneUnfinished(Do(Do(w, LookUp(p, repo)), InsertSeen(p, repo, id)).jobs)
  {
    StepKeepsOneExactly(Do(w, LookUp(p, repo)), InsertSeen(p, repo, id));
  }

  /** handleFailure looks at nothing: its retry row, right after the failure, is safe exactly
      if the failed row was not cancelled under way, or nothing has taken its place. */
  lemma RetryIsSafeExactly(w: World, j: JobId, id: JobId)
    requires OneUnfinished(w.jobs) && Guard(w, FailJob(j)) && id !in w.jobs
    ensures Guard(Do(w, FailJob(j)), InsertRetry(j, id))
    ensures OneUnfinished(Do(Do(w, FailJob(j)), InsertRetry(j, id)).jobs)
            <==> w.jobs[j].status.Running? || w.jobs[j].repo !in BusyRepos(w.jobs)
  {
    var m := Do(w, FailJob(j));
    StepKeepsOneExactly(w, FailJob(j));
    StepKeepsOneExactly(m, InsertRetry(j, id));
    assert m.jobs == Write(w.jobs, j, Failed);
    assert w.jobs[j].status.Running? ==> w.jobs[j].repo !in BusyRepos(m.jobs);
  }

  lemma RunSnoc(w: World, steps: seq<Step>, m: World, step: Step)
    requires Run(w, steps, m) && Guard(m, step)
    ensures Run(w, steps + [step], Do(m, step))
    decreases |steps|
  {
    hide Guard, Do;
    if steps == [] {
      assert ([] + [step])[1..] == [];
    } else {
      RunSnoc(Do(w, steps[0]), steps[1..], m, step);
      assert (steps + [step])[1..] == steps[1..] + [step];
    }
  }

  // ------------------------------------------------------- the functions, as runs

  lemma {:induction false} InsertChosen(w: World, log: seq<Step>, m: World, p: nat, next: JobId, chosen: seq<RepoId>,
                                       k: nat)
      returns (steps: seq<Step>, t: World)
    requires k <= |chosen| && (forall x, y :: 0 <= x < y < |chosen| ==> chosen[x] != chosen[y])
    requires Run(w, log, m) && Ticked(w.jobs, next, chosen[..k], m.jobs)
    requires p in m.seen && m.seen[p].AllBut? && forall x :: k <= x < |chosen| ==> chosen[x] !in m.seen[p].busy
    ensures Run(w, steps, t) && Ticked(w.jobs, next, chosen, t.jobs)
    ensures t == m.(jobs := t.jobs, seen := t.seen) && t.seen - {p} == m.seen - {p} && p in t.seen
    decreases |chosen| - k
  {
    if k == |chosen| {
      assert chosen[..k] == chosen;
      steps, t := log, m;
    } else {
      var step := InsertSeen(p, chosen[k], next + k);
      TickGrows(w.jobs, next, chosen[..k], m.jobs, chosen[k]);
      assert chosen[..k] + [chosen[k]] == chosen[..k + 1];
      RunSnoc(w, log, m, step);
      hide Run, Ticked;
      assert Do(m, step).seen - {p} == m.seen - {p};
      steps, t := InsertChosen(w, log + [step], Do(m, step), p, next, chosen, k + 1);
    }
  }

  /** A tick serves a repository once, and never one it saw busy. */
  lemma TickServesOnce(w: World, p: nat, repo: RepoId, id: JobId, other: JobId)
    requires Guard(w, InsertSeen(p, repo, id)) && w.seen[p].AllBut?
    ensures repo !in w.seen[p].busy && !Guard(Do(w, InsertSeen(p, repo, id)), InsertSeen(p, repo, other))
    ensures forall r :: r !in w.seen[p].busy && r != repo && other !in w.jobs && other != id ==>
              Guard(Do(w, InsertSeen(p, repo, id)), InsertSeen(p, r, other))
  {
  }

  lemma TickedOnce(before: Jobs, next: JobId, chosen: seq<RepoId>, jobs: Jobs, jobs': Jobs)
    requires Ticked(before, next, chosen, jobs) && Ticked(before, next, chosen, jobs')
    ensures jobs == jobs'
  {
    assert forall j :: j in jobs <==> j in jobs';
  }

  /** A tick nobody interrupts is a run of these steps: its look, then an insert for each chosen
      repository. */
  lemma TickIsARun(w: World, p: nat, next: JobId, repos: seq<Repository>, now: int, inserted: RepoId -> bool,
                   after: Jobs)
      returns (steps: seq<Step>, t: World)
    requires p !in w.seen && DistinctIds(repos)
    requires Ticked(w.jobs, next, Chosen(repos, now, BusyRepos(w.jobs), inserted), after)
    ensures Run(w, steps, t) && t == w.(jobs := after)
  {
    var chosen := Chosen(repos, now, BusyRepos(w.jobs), inserted);
    ChosenOnce(repos, now, BusyRepos(w.jobs), inserted);
    forall x | 0 <= x < |chosen| ensures chosen[x] !in BusyRepos(w.jobs) {
      ChosenMembers(repos, now, BusyRepos(w.jobs), inserted, chosen[x]);
    }
    var m := Do(w, TickLooks(p));
    assert Run(w, [], w);
    RunSnoc(w, [], w, TickLooks(p));
    assert m.seen - {p} == w.seen;
    hide Run, Chosen, BusyRepos;
    steps, t := InsertChosen(w, [] + [TickLooks(p)], m, p, next, chosen, 0);
    TickedOnce(w.jobs, next, chosen, t.jobs, after);
    RunSnoc(w, steps, t, Turn(p));
    steps, t := steps + [Turn(p)], Do(t, Turn(p));
  }

  /** The ways an attempt ends: success, back to pending, and failure with or without a retry
      row; a cancelled row stays cancelled, and nothing is left under way. */
  lemma AttemptEnds(w: World, j: JobId, id: JobId)
    requires Attempts(w, j) && j !in w.failing && id !in w.jobs
    ensures var repo, kept := w.jobs[j].repo, w.jobs[j].status == Cancelled;
            var done := w.(attempting := w.attempting - {j});
            var failed := if kept then w.jobs else w.jobs[j := JobRow(repo, Failed)];
            && Run(w, [Succeed(j)], done.(jobs := if kept then w.jobs else w.jobs[j := JobRow(repo, Success)]))
            && Run(w, [Step.Requeue(j)], done.(jobs := if kept then w.jobs else w.jobs[j := JobRow(repo, Pending)]))
            && Run(w, [FailJob(j), GiveUp(j)], done.(jobs := failed))
            && Run(w, [FailJob(j), InsertRetry(j, id)], done.(jobs := failed[id := JobRow(repo, Pending)]))
  {
    OneStep(w, Succeed(j));
    OneStep(w, Step.Requeue(j));
    var m := Do(w, FailJob(j));
    assert m.failing - {j} == w.failing;
    RunTwo(w, FailJob(j), GiveUp(j));
    RunTwo(w, FailJob(j), InsertRetry(j, id));
    hide Run;
  }

  lemma OneStep(w: World, step: Step)
    requires Guard(w, step)
    ensures Run(w, [step], Do(w, step))
  {
    assert Run(w, [], w);
    RunSnoc(w, [], w, step);
    assert [] + [step] == [step];
    hide Run, Guard, Do;
  }

  lemma RunTwo(w: World, a: Step, b: Step)
    requires Guard(w, a) && Guard(Do(w, a), b)
    ensures Run(w, [a, b], Do(Do(w, a), b))
  {
    OneStep(w, a);
    RunSnoc(w, [a], Do(w, a), b);
    assert [a] + [b] == [a, b];
    hide Run, Guard, Do;
  }

  /** A running job is cancelled, a second one asked for, and the first one's git fails: two
      unfinished rows of one repository. */
  lemma CancelledFailureMakesTwo(repo: RepoId) returns (steps: seq<Step>, t: World)
    ensures Run(World(map[1 := JobRow(repo, Pending)], map[], {}, {}), steps, t) && !OneUnfinished(t.jobs)
  {
    var w0 := World(map[1 := JobRow(repo, Pending)], map[], {}, {});
    var w1 := World(map[1 := JobRow(repo, Running)], map[], {1}, {});
    var w2 := World(map[1 := JobRow(repo, Cancelled)], map[], {1}, {});
    assert Do(w0, Attempt(1)) == w1 && Do(w1, CancelJob(1)) == w2;
    assert Run(w0, [], w0);
    RunSnoc(w0, [], w0, Attempt(1));
    RunSnoc(w0, [] + [Attempt(1)], w1, CancelJob(1));
    hide Run;
    steps, t := SecondRowBesideFailure(w0, [] + [Attempt(1)] + [CancelJob(1)], w2, repo);
  }

  lemma SecondRowBesideFailure(w0: World, log: seq<Step>, w2: World, repo: RepoId) returns (steps: seq<Step>, t: World)
    requires Run(w0, log, w2) && w2 == World(map[1 := JobRow(repo, Cancelled)], map[], {1}, {})
    ensures Run(w0, steps, t) && !OneUnfinished(t.jobs)
  {
    hide Run;
    var w3 := Do(w2, LookUp(7, repo));
    var w4 := World(map[1 := JobRow(repo, Cancelled), 2 := JobRow(repo, Pending)], map[], {1}, {});
    assert Do(w3, InsertSeen(7, repo, 2)).seen == map[];
    assert Do(w3, InsertSeen(7, repo, 2)) == w4;
    var w5 := Do(w4, FailJob(1));
    t := Do(w5, InsertRetry(1, 3));
    RunSnoc(w0, log, w2, LookUp(7, repo));
    RunSnoc(w0, log + [LookUp(7, repo)], w3, InsertSeen(7, repo, 2));
    RunSnoc(w0, log + [LookUp(7, repo)] + [InsertSeen(7, repo, 2)], w4, FailJob(1));
    steps := log + [LookUp(7, repo)] + [InsertSeen(7, repo, 2)] + [FailJob(1)] + [InsertRetry(1, 3)];
    RunSnoc(w0, log + [LookUp(7, repo)] + [InsertSeen(7, repo, 2)] + [FailJob(1)], w5, InsertRetry(1, 3));
    assert t.jobs[2] == JobRow(repo, Pending) && t.jobs[3] == JobRow(repo, Pending);
  }

  /** Two requests that both look before either inserts make two as well. */
  lemma TwoLooksMakeTwo(repo: RepoId) returns (steps: seq<Step>, t: World)
    ensures Run(World(map[], map[], {}, {}), steps, t) && !OneUnfinished(t.jobs)
  {
    var w0 := World(map[], map[], {}, {});
    var w1 := Do(w0, LookUp(7, repo));
    var w2 := Do(w1, LookUp(8, repo));
    var w3 := Do(w2, InsertSeen(7, repo, 1));
    t := Do(w3, InsertSeen(8, repo, 2));
    assert Run(w0, [], w0);
    RunSnoc(w0, [], w0, LookUp(7, repo));
    hide Run;
    RunSnoc(w0, [] + [LookUp(7, repo)], w1, LookUp(8, repo));
    RunSnoc(w0, [] + [LookUp(7, repo)] + [LookUp(8, repo)], w2, InsertSeen(7, repo, 1));
    steps := [] + [LookUp(7, repo)] + [LookUp(8, repo)] + [InsertSeen(7, repo, 1)] + [InsertSeen(8, repo, 2)];
    RunSnoc(w0, [] + [LookUp(7, repo)] + [LookUp(8, repo)] + [InsertSeen(7, repo, 1)], w3, InsertSeen(8, repo, 2));
    assert t.jobs[1] == t.jobs[2] == JobRow(repo, Pending);
  }
}
