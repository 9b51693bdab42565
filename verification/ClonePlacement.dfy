/** Crash-safe placement of a fresh clone (the else-branch of processJob and
    cleanupStaleTempClones in internal/gitops/worker.go, IsRepositoryCloned in
    internal/gitops/gitops.go), for one storage path.  The path's lock admits one
    attempt at a time; the process may die between any two file-system steps, and a
    removal of a tree may stop anywhere in the middle.
  */
module ClonePlacement {
  import opened Wrappers

  type JobId = nat
  type Tree = set<string>  // the names present in a directory

  /** IsRepositoryCloned: a work tree's .git, or a bare repository's HEAD and config. */
  predicate Recognised(t: Tree) {
    ".git" in t || ("HEAD" in t && "config" in t)
  }

  predicate RecognisedAt(dir: Option<Tree>) {
    dir.Some? && Recognised(dir.value)
  }

  /** How far the one running attempt has got.  stuck collects the temporary
      directories this attempt saw and could not remove. */
  datatype Attempt =
    | NoAttempt
    | Fetching
    | Clearing(job: JobId)                                  // RemoveAll(repoPath), the leftover
    | Sweeping(job: JobId, todo: set<JobId>, stuck: set<JobId>)
    | ClearingTemp(job: JobId, stuck: set<JobId>)           // RemoveAll(tmpPath)
    | Cloning(job: JobId, stuck: set<JobId>)
    | Making(job: JobId, tree: Tree, stuck: set<JobId>)     // RemoveAll(repoPath), before the rename
    | Renaming(job: JobId, tree: Tree, stuck: set<JobId>)
    | Copying(job: JobId, tree: Tree, onto: Option<Tree>)   // cp -a onto what the path held
    | Uncopying(job: JobId)                                 // RemoveAll(repoPath) after a failed copy
    | Discarding(job: JobId)                                // RemoveAll(tmpPath) after a failed clone or a copy

  datatype Disk = Disk(final: Option<Tree>, temps: map<JobId, Tree>, complete: set<Tree>, at: Attempt)

  datatype Step =
    | Begin(job: JobId)
    | Fetch(tree: Tree)
    | RemovePart(gone: Tree)        // a RemoveAll of repoPath under way
    | RemoveAll
    | RemoveFails
    | ListTemps(seen: set<JobId>)   // nothing is seen when the listing fails
    | SweepPart(j: JobId, gone: Tree)
    | Sweep(j: JobId)
    | SweepFails(j: JobId)
    | TempPart(gone: Tree)
    | TempCleared
    | TempStays
    | Write(tree: Tree)             // git clone at work in tmpPath
    | CloneDone(tree: Tree)
    | CloneFails
    | Rename
    | RenameFails
    | Abandon                       // the wait between renames is cancelled
    | GiveUp                        // no rename has worked
    | CopyPart(part: Tree)
    | CopyDone
    | CopyFails
    | Crash

  // RemoveAll(repoPath) is under way.
  predicate Removing(at: Attempt) {
    at.Clearing? || at.Making? || at.Uncopying?
  }

  function Removed(at: Attempt): Attempt
    requires Removing(at)
  {
    match at
    case Clearing(job) => Sweeping(job, {}, {})
    case Making(job, tree, stuck) => Renaming(job, tree, stuck)
    case Uncopying(job) => Discarding(job)
  }

  // The temporary directory's own name, which no repository has at its top.
  const NESTED := "repository.tmp-job"

  /** What cp -a makes of the path: a copy where nothing was, and otherwise a directory inside
      what was there. */
  function Copied(onto: Option<Tree>, part: Tree): Tree {
    if onto.None? then part else onto.value + {NESTED}
  }

  predicate Guard(d: Disk, step: Step) {
    match step
    case Begin(_) => d.at.NoAttempt?
    case Fetch(_) => d.at.Fetching?
    case RemovePart(_) => Removing(d.at) && d.final.Some?
    case RemoveAll => Removing(d.at)
    case RemoveFails => Removing(d.at) && d.final.Some?
    case ListTemps(seen) => d.at.Sweeping? && d.at.todo == {} && d.at.stuck == {} && seen <= d.temps.Keys
    case SweepPart(j, _) => d.at.Sweeping? && j in d.at.todo && j in d.temps
    case Sweep(j) => d.at.Sweeping? && j in d.at.todo
    case SweepFails(j) => d.at.Sweeping? && j in d.at.todo && j in d.temps
    case TempPart(_) => (d.at.ClearingTemp? || d.at.Discarding?) && d.at.job in d.temps
    case TempCleared => d.at.ClearingTemp? || d.at.Discarding?
    case TempStays => (d.at.ClearingTemp? || d.at.Discarding?) && d.at.job in d.temps
    case Write(_) => d.at.Cloning?
    // git refuses a non-empty destination, so a clone only completes into its own tree
    case CloneDone(_) => d.at.Cloning?
    case CloneFails => d.at.Cloning?
    case Rename => d.at.Renaming? && (d.final.None? || d.final.value == {}) && d.at.job in d.temps
    case RenameFails => d.at.Renaming?
    case Abandon => d.at.Renaming?
    case GiveUp => d.at.Renaming?
    case CopyPart(part) => d.at.Copying? && part <= d.at.tree
    case CopyDone => d.at.Copying?
    case CopyFails => d.at.Copying?
    case Crash => true
  }

  function Without(d: Disk, j: JobId, gone: Tree): map<JobId, Tree>
    requires j in d.temps
  {
    d.temps[j := d.temps[j] - gone]
  }

  function Do(d: Disk, step: Step): Disk
    requires Guard(d, step)
  {
    match step
    case Begin(job) => d.(at := if RecognisedAt(d.final) then Fetching else Clearing(job))
    case Fetch(tree) => d.(final := Some(tree), complete := d.complete + {tree}, at := NoAttempt)
    case RemovePart(gone) => d.(final := Some(d.final.value - gone))
    case RemoveAll => d.(final := None, at := Removed(d.at))
    case RemoveFails => d.(at := Removed(d.at))
    // the listing is one step; an attempt that sees nothing to sweep moves on at once
    case ListTemps(seen) => d.(at := NextSweep(d.at.job, seen, d.temps.Keys - seen))
    case SweepPart(j, gone) => d.(temps := Without(d, j, gone))
    case Sweep(j) => d.(temps := d.temps - {j}, at := NextSweep(d.at.job, d.at.todo - {j}, d.at.stuck))
    case SweepFails(j) => d.(at := NextSweep(d.at.job, d.at.todo - {j}, d.at.stuck + {j}))
    case TempPart(gone) => d.(temps := Without(d, d.at.job, gone))
    case TempCleared =>
      d.(temps := d.temps - {d.at.job}, at := if d.at.Discarding? then NoAttempt else Cloning(d.at.job, d.at.stuck))
    case TempStays =>
      d.(at := if d.at.Discarding? then NoAttempt else Cloning(d.at.job, d.at.stuck))
    case Write(tree) => d.(temps := d.temps[d.at.job := tree])
    case CloneDone(tree) =>
      d.(temps := d.temps[d.at.job := tree], complete := d.complete + {tree}, at := Making(d.at.job, tree, d.at.stuck))
    case CloneFails => d.(at := Discarding(d.at.job))
    case Rename => d.(final := Some(d.temps[d.at.job]), temps := d.temps - {d.at.job}, at := NoAttempt)
    case RenameFails => d
    case Abandon => d.(at := NoAttempt)
    case GiveUp => d.(at := Copying(d.at.job, d.at.tree, d.final))
    case CopyPart(part) => d.(final := Some(Copied(d.at.onto, part)))
    case CopyDone => d.(final := Some(Copied(d.at.onto, d.at.tree)), at := Discarding(d.at.job))
    case CopyFails => d.(at := Uncopying(d.at.job))
    case Crash => d.(at := NoAttempt)
  }

  function NextSweep(job: JobId, todo: set<JobId>, stuck: set<JobId>): Attempt {
    if todo == {} then ClearingTemp(job, stuck) else Sweeping(job, todo, stuck)
  }

  ghost predicate Run(d: Disk, steps: seq<Step>, e: Disk)
    decreases |steps|
  {
    if steps == [] then d == e
    else Guard(d, steps[0]) && Run(Do(d, steps[0]), steps[1..], e)
  }

  /** A path nobody works on: absent, an unrecognised leftover, or a complete clone;
      beside it any debris of earlier attempts. */
  ghost predicate AtRest(d: Disk) {
    d.at.NoAttempt? && (RecognisedAt(d.final) ==> d.final.value in d.complete)
  }

  // A copy that is not whole passes for a repository.
  ghost predicate Torn(d: Disk) {
    RecognisedAt(d.final) && d.final.value !in d.complete
  }

  ghost predicate Whole(d: Disk) {
    Torn(d) ==> d.at.Copying? || d.at.Uncopying?
  }

  // An attempt on a repository fetches; one that holds a tree holds a complete one.
  ghost predicate AttemptInv(d: Disk) {
    && (RecognisedAt(d.final) ==>
          d.at.NoAttempt? || d.at.Fetching? || d.at.Copying? || d.at.Uncopying? || d.at.Discarding?)
    && (d.at.Copying? ==> d.at.tree in d.complete && !RecognisedAt(d.at.onto))
    && ((d.at.Making? || d.at.Renaming?) ==>
          d.at.tree in d.complete && d.at.job in d.temps && d.temps[d.at.job] == d.at.tree)
  }

  // Every temporary directory in sight is one the attempt still has to look at, one
  // it could not remove, or its own.
  ghost predicate DebrisInv(d: Disk) {
    match d.at
    case Sweeping(_, todo, stuck) => todo != {} ==> d.temps.Keys <= todo + stuck
    case ClearingTemp(job, stuck) => d.temps.Keys <= stuck + {job}
    case Cloning(job, stuck) => d.temps.Keys <= stuck + {job}
    case Making(job, _, stuck) => d.temps.Keys <= stuck + {job}
    case Renaming(job, _, stuck) => d.temps.Keys <= stuck + {job}
    case _ => true
  }

  lemma RemovingNeverCompletes(t: Tree, gone: Tree)
    ensures Recognised(t - gone) ==> Recognised(t)
  {
  }

  lemma NestingNeverCompletes(onto: Option<Tree>, part: Tree)
    requires onto.Some?
    ensures Recognised(Copied(onto, part)) ==> Recognised(onto.value)
  {
    assert NESTED[0] == 'r';
  }

  lemma StepKeepsAttempt(d: Disk, step: Step)
    requires Guard(d, step) && AttemptInv(d)
    ensures AttemptInv(Do(d, step))
  {
    match step
    case RemovePart(gone) => RemovingNeverCompletes(d.final.value, gone);
    case _ =>
    hide Recognised;
  }

  // The only steps that leave a torn copy behind.
  ghost predicate LeavesTorn(d: Disk, step: Step) {
    Torn(d) && (step.Crash? || step.RemoveFails?)
  }

  /** Exactly: a step leaves something that passes for a repository and is not a complete clone
      if and only if the process dies while such a copy is being made or removed again, or its
      removal fails. */
  lemma StepKeepsWhole(d: Disk, step: Step)
    requires Guard(d, step) && AttemptInv(d) && Whole(d)
    ensures Whole(Do(d, step)) <==> !LeavesTorn(d, step)
  {
    match step
    case RemovePart(gone) => RemovingNeverCompletes(d.final.value, gone);
    case CopyPart(part) => if d.at.onto.Some? { NestingNeverCompletes(d.at.onto, part); }
    case CopyDone => if d.at.onto.Some? { NestingNeverCompletes(d.at.onto, d.at.tree); }
    case _ =>
    hide Recognised;
  }

  lemma StepKeepsDebris(d: Disk, step: Step)
    requires Guard(d, step) && DebrisInv(d)
    ensures DebrisInv(Do(d, step))
  {
  }

  lemma {:induction false} RunKeepsInv(d: Disk, steps: seq<Step>, e: Disk)
    requires AttemptInv(d) && DebrisInv(d) && Run(d, steps, e)
    ensures AttemptInv(e) && DebrisInv(e)
    decreases |steps|
  {
    hide AttemptInv, DebrisInv, Guard, Do;
    if steps != [] {
      StepKeepsAttempt(d, steps[0]);
      StepKeepsDebris(d, steps[0]);
      RunKeepsInv(Do(d, steps[0]), steps[1..], e);
    }
  }

  ghost predicate WholeThroughout(d: Disk, steps: seq<Step>)
    decreases |steps|
  {
    Whole(d) && (steps == [] || (Guard(d, steps[0]) && WholeThroughout(Do(d, steps[0]), steps[1..])))
  }

  ghost predicate NeverLeavesTorn(d: Disk, steps: seq<Step>)
    decreases |steps|
  {
    steps == [] || (Guard(d, steps[0]) && !LeavesTorn(d, steps[0]) && NeverLeavesTorn(Do(d, steps[0]), steps[1..]))
  }

  /** Along any run, with crashes anywhere and any number of attempts, whatever passes for a
      repository is a complete clone or a copy still being made or removed, if and only if no
      torn copy is ever left. */
  lemma {:induction false} WholeExactly(d: Disk, steps: seq<Step>, e: Disk)
    requires AttemptInv(d) && Whole(d) && Run(d, steps, e)
    ensures WholeThroughout(d, steps) <==> NeverLeavesTorn(d, steps)
    decreases |steps|
  {
    hide AttemptInv, Whole, Guard, Do, LeavesTorn;
    if steps != [] {
      StepKeepsAttempt(d, steps[0]);
      StepKeepsWhole(d, steps[0]);
      if Whole(Do(d, steps[0])) {
        WholeExactly(Do(d, steps[0]), steps[1..], e);
      } else {
        assert !WholeThroughout(Do(d, steps[0]), steps[1..]);
      }
    }
  }

  lemma {:induction false} NoCopyNothingTorn(d: Disk, steps: seq<Step>, e: Disk)
    requires AttemptInv(d) && Whole(d) && !d.at.Copying? && !d.at.Uncopying? && Run(d, steps, e) && GiveUp !in steps
    ensures Whole(e) && !e.at.Copying? && !e.at.Uncopying?
    decreases |steps|
  {
    if steps != [] {
      StepKeepsAttempt(d, steps[0]);
      StepKeepsWhole(d, steps[0]);
      assert steps[0] in steps && forall s :: s in steps[1..] ==> s in steps;
      hide AttemptInv, Recognised;
      NoCopyNothingTorn(Do(d, steps[0]), steps[1..], e);
    }
  }

  /** As long as renames work, whatever else happens, the final path is taken for a repository
      only when it holds a complete clone. */
  lemma OnlyCompleteClonesAreRecognised(d: Disk, steps: seq<Step>, e: Disk)
    requires AtRest(d) && Run(d, steps, e) && GiveUp !in steps
    ensures RecognisedAt(e.final) ==> e.final.value in e.complete
  {
    NoCopyNothingTorn(d, steps, e);
  }

  /** And every complete clone is recognised: an attempt fetches in place exactly when the path
      holds a .git, or a HEAD and a config; otherwise it begins by clearing the path. */
  lemma FetchesExactly(d: Disk, job: JobId)
    requires d.at.NoAttempt?
    ensures Guard(d, Begin(job))
    ensures if d.final.Some? && (".git" in d.final.value || ("HEAD" in d.final.value && "config" in d.final.value))
            then Do(d, Begin(job)) == d.(at := Fetching) else Do(d, Begin(job)) == d.(at := Clearing(job))
  {
  }

  /** In every run, whatever crashes, the only step that changes a path holding a repository,
      other than the copy that makes it, is a fetch into it, which leaves what git delivered. */
  lemma RepositoryIsNeverRemoved(d: Disk, steps: seq<Step>, e: Disk, step: Step)
    requires AtRest(d) && Run(d, steps, e) && Guard(e, step)
    requires RecognisedAt(e.final) && !e.at.Copying? && !e.at.Uncopying?
    ensures Do(e, step).final == e.final || (e.at.Fetching? && step.Fetch? && Do(e, step).final == Some(step.tree))
  {
    RunKeepsInv(d, steps, e);
  }

  /** So a repository that git only ever updates to repositories is there for good: after any
      run the path holds it as it was or as a fetch of the run delivered it. */
  lemma {:induction false} RepositoryOutlivesRuns(d: Disk, steps: seq<Step>, e: Disk)
    requires d.at.NoAttempt? || d.at.Fetching?
    requires RecognisedAt(d.final) && Run(d, steps, e)
    requires forall tree :: Fetch(tree) in steps ==> RecognisedAt(Some(tree))
    ensures RecognisedAt(e.final) && (e.final == d.final || Fetch(e.final.value) in steps) && e.temps == d.temps
    decreases |steps|
  {
    if steps != [] {
      assert steps[0] in steps && forall s :: s in steps[1..] ==> s in steps;
      RepositoryOutlivesRuns(Do(d, steps[0]), steps[1..], e);
    }
  }

  /** When a rename succeeds, the path holds exactly the tree git finished in this
      attempt, and the only temporary siblings left are those the attempt itself
      could not remove; if every removal worked there are none. */
  lemma SuccessfulCloneCleansUp(d: Disk, steps: seq<Step>, e: Disk)
    requires AtRest(d) && Run(d, steps, e) && Guard(e, Rename)
    ensures var done := Do(e, Rename);
            && done.final == Some(e.at.tree) && e.at.tree in e.complete
            && done.temps.Keys <= e.at.stuck - {e.at.job}
            && (e.at.stuck == {} ==> done.temps == map[])
  {
    RunKeepsInv(d, steps, e);
    var done := Do(e, Rename);
    if e.at.stuck == {} {
      assert done.temps.Keys == {};
    }
  }

  // ------------------------------------------------------------- an attempt as a run

  datatype Outcome = CloneFailed | Placed | Aborted | CopyMade | CopyFailed

  // What is left of the attempt's own temporary directory when it is removed, if that works.
  function Dropped(temps: map<JobId, Tree>, job: JobId, a: Answers): map<JobId, Tree> {
    if a.removable(job) then temps - {job} else temps
  }

  // What the path holds after the first removal, or the first two.
  function Cleared(final: Option<Tree>, a: Answers, twice: bool): Option<Tree> {
    if a.pathGoes(0) || (twice && a.pathGoes(1)) then None else final
  }

  // The siblings that were seen and could be removed.
  function Sweepable(entries: set<JobId>, a: Answers): set<JobId> {
    set j | j in entries && a.removable(j)
  }

  /** The path and its siblings after an uninterrupted attempt that ended as it did. */
  function AfterAttempt(final: Option<Tree>, temps: map<JobId, Tree>, job: JobId, entries: set<JobId>, a: Answers,
                        o: Outcome): (Option<Tree>, map<JobId, Tree>)
    requires !o.CloneFailed? ==> a.clone.Some?
  {
    var cleared, swept := Cleared(final, a, true), temps - Sweepable(entries, a);
    match o
    case CloneFailed => (Cleared(final, a, false), Dropped(swept, job, a))
    case Placed => (a.clone, swept - {job})
    case Aborted => (cleared, swept[job := a.clone.value])
    case CopyMade => (Some(Copied(cleared, a.clone.value)), Dropped(swept[job := a.clone.value], job, a))
    case CopyFailed =>
      (if a.pathGoes(2) then None else if a.part.Some? then Some(Copied(cleared, a.part.value)) else cleared,
       Dropped(swept[job := a.clone.value], job, a))
  }

  // A removal of the path, as the attempt's answers have it.
  lemma RemovalStep(d: Disk, goes: bool) returns (step: Step)
    requires Removing(d.at)
    ensures Guard(d, step)
    ensures Do(d, step) == d.(final := if goes then None else d.final, at := Removed(d.at))
  {
    step := if goes || d.final.None? then RemoveAll else RemoveFails;
  }

  // The same of the attempt's own temporary directory.
  lemma TempStep(d: Disk, a: Answers) returns (step: Step)
    requires d.at.ClearingTemp? || d.at.Discarding?
    ensures Guard(d, step)
    ensures Do(d, step) == d.(temps := Dropped(d.temps, d.at.job, a),
                             at := if d.at.Discarding? then NoAttempt else Cloning(d.at.job, d.at.stuck))
  {
    step := if a.removable(d.at.job) || d.at.job !in d.temps then TempCleared else TempStays;
    if d.at.job !in d.temps {
      assert d.temps - {d.at.job} == d.temps;
    }
  }

  lemma RunSnoc(d: Disk, steps: seq<Step>, m: Disk, step: Step)
    requires Run(d, steps, m) && Guard(m, step)
    ensures Run(d, steps + [step], Do(m, step))
  {
    var e := Do(m, step);
    hide Guard, Do;
    assert [step][1..] == [];
    assert Run(e, [], e);
    assert Run(m, [step], e);
    RunConcat(d, steps, m, [step], e);
  }

  lemma {:induction false} SweepSeen(d0: Disk, log: seq<Step>, d: Disk, a: Answers) returns (steps: seq<Step>, e: Disk)
    requires Run(d0, log, d) && d.at.Sweeping? && d.at.todo <= d.temps.Keys && d.at.todo != {}
    ensures Run(d0, steps, e) && e.at.ClearingTemp? && e.at.job == d.at.job
    ensures e == d.(temps := d.temps - Sweepable(d.at.todo, a), at := e.at)
    decreases |d.at.todo|
  {
    var j :| j in d.at.todo;
    var step := if a.removable(j) then Sweep(j) else SweepFails(j);
    var m := Do(d, step);
    RunSnoc(d0, log, d, step);
    SweepableOne(d.temps, d.at.todo, j, a);
    hide Run, Guard, Do;
    if d.at.todo - {j} == {} {
      assert d.temps - Sweepable(d.at.todo, a) == m.temps;
      steps, e := log + [step], m;
    } else {
      steps, e := SweepSeen(d0, log + [step], m, a);
    }
  }

  lemma SweepableOne(temps: map<JobId, Tree>, todo: set<JobId>, j: JobId, a: Answers)
    requires j in todo
    ensures temps - Sweepable(todo, a)
            == (if a.removable(j) then temps - {j} else temps) - Sweepable(todo - {j}, a)
    ensures todo - {j} == {} ==> Sweepable(todo - {j}, a) == {}
  {
    var l, r := temps - Sweepable(todo, a), (if a.removable(j) then temps - {j} else temps) - Sweepable(todo - {j}, a);
    assert l.Keys == r.Keys;
  }

  // From the listing to the clone.
  lemma SweepAndClear(d0: Disk, log: seq<Step>, d: Disk, entries: set<JobId>, a: Answers)
      returns (steps: seq<Step>, e: Disk)
    requires Run(d0, log, d) && d.at.Sweeping? && d.at.todo == {} && d.at.stuck == {}
    ensures Run(d0, steps, e) && e.at.Cloning? && e.at.job == d.at.job
    ensures e == d.(temps := Dropped(d.temps - Sweepable(entries, a), d.at.job, a), at := e.at)
  {
    var seen := entries * d.temps.Keys;
    RunSnoc(d0, log, d, ListTemps(seen));
    var m := Do(d, ListTemps(seen));
    assert d.temps - Sweepable(seen, a) == d.temps - Sweepable(entries, a) by {
      assert (d.temps - Sweepable(seen, a)).Keys == (d.temps - Sweepable(entries, a)).Keys;
    }
    steps := log + [ListTemps(seen)];
    hide Run, Guard, Do, Sweepable;
    if seen != {} {
      steps, m := SweepSeen(d0, steps, m, a);
    } else {
      NothingSweepable(d.temps, a);
    }
    var last := TempStep(m, a);
    RunSnoc(d0, steps, m, last);
    steps, e := steps + [last], Do(m, last);
  }

  lemma NothingSweepable(temps: map<JobId, Tree>, a: Answers)
    ensures temps - Sweepable({}, a) == temps
  {
  }

  /** Every uninterrupted attempt on a path that is no repository, however its removals, its
      renames and its copy turn out, is a run. */
  lemma AttemptIsARun(d: Disk, job: JobId, entries: set<JobId>, a: Answers, o: Outcome)
      returns (steps: seq<Step>, e: Disk)
    requires d.at.NoAttempt? && !RecognisedAt(d.final) && (o.CloneFailed? <==> a.clone.None?)
    requires var cleared := Cleared(d.final, a, true); o.Placed? ==> cleared.None? || cleared.value == {}
    requires a.clone.Some? && a.part.Some? ==> a.part.value <= a.clone.value
    ensures Run(d, steps, e) && e.at.NoAttempt?
    ensures (e.final, e.temps) == AfterAttempt(d.final, d.temps, job, entries, a, o)
  {
    RunNothing(d);
    RunSnoc(d, [], d, Begin(job));
    var m := Do(d, Begin(job));
    steps := [] + [Begin(job)];
    var removal := RemovalStep(m, a.pathGoes(0));
    RunSnoc(d, steps, m, removal);
    steps, m := steps + [removal], Do(m, removal);
    assert m.final == Cleared(d.final, a, false);
    hide Run, Sweepable;
    steps, m := SweepAndClear(d, steps, m, entries, a);
    if a.clone.None? {
      RunSnoc(d, steps, m, CloneFails);
      steps, m := steps + [CloneFails], Do(m, CloneFails);
      var last := TempStep(m, a);
      RunSnoc(d, steps, m, last);
      steps, e := steps + [last], Do(m, last);
      SameSiblings(d.temps - Sweepable(entries, a), job, {}, a);
      hide Dropped, Guard, Do;
    } else {
      var tree := a.clone.value;
      RunSnoc(d, steps, m, CloneDone(tree));
      steps, m := steps + [CloneDone(tree)], Do(m, CloneDone(tree));
      removal := RemovalStep(m, a.pathGoes(1));
      RunSnoc(d, steps, m, removal);
      steps, m := steps + [removal], Do(m, removal);
      assert m.final == Cleared(d.final, a, true);
      SameSiblings(d.temps - Sweepable(entries, a), job, tree, a);
      hide Dropped, Guard, Do;
      steps, e := FinishAttempt(d, steps, m, d.temps - Sweepable(entries, a), a, o);
    }
  }

  lemma RunNothing(d: Disk)
    ensures Run(d, [], d)
  {
  }

  lemma SameSiblings(temps: map<JobId, Tree>, job: JobId, tree: Tree, a: Answers)
    ensures Dropped(temps, job, a)[job := tree] == temps[job := tree]
    ensures temps[job := tree] - {job} == temps - {job}
    ensures Dropped(Dropped(temps, job, a), job, a) == Dropped(temps, job, a)
  {
  }

  // The renames, and the copy if none of them works.
  lemma FinishAttempt(d: Disk, log: seq<Step>, m: Disk, swept: map<JobId, Tree>, a: Answers, o: Outcome)
      returns (steps: seq<Step>, e: Disk)
    requires Run(d, log, m) && m.at.Renaming? && a.clone == Some(m.at.tree) && !o.CloneFailed?
    requires m.temps == swept[m.at.job := m.at.tree]
    requires o.Placed? ==> m.final.None? || m.final.value == {}
    requires a.part.Some? ==> a.part.value <= m.at.tree
    ensures Run(d, steps, e) && e.at.NoAttempt?
    ensures var job, tree := m.at.job, m.at.tree;
            match o
            case Placed => e.final == a.clone && e.temps == swept - {job}
            case Aborted => e.final == m.final && e.temps == swept[job := tree]
            case CopyMade => e.final == Some(Copied(m.final, tree)) && e.temps == Dropped(swept[job := tree], job, a)
            case CopyFailed =>
              && e.temps == Dropped(swept[job := tree], job, a)
              && e.final == if a.pathGoes(2) then None
                            else if a.part.Some? then Some(Copied(m.final, a.part.value)) else m.final
  {
    var job, tree := m.at.job, m.at.tree;
    SameSiblings(swept, job, tree, a);
    if o.Placed? || o.Aborted? {
      var last := if o.Placed? then Rename else Abandon;
      RunSnoc(d, log, m, last);
      steps, e := log + [last], Do(m, last);
      return;
    }
    RunSnoc(d, log, m, GiveUp);
    var c := Do(m, GiveUp);
    steps := log + [GiveUp];
    hide Run, Dropped;
    if o.CopyMade? {
      RunSnoc(d, steps, c, CopyDone);
      steps, c := steps + [CopyDone], Do(c, CopyDone);
    } else {
      steps, c := UndoCopy(d, steps, c, a);
    }
    var last := TempStep(c, a);
    RunSnoc(d, steps, c, last);
    steps, e := steps + [last], Do(c, last);
  }

  lemma UndoCopy(d: Disk, log: seq<Step>, m: Disk, a: Answers) returns (steps: seq<Step>, e: Disk)
    requires Run(d, log, m) && m.at.Copying? && m.final == m.at.onto && (a.part.Some? ==> a.part.value <= m.at.tree)
    ensures Run(d, steps, e)
    ensures e == m.(at := Discarding(m.at.job),
                   final := if a.pathGoes(2) then None
                            else if a.part.Some? then Some(Copied(m.at.onto, a.part.value)) else m.final)
  {
    var c := m;
    steps := log;
    if a.part.Some? {
      RunSnoc(d, steps, c, CopyPart(a.part.value));
      steps, c := steps + [CopyPart(a.part.value)], Do(c, CopyPart(a.part.value));
    }
    RunSnoc(d, steps, c, CopyFails);
    steps, c := steps + [CopyFails], Do(c, CopyFails);
    var removal := RemovalStep(c, a.pathGoes(2));
    RunSnoc(d, steps, c, removal);
    steps, e := steps + [removal], Do(c, removal);
  }

  /** A later attempt can always get there: from any state at rest whose path is not a
      repository, removals and renames that work lead to any tree git delivers, with no debris
      of the earlier attempts. */
  lemma NextAttemptSelfHeals(d: Disk, job: JobId, tree: Tree) returns (steps: seq<Step>, e: Disk)
    requires d.at.NoAttempt? && !RecognisedAt(d.final)
    ensures Run(d, steps, e) && e.at.NoAttempt? && e.final == Some(tree) && e.temps == map[]
  {
    var a := Answers(_ => true, _ => true, Some(tree), _ => true, _ => false, None);
    steps, e := AttemptIsARun(d, job, d.temps.Keys, a, Placed);
    assert (d.temps - Sweepable(d.temps.Keys, a)).Keys == {};
    hide Run;
  }

  /** A torn copy is for good.  From any such state, with any proper part of a tree that passes
      for a repository, there is a run that ends with that part on the path, where the next
      attempt fetches into it and no attempt ever clears it. */
  lemma TornCopyIsTakenForAClone(d: Disk, job: JobId, tree: Tree, part: Tree) returns (steps: seq<Step>, e: Disk)
    requires d.at.NoAttempt? && !RecognisedAt(d.final)
    requires part <= tree && part != tree && Recognised(part) && part !in d.complete
    ensures Run(d, steps, e) && e.at.NoAttempt? && e.final == Some(part) && part !in e.complete
    ensures forall next :: Do(e, Begin(next)).at.Fetching?
  {
    steps, e := ToRenaming(d, job, tree);
    hide Run, Recognised;
    RunSnoc(d, steps, e, GiveUp);
    steps, e := steps + [GiveUp], Do(e, GiveUp);
    RunSnoc(d, steps, e, CopyPart(part));
    steps, e := steps + [CopyPart(part)], Do(e, CopyPart(part));
    RunSnoc(d, steps, e, Crash);
    steps, e := steps + [Crash], Do(e, Crash);
  }

  lemma ToRenaming(d: Disk, job: JobId, tree: Tree) returns (steps: seq<Step>, e: Disk)
    requires d.at.NoAttempt? && !RecognisedAt(d.final)
    ensures Run(d, steps, e) && e.at.Renaming? && e.at.tree == tree && e.final.None?
    ensures e.complete == d.complete + {tree}
  {
    var a := Answers(_ => true, _ => true, Some(tree), _ => true, _ => false, None);
    RunNothing(d);
    RunSnoc(d, [], d, Begin(job));
    var m := Do(d, Begin(job));
    RunSnoc(d, [] + [Begin(job)], m, RemoveAll);
    steps, m := [] + [Begin(job)] + [RemoveAll], Do(m, RemoveAll);
    hide Run;
    steps, m := SweepAndClear(d, steps, m, {}, a);
    RunSnoc(d, steps, m, CloneDone(tree));
    steps, m := steps + [CloneDone(tree)], Do(m, CloneDone(tree));
    RunSnoc(d, steps, m, RemoveAll);
    steps, e := steps + [RemoveAll], Do(m, RemoveAll);
  }

  /** The process may die in the middle of any removal: whatever part of the tree is then still
      there is what the next attempt finds. */
  lemma RemovalsTear(d: Disk, left: Tree, j: JobId)
    ensures Removing(d.at) && d.final.Some? && left <= d.final.value ==>
              Run(d, [RemovePart(d.final.value - left), Crash], d.(final := Some(left), at := NoAttempt))
    ensures d.at.Sweeping? && j in d.at.todo && j in d.temps && left <= d.temps[j] ==>
              Run(d, [SweepPart(j, d.temps[j] - left), Crash], d.(temps := d.temps[j := left], at := NoAttempt))
    ensures (d.at.ClearingTemp? || d.at.Discarding?) && d.at.job in d.temps && left <= d.temps[d.at.job] ==>
              Run(d, [TempPart(d.temps[d.at.job] - left), Crash],
                  d.(temps := d.temps[d.at.job := left], at := NoAttempt))
  {
    if Removing(d.at) && d.final.Some? && left <= d.final.value {
      assert d.final.value - (d.final.value - left) == left;
      RunTwo(d, RemovePart(d.final.value - left), Crash);
    }
    if d.at.Sweeping? && j in d.at.todo && j in d.temps && left <= d.temps[j] {
      assert d.temps[j] - (d.temps[j] - left) == left;
      RunTwo(d, SweepPart(j, d.temps[j] - left), Crash);
    }
    if (d.at.ClearingTemp? || d.at.Discarding?) && d.at.job in d.temps && left <= d.temps[d.at.job] {
      assert d.temps[d.at.job] - (d.temps[d.at.job] - left) == left;
      RunTwo(d, TempPart(d.temps[d.at.job] - left), Crash);
    }
    hide Run;
  }

  lemma RunTwo(d: Disk, x: Step, y: Step)
    requires Guard(d, x) && Guard(Do(d, x), y)
    ensures Run(d, [x, y], Do(Do(d, x), y))
  {
    RunNothing(d);
    RunSnoc(d, [], d, x);
    RunSnoc(d, [] + [x], Do(d, x), y);
    assert [] + [x] + [y] == [x, y];
    hide Run, Guard, Do;
  }

  lemma {:induction false} RunConcat(d: Disk, xs: seq<Step>, m: Disk, ys: seq<Step>, e: Disk)
    requires Run(d, xs, m) && Run(m, ys, e)
    ensures Run(d, xs + ys, e)
    decreases |xs|
  {
    hide Guard, Do;
    if xs == [] {
      assert xs + ys == ys;
    } else {
      RunConcat(Do(d, xs[0]), xs[1..], m, ys, e);
      assert (xs + ys)[1..] == xs[1..] + ys;
    }
  }

  // ------------------------------------------------------- the functions themselves

  const RENAME_ATTEMPTS := 12

  /** What git and the file system answer during one uninterrupted attempt. */
  datatype Answers = Answers(
    pathGoes: nat -> bool,           // by removal of the path: the leftover, before the rename, after a copy
    removable: JobId -> bool,        // RemoveAll of a temporary directory works
    clone: Option<Tree>,             // what git delivered, if it succeeded
    renameWorks: nat -> bool,        // by attempt
    cancelledBefore: nat -> bool,    // the wait before an attempt sees the context cancelled
    part: Option<Tree>)              // what a copy that fails leaves, if anything

  class Storage {
    var final: Option<Tree>
    var temps: map<JobId, Tree>

    constructor (final: Option<Tree>, temps: map<JobId, Tree>)
      ensures this.final == final && this.temps == temps
    {
      this.final, this.temps := final, temps;
    }

    method CleanupStaleTempClones(entries: seq<JobId>, a: Answers)
      modifies this`temps
      ensures temps == old(temps) - Sweepable((set j | j in entries), a)
      ensures forall j :: j in temps <==> j in old(temps) && !(j in entries && a.removable(j))
    {
      var i := 0;
      while i < |entries|
        invariant 0 <= i <= |entries|
        invariant forall j :: j in temps <==> j in old(temps) && !(j in entries[..i] && a.removable(j))
        invariant forall j :: j in temps ==> temps[j] == old(temps)[j]
      {
        assert entries[..i + 1] == entries[..i] + [entries[i]];
        if a.removable(entries[i]) {
          temps := temps - {entries[i]};
        }
        i := i + 1;
      }
      assert entries[..i] == entries;
      assert temps == old(temps) - Sweepable((set j | j in entries), a);
    }

    /** The rename loop: at most twelve tries, the first without a wait.  The first of them that
        works moves the tree, unless a wait before it is cancelled. */
    method MoveIntoPlace(job: JobId, a: Answers) returns (result: Option<Outcome>)
      requires job in temps
      modifies this
      ensures result == Some(Placed) ==> final == Some(old(temps)[job]) && temps == old(temps) - {job}
      ensures result != Some(Placed) ==> final == old(final) && temps == old(temps)
      ensures match result
              case Some(Placed) =>
                exists k :: 0 <= k < 12 && Renames(a, old(final), k)
                            && forall i :: 0 <= i <= k ==>
                                 (i < k ==> !Renames(a, old(final), i)) && (i > 0 ==> !a.cancelledBefore(i))
              case Some(Aborted) =>
                exists k :: 0 < k < 12 && a.cancelledBefore(k)
                            && forall i :: 0 <= i < k ==>
                                 !Renames(a, old(final), i) && (i > 0 ==> !a.cancelledBefore(i))
              case None =>
                forall i :: 0 <= i < 12 ==> !Renames(a, old(final), i) && (i > 0 ==> !a.cancelledBefore(i))
              case _ => false
    {
      var attempt := 0;
      while attempt < RENAME_ATTEMPTS
        invariant 0 <= attempt <= RENAME_ATTEMPTS && final == old(final) && temps == old(temps)
        invariant forall i :: 0 <= i < attempt ==> !Renames(a, old(final), i) && (i > 0 ==> !a.cancelledBefore(i))
      {
        if attempt > 0 && a.cancelledBefore(attempt) {
          return Some(Aborted);
        }
        assert Renames(a, final, attempt) <==> a.renameWorks(attempt) && (final.None? || final.value == {});
        if a.renameWorks(attempt) && (final.None? || final.value == {}) {
          final := Some(temps[job]);
          temps := temps - {job};
          return Some(Placed);
        }
        attempt := attempt + 1;
      }
      result := None;
    }

    /** One attempt: a fetch in place when the path holds a repository, and otherwise a clone. */
    method CloneOrFetch(job: JobId, a: Answers, entries: seq<JobId>, copies: bool, fetched: Option<Tree>)
        returns (fetching: bool, result: Option<Outcome>)
      requires a.clone.Some? && a.part.Some? ==> a.part.value <= a.clone.value
      modifies this
      ensures fetching <==> old(final).Some? && (".git" in old(final).value
                                                || ("HEAD" in old(final).value && "config" in old(final).value))
      // a fetch leaves what git left, and touches no sibling
      ensures fetching ==> result.None? && temps == old(temps) && final == if fetched.Some? then fetched else old(final)
      ensures !fetching ==>
                && result.Some? && (result.value.CloneFailed? <==> a.clone.None?)
                && (final, temps) == AfterAttempt(old(final), old(temps), job, (set j | j in entries), a, result.value)
    {
      if RecognisedAt(final) {
        if fetched.Some? {
          final := fetched;
        }
        return true, None;
      }
      var outcome := PlaceClone(job, a, entries, copies);
      return false, Some(outcome);
    }

    /** One attempt on a path that is not a repository.  `entries` is what the directory listing
        shows of the siblings, nothing when it fails; `copies` says whether a copy works. */
    method PlaceClone(job: JobId, a: Answers, entries: seq<JobId>, copies: bool) returns (result: Outcome)
      requires !RecognisedAt(final)
      requires a.clone.Some? && a.part.Some? ==> a.part.value <= a.clone.value
      modifies this
      ensures result.CloneFailed? <==> a.clone.None?
      ensures (final, temps) == AfterAttempt(old(final), old(temps), job, (set j | j in entries), a, result)
      // success: the tree git delivered, and no sibling that was listed and could be removed
      ensures result.Placed? ==>
                && final == a.clone
                && forall j :: j in temps <==> j != job && j in old(temps) && !(j in entries && a.removable(j))
      ensures (forall j :: j in old(temps) ==> j in entries) && (forall j :: a.removable(j)) && result.Placed? ==>
                temps == map[]
      ensures result.CopyMade? ==>
                final == if old(final).None? || a.pathGoes(0) || a.pathGoes(1) then a.clone
                         else Some(old(final).value + {NESTED})
      // failure: a finished tree is kept for the next sweep only if the wait was cancelled
      ensures result.CloneFailed? || result.Aborted? ==> !RecognisedAt(final)
      ensures result.Aborted? ==> job in temps && Some(temps[job]) == a.clone
      ensures result.CopyFailed? && a.pathGoes(2) ==> final.None?
      ensures result.CopyMade? || result.CopyFailed? ==>
                (result.CopyMade? <==> copies) && (a.removable(job) ==> job !in temps)
                && forall i :: 0 <= i < 12 ==>
                     !a.renameWorks(i) || (!a.pathGoes(0) && !a.pathGoes(1) && old(final).Some?)
    {
      if final.Some? && a.pathGoes(0) {
        final := None;
      }
      CleanupStaleTempClones(entries, a);
      ghost var swept := temps;
      if a.clone.None? {
        if a.removable(job) {
          temps := temps - {job};
        }
        return CloneFailed;
      }
      temps := temps[job := a.clone.value];
      if a.pathGoes(1) {
        final := None;
      }
      SameSiblings(swept, job, a.clone.value, a);
      ghost var cleared := final;
      var moved := MoveIntoPlace(job, a);
      hide Sweepable;
      if moved.Some? {
        if moved == Some(Placed) && (forall j :: j in old(temps) ==> j in entries) && (forall j :: a.removable(j)) {
          assert temps.Keys == {};
        }
        return moved.value;
      }
      forall i | 0 <= i < 12 ensures !a.renameWorks(i) || cleared.Some? {
        assert !Renames(a, cleared, i);
      }
      result := CopyIntoPlace(job, a, copies);
    }

    /** The recursive copy, undone if it fails. */
    method CopyIntoPlace(job: JobId, a: Answers, copies: bool) returns (result: Outcome)
      requires job in temps && a.clone == Some(temps[job])
      modifies this
      ensures result == if copies then CopyMade else CopyFailed
      ensures temps == Dropped(old(temps), job, a)
      ensures final == if copies then Some(Copied(old(final), a.clone.value))
                       else if a.pathGoes(2) then None
                       else if a.part.Some? then Some(Copied(old(final), a.part.value)) else old(final)
    {
      if copies {
        final := Some(Copied(final, temps[job]));
        result := CopyMade;
      } else {
        if a.part.Some? {
          final := Some(Copied(final, a.part.value));
        }
        if a.pathGoes(2) {
          final := None;
        }
        result := CopyFailed;
      }
      if a.removable(job) {
        temps := temps - {job};
      }
    }
  }

  // A rename onto a path that holds anything fails.
  ghost predicate Renames(a: Answers, final: Option<Tree>, k: nat) {
    a.renameWorks(k) && (final.None? || final.value == {})
  }
}
