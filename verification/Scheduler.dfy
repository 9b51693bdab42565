/** The writers that create clone jobs: the scheduler tick (internal/gitops/scheduler.go)
    and CreateCloneJob (internal/services/clone_service.go), over one job table.
  */
module Scheduler {
  import opened Wrappers
  import opened ClonePool

  type RepoId = nat
  type JobId = nat

  /** The repositories columns a tick looks at; times in seconds, interval in minutes. */
  datatype Repository = Repository(id: RepoId, nextRetryAt: Option<int>, lastCloneAt: Option<int>, intervalMinutes: int)

  datatype JobRow = JobRow(repo: RepoId, status: Status)
  type Jobs = map<JobId, JobRow>

  predicate Unfinished(r: JobRow) {
    r.status.Pending? || r.status.Running?
  }

  const SECOND_NS: int := 1_000_000_000
  const MINUTE_NS: int := 60 * SECOND_NS

  // time.Time.Sub, which saturates.
  function Since(now: int, earlier: int): int {
    var d := (now - earlier) * SECOND_NS;
    if d > 0x7fff_ffff_ffff_ffff then 0x7fff_ffff_ffff_ffff
    else if d < -0x8000_0000_0000_0000 then -0x8000_0000_0000_0000 else d
  }

  predicate IntervalOver(r: Repository, now: int) {
    r.lastCloneAt.None? || Since(now, r.lastCloneAt.value) >= Wrap64(r.intervalMinutes * MINUTE_NS)
  }

  predicate Due(r: Repository, now: int) {
    (r.nextRetryAt.Some? ==> now >= r.nextRetryAt.value) && IntervalOver(r, now)
  }

  /** The product of the interval and a minute fits 64 bits up to 153722867 minutes, and up to
      there the interval is over exactly when it has passed.  The service asks for at least sixty
      minutes and sets no upper bound; beyond, exactly, some repository is due too early. */
  lemma IntervalIsKeptExactly(minutes: int)
    ensures 0 <= minutes <= 153722867 ==> forall r: Repository, now: int :: r.intervalMinutes == minutes ==>
              (IntervalOver(r, now) <==> r.lastCloneAt.Some? ==> now >= r.lastCloneAt.value + 60 * minutes)
    ensures minutes >= 0 ==>
              ((forall r: Repository, now: int :: r.intervalMinutes == minutes && IntervalOver(r, now) ==>
                  r.lastCloneAt.Some? ==> now >= r.lastCloneAt.value + 60 * minutes) <==> minutes <= 153722867)
  {
    if minutes > 153722867 {
      var r := Repository(0, None, Some(0), minutes);
      assert Since(60 * minutes - 1, 0) == 0x7fff_ffff_ffff_ffff;
      assert IntervalOver(r, 60 * minutes - 1);
    }
  }

  /** An interval of two hundred million minutes is over at once, every time. */
  lemma LongIntervalIsOverAtOnce(r: Repository, now: int)
    requires r.intervalMinutes == 200_000_000 && r.lastCloneAt == Some(now)
    ensures IntervalOver(r, now)
  {
  }

  function BusyRepos(jobs: Jobs): set<RepoId> {
    set j | j in jobs && Unfinished(jobs[j]) :: jobs[j].repo
  }

  // The repositories a tick creates a job for, in the order of the query; inserted
  // says which inserts the database accepts.
  function Chosen(repos: seq<Repository>, now: int, busy: set<RepoId>, inserted: RepoId -> bool): seq<RepoId> {
    if repos == [] then []
    else (if Due(repos[0], now) && repos[0].id !in busy && inserted(repos[0].id) then [repos[0].id] else [])
         + Chosen(repos[1..], now, busy, inserted)
  }

  lemma {:induction false} ChosenSnoc(repos: seq<Repository>, r: Repository, now: int, busy: set<RepoId>,
                                      inserted: RepoId -> bool)
    ensures Chosen(repos + [r], now, busy, inserted)
         == Chosen(repos, now, busy, inserted)
            + (if Due(r, now) && r.id !in busy && inserted(r.id) then [r.id] else [])
  {
    if repos == [] {
      assert repos + [r] == [r];
    } else {
      ChosenSnoc(repos[1..], r, now, busy, inserted);
      assert (repos + [r])[1..] == repos[1..] + [r];
    }
  }

  lemma {:induction false} ChosenMembers(repos: seq<Repository>, now: int, busy: set<RepoId>, inserted: RepoId -> bool,
                                        id: RepoId)
    ensures id in Chosen(repos, now, busy, inserted)
       <==> exists i :: 0 <= i < |repos| && repos[i].id == id && Due(repos[i], now) && id !in busy && inserted(id)
  {
    if repos != [] {
      ChosenMembers(repos[1..], now, busy, inserted, id);
      assert repos == [repos[0]] + repos[1..];
      var rest := repos[1..];
      if exists i :: 0 <= i < |rest| && rest[i].id == id && Due(rest[i], now) && id !in busy && inserted(id) {
        var i :| 0 <= i < |rest| && rest[i].id == id && Due(rest[i], now) && id !in busy && inserted(id);
        assert repos[i + 1] == rest[i];
      }
    }
  }

  ghost predicate DistinctIds(repos: seq<Repository>) {
    forall x, y :: 0 <= x < y < |repos| ==> repos[x].id != repos[y].id
  }

  lemma {:induction false} ChosenOnce(repos: seq<Repository>, now: int, busy: set<RepoId>, inserted: RepoId -> bool)
    requires DistinctIds(repos)
    ensures forall x, y :: 0 <= x < y < |Chosen(repos, now, busy, inserted)| ==>
              Chosen(repos, now, busy, inserted)[x] != Chosen(repos, now, busy, inserted)[y]
  {
    if repos != [] {
      var rest := Chosen(repos[1..], now, busy, inserted);
      ChosenOnce(repos[1..], now, busy, inserted);
      ChosenMembers(repos[1..], now, busy, inserted, repos[0].id);
      assert repos[0].id !in rest by {
        forall i | 0 <= i < |repos[1..]| ensures repos[1..][i].id != repos[0].id {
          assert repos[1..][i] == repos[i + 1];
        }
      }
    }
  }

  // The job table after a tick: the old rows, and one pending row per chosen repository.
  ghost predicate Ticked(before: Jobs, next: JobId, chosen: seq<RepoId>, after: Jobs) {
    && (forall j :: j in before ==> j < next)
    && (forall j :: j in after <==> j in before || next <= j < next + |chosen|)
    && (forall j :: j in after ==>
          after[j] == if j in before then before[j] else JobRow(chosen[j - next], Pending))
  }

  lemma TickGrows(before: Jobs, next: JobId, chosen: seq<RepoId>, jobs: Jobs, repo: RepoId)
    requires Ticked(before, next, chosen, jobs)
    ensures Ticked(before, next, chosen + [repo], jobs[next + |chosen| := JobRow(repo, Pending)])
  {
  }

  // The identifiers a tick hands out, in order.
  function Ids(next: JobId, n: nat): seq<JobId> {
    seq(n, k => next + k)
  }

  lemma IdsGrow(next: JobId, n: nat)
    ensures Ids(next, n + 1) == Ids(next, n) + [next + n]
  {
  }

  function UnfinishedOf(jobs: Jobs, repo: RepoId): set<JobId> {
    set j | j in jobs && jobs[j].repo == repo && Unfinished(jobs[j])
  }

  lemma BusyMeans(jobs: Jobs, repo: RepoId)
    ensures repo in BusyRepos(jobs) <==> UnfinishedOf(jobs, repo) != {}
  {
    if repo in BusyRepos(jobs) {
      var j :| j in jobs && Unfinished(jobs[j]) && jobs[j].repo == repo;
      assert j in UnfinishedOf(jobs, repo);
    }
  }

  // Identifiers are handed out in order of creation.
  method Newest(ids: set<JobId>) returns (newest: JobId)
    requires ids != {}
    ensures newest in ids && forall j :: j in ids ==> j <= newest
  {
    var todo := ids;
    newest :| newest in ids;
    while todo != {}
      invariant newest in ids && todo <= ids && forall j :: j in ids && j !in todo ==> j <= newest
    {
      var j :| j in todo;
      todo := todo - {j};
      if j > newest {
        newest := j;
      }
    }
  }

  class JobTable {
    var jobs: Jobs
    var backlog: seq<JobId>
    var nextId: JobId

    ghost predicate Valid()
      reads this
    {
      forall j :: j in jobs ==> j < nextId
    }

    constructor ()
      ensures Valid() && jobs == map[] && backlog == []
    {
      jobs, backlog, nextId := map[], [], 0;
    }

    // Create followed by Enqueue, with a fresh identifier.
    method Insert(repo: RepoId) returns (id: JobId)
      requires Valid()
      modifies this
      ensures Valid() && id == old(nextId) && nextId == id + 1 && id !in old(jobs)
      ensures jobs == old(jobs)[id := JobRow(repo, Pending)] && backlog == old(backlog) + [id]
    {
      id := nextId;
      jobs := jobs[id := JobRow(repo, Pending)];
      backlog := backlog + [id];
      nextId := nextId + 1;
    }

    /** scheduleCloneJobs: one new pending row, enqueued in order, for every repository
        that is due and not busy; nothing else changes. */
    method ScheduleCloneJobs(now: int, maintenance: bool, repos: seq<Repository>, inserted: RepoId -> bool)
      requires Valid()
      modifies this
      ensures Valid()
      ensures var chosen := if maintenance then [] else Chosen(repos, now, BusyRepos(old(jobs)), inserted);
              && nextId == old(nextId) + |chosen|
              && Ticked(old(jobs), old(nextId), chosen, jobs)
              && backlog == old(backlog) + Ids(old(nextId), |chosen|)
    {
      if maintenance {
        assert backlog == old(backlog) + [];
        return;
      }
      var busy := BusyRepos(jobs);
      ghost var chosen := [];
      var i := 0;
      while i < |repos|
        invariant 0 <= i <= |repos| && Valid()
        invariant chosen == Chosen(repos[..i], now, busy, inserted)
        invariant nextId == old(nextId) + |chosen|
        invariant Ticked(old(jobs), old(nextId), chosen, jobs)
        invariant backlog == old(backlog) + Ids(old(nextId), |chosen|)
      {
        var repo := repos[i];
        assert repos[..i + 1] == repos[..i] + [repo];
        ChosenSnoc(repos[..i], repo, now, busy, inserted);
        hide Chosen, Ticked, Unfinished, BusyRepos;
        var backingOff := repo.nextRetryAt.Some? && now < repo.nextRetryAt.value;
        if !backingOff
          && (repo.lastCloneAt.None?
              || Since(now, repo.lastCloneAt.value) >= Wrap64(repo.intervalMinutes * MINUTE_NS)) {
          if repo.id !in busy && inserted(repo.id) {
            TickGrows(old(jobs), old(nextId), chosen, jobs, repo.id);
            IdsGrow(old(nextId), |chosen|);
            var id := Insert(repo.id);
            chosen := chosen + [repo.id];
          }
        }
        i := i + 1;
      }
      assert repos[..i] == repos;
    }

    /** CreateCloneJob: an unfinished job of the repository is returned instead of a
        second one being made. */
    method CreateCloneJob(repo: RepoId, known: bool) returns (job: Option<JobId>)
      requires Valid()
      modifies this
      ensures Valid() && (job.None? <==> !known)
      ensures repo in BusyRepos(old(jobs)) || !known ==> jobs == old(jobs) && backlog == old(backlog)
      ensures repo !in BusyRepos(old(jobs)) && known ==>
                && job.value !in old(jobs) && jobs == old(jobs)[job.value := JobRow(repo, Pending)]
                && backlog == old(backlog) + [job.value]
      ensures known ==> job.value in UnfinishedOf(jobs, repo) && forall j :: j in UnfinishedOf(jobs, repo) ==>
                j <= job.value
    {
      if !known {
        return None;
      }
      var unfinished := UnfinishedOf(jobs, repo);
      BusyMeans(jobs, repo);
      if unfinished != {} {
        var newest := Newest(unfinished);
        return Some(newest);
      }
      var id := Insert(repo);
      assert forall j :: j in UnfinishedOf(jobs, repo) ==> j in unfinished || j == id;
      job := Some(id);
    }
  }

  // ----------------------------------------------------------------- tick as a map

  ghost predicate OneUnfinished(jobs: Jobs) {
    forall j, k ::
      j in jobs && k in jobs && Unfinished(jobs[j]) && Unfinished(jobs[k]) && jobs[j].repo == jobs[k].repo ==> j == k
  }

  lemma BusyIsNotChosen(before: Jobs, next: JobId, repos: seq<Repository>, now: int, inserted: RepoId -> bool,
                        after: Jobs,
                        made: JobId, kept: JobId)
    requires Ticked(before, next, Chosen(repos, now, BusyRepos(before), inserted), after)
    requires made in after && made !in before && kept in before && Unfinished(before[kept])
    ensures after[made].repo != before[kept].repo
  {
    ChosenMembers(repos, now, BusyRepos(before), inserted, after[made].repo);
    assert before[kept].repo in BusyRepos(before);
  }

  /** A tick whose look at the busy set and inserts nobody comes between never makes a second
      unfinished job for a repository. */
  lemma TickKeepsOneUnfinished(before: Jobs, next: JobId, repos: seq<Repository>, now: int, inserted: RepoId -> bool,
                               after: Jobs)
    requires OneUnfinished(before) && DistinctIds(repos)
    requires Ticked(before, next, Chosen(repos, now, BusyRepos(before), inserted), after)
    ensures OneUnfinished(after)
  {
    var chosen := Chosen(repos, now, BusyRepos(before), inserted);
    ChosenOnce(repos, now, BusyRepos(before), inserted);
    forall j, k | j in after && k in after && Unfinished(after[j]) && Unfinished(after[k])
        && after[j].repo == after[k].repo
      ensures j == k
    {
      if j !in before && k !in before {
        assert chosen[j - next] == chosen[k - next];
      } else if j !in before {
        BusyIsNotChosen(before, next, repos, now, inserted, after, j, k);
      } else if k !in before {
        BusyIsNotChosen(before, next, repos, now, inserted, after, k, j);
      }
    }
  }

  /** Exactly: a new pending row keeps it at one if and only if the repository is idle at the
      moment of the insert, whatever was seen before. */
  lemma CreateKeepsOneUnfinished(before: Jobs, repo: RepoId, id: JobId)
    requires OneUnfinished(before) && id !in before
    ensures OneUnfinished(before[id := JobRow(repo, Pending)]) <==> repo !in BusyRepos(before)
  {
    var after := before[id := JobRow(repo, Pending)];
    if repo in BusyRepos(before) {
      var j :| j in before && Unfinished(before[j]) && before[j].repo == repo;
      assert Unfinished(after[j]) && Unfinished(after[id]);
    } else {
      forall j | j in before && Unfinished(before[j]) ensures before[j].repo != repo {
        assert before[j].repo in BusyRepos(before);
      }
    }
  }

  /** A tick makes a job for a repository exactly when none of its jobs is pending or running,
      the database accepts the row, the backoff after its last failure is over, and its clone
      interval is, which up to 153722867 minutes means that as many have passed since its last
      clone; and then it makes one. */
  lemma TickHonoursBackoff(before: Jobs, next: JobId, repos: seq<Repository>, now: int, inserted: RepoId -> bool,
                           after: Jobs, i: nat)
    requires DistinctIds(repos) && i < |repos|
    requires Ticked(before, next, Chosen(repos, now, BusyRepos(before), inserted), after)
    ensures var r := repos[i];
            (exists j :: j in after && j !in before && after[j].repo == r.id) <==>
              && (forall j :: j in before && before[j].repo == r.id ==>
                    before[j].status != Pending && before[j].status != Running)
              && inserted(r.id)
              && (r.nextRetryAt.Some? ==> now >= r.nextRetryAt.value)
              && IntervalOver(r, now)
    ensures 0 <= repos[i].intervalMinutes <= 153722867 ==>
              (IntervalOver(repos[i], now)
               <==> repos[i].lastCloneAt.Some? ==> now >= repos[i].lastCloneAt.value + 60 * repos[i].intervalMinutes)
    ensures forall j, k :: j in after && k in after && j !in before && k !in before && after[j].repo == after[k].repo
              ==> j == k
    ensures forall j :: j in after && j !in before ==> after[j].status == Pending
  {
    var r := repos[i];
    var chosen := Chosen(repos, now, BusyRepos(before), inserted);
    ChosenMembers(repos, now, BusyRepos(before), inserted, r.id);
    ChosenOnce(repos, now, BusyRepos(before), inserted);
    BusyMeans(before, r.id);
    IntervalIsKeptExactly(r.intervalMinutes);
    hide IntervalOver;
    if r.id in chosen {
      var x :| 0 <= x < |chosen| && chosen[x] == r.id;
      assert next + x in after && next + x !in before;
    }
    forall j | j in before && before[j].repo == r.id
      ensures Unfinished(before[j]) <==> j in UnfinishedOf(before, r.id) {}
    hide Chosen, BusyRepos, UnfinishedOf;
  }
}
