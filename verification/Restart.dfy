/** The start-up pass over the jobs of an earlier process (reapOrphanedJobs in
    internal/gitops/scheduler.go), and what it means for the pool across restarts.
  */
module Restart {
  import opened Wrappers
  import opened DispatchLine
  import opened ClonePool

  /** The columns of a clone_jobs row the pass looks at; times in seconds. */
  datatype JobRow = JobRow(status: Status, createdAt: int, startedAt: Option<int>)
  type Table = map<Job, JobRow>

  const DEFAULT_CLONE_TIMEOUT := 3600

  function StaleBefore(now: int, cloneTimeout: int): int {
    now - (if cloneTimeout <= 0 then DEFAULT_CLONE_TIMEOUT else cloneTimeout) - 60
  }

  predicate Orphan(r: JobRow, staleBefore: int) {
    || (r.status.Running? && (r.startedAt.None? || r.startedAt.value < staleBefore))
    || (r.status.Pending? && r.createdAt < staleBefore)
  }

  function Reap(t: Table, staleBefore: int): Table {
    map j | j in t :: if Orphan(t[j], staleBefore) then t[j].(status := Failed) else t[j]
  }

  /** The answer of the query for pending rows, oldest first. */
  ghost predicate PendingByAge(q: seq<Job>, t: Table) {
    && (forall j :: j in q <==> j in t && t[j].status.Pending?)
    && (forall x, y :: 0 <= x < y < |q| ==> q[x] != q[y])
    && (forall x, y :: 0 <= x < y < |q| ==> q[x] in t && q[y] in t && t[q[x]].createdAt <= t[q[y]].createdAt)
  }

  class Startup {
    var table: Table
    var pending: seq<Job>

    constructor (table: Table)
      ensures this.table == table && pending == []
    {
      this.table := table;
      pending := [];
    }

    /** reapOrphanedJobs; `jobs` is what the second query returns. */
    method ReapOrphanedJobs(now: int, cloneTimeout: int, jobs: seq<Job>)
      requires PendingByAge(jobs, Reap(table, StaleBefore(now, cloneTimeout)))
      modifies this
      ensures table == Reap(old(table), StaleBefore(now, cloneTimeout))
      ensures pending == old(pending) + jobs
      // oldest first
      ensures forall x, y :: |old(pending)| <= x < y < |pending| ==>
                pending[x] in table && pending[y] in table && table[pending[x]].createdAt <= table[pending[y]].createdAt
      // failed: what has run, or waited to run, for a minute longer than the clone timeout
      ensures table.Keys == old(table).Keys
      ensures forall j :: j in old(table) ==>
                var r, limit := old(table)[j], 60 + if cloneTimeout > 0 then cloneTimeout else 3600;
                table[j] == if (r.status == Running && (r.startedAt == None || now - r.startedAt.value > limit))
                               || (r.status == Pending && now - r.createdAt > limit)
                            then r.(status := Failed) else r
    {
      var timeout := cloneTimeout;
      if timeout <= 0 {
        timeout := DEFAULT_CLONE_TIMEOUT;
      }
      var staleBefore := now - timeout - 60;
      table := map j | j in table :: if Orphan(table[j], staleBefore) then table[j].(status := Failed) else table[j];
      var i := 0;
      while i < |jobs|
        invariant 0 <= i <= |jobs|
        invariant pending == old(pending) + jobs[..i]
        invariant table == Reap(old(table), StaleBefore(now, cloneTimeout))
      {
        assert jobs[..i + 1] == jobs[..i] + [jobs[i]];
        pending := pending + [jobs[i]];
        i := i + 1;
      }
      assert jobs[..i] == jobs;
    }
  }

  lemma {:induction false} DistinctCount(q: seq<Job>, k: Job)
    requires forall x, y :: 0 <= x < y < |q| ==> q[x] != q[y]
    ensures Count(q, k) == Is(k in q)
  {
    if q != [] {
      DistinctCount(q[1..], k);
      assert q == [q[0]] + q[1..];
      if q[0] == k {
        assert k !in q[1..];
      }
    }
  }

  /** Every pending row an earlier process left behind is failed as stale or enqueued
      exactly once, never both; every other row is enqueued not at all, and a final
      row keeps its status. */
  lemma LeftoversAreResolvedOnce(t: Table, staleBefore: int, jobs: seq<Job>, k: Job)
    requires PendingByAge(jobs, Reap(t, staleBefore)) && k in t
    ensures t[k].status.Pending? ==>
              if t[k].createdAt < staleBefore then Reap(t, staleBefore)[k].status.Failed? && Count(jobs, k) == 0
              else Reap(t, staleBefore)[k] == t[k] && Count(jobs, k) == 1
    ensures !t[k].status.Pending? ==> Count(jobs, k) == 0
    ensures Final(t[k].status) ==> Reap(t, staleBefore)[k] == t[k]
  {
    DistinctCount(jobs, k);
  }

  function Statuses(t: Table): Rows {
    map j | j in t :: t[j].status
  }

  /** A row still marked running in the table of a starting process belongs to no
      worker.  The pass leaves exactly the recently started ones that way. */
  predicate Pinned(r: JobRow, staleBefore: int) {
    r.status.Running? && r.startedAt.Some? && r.startedAt.value >= staleBefore
  }

  /** The pass leaves no row running exactly when no row of the earlier process was
      recently started and still running. */
  lemma PassResumesUnlessPinned(t: Table, staleBefore: int)
    ensures Resumable(Statuses(Reap(t, staleBefore))) <==> forall j :: j in t ==> !Pinned(t[j], staleBefore)
  {
    var rows := Statuses(Reap(t, staleBefore));
    forall j | j in t ensures (rows[j].Pending? || Final(rows[j])) <==> !Pinned(t[j], staleBefore) {}
    if Resumable(rows) {
      forall j | j in t ensures !Pinned(t[j], staleBefore) {
        assert j in rows;
      }
    }
  }

  /** After a Stop that returned, the next start resumes everything: final rows keep their
      status, and the only rows it finds running are those a crash had left so before; a
      chain of clean stops adds none.  (That it begins in a reachable state is true of any
      table, StartIsReachable; it is repeated here because it carries the results for one
      process over to the next.) */
  lemma CleanStopResumes(s: State, t: Table, staleBefore: int, workers: nat)
    requires Reachable(s) && s.stop.returned && Statuses(t) == s.rows
    ensures Reachable(Initial(workers, Statuses(Reap(t, staleBefore))))
    ensures Initial(workers, Statuses(Reap(t, staleBefore))).pinned <= s.pinned
    ensures s.pinned == multiset{} ==> Resumable(Statuses(Reap(t, staleBefore)))
    ensures forall j :: j in t && Final(t[j].status) ==> Reap(t, staleBefore)[j] == t[j]
  {
    var rows := Statuses(Reap(t, staleBefore));
    StartIsReachable(workers, rows);
    PassResumesUnlessPinned(t, staleBefore);
    forall j | j in t ensures Pinned(t[j], staleBefore) ==> s.pinned[j] == 1 {
      StillRunning(s, t, staleBefore, j);
    }
    PinsCarriedOver(s, t, staleBefore, workers);
    hide Initial, Reachable, Run, Pinned;
  }

  lemma StartIsReachable(workers: nat, rows: Rows)
    ensures Reachable(Initial(workers, rows))
  {
    assert Run(Initial(workers, rows), [], Initial(workers, rows));
  }

  lemma PinsCarriedOver(s: State, t: Table, staleBefore: int, workers: nat)
    requires Reachable(s) && s.stop.returned && Statuses(t) == s.rows
    ensures Initial(workers, Statuses(Reap(t, staleBefore))).pinned <= s.pinned
  {
    var rows := Statuses(Reap(t, staleBefore));
    forall j ensures Initial(workers, rows).pinned[j] <= s.pinned[j] {
      StillRunning(s, t, staleBefore, j);
      InitialPins(workers, rows, j);
      assert j in rows <==> j in t;
      hide Initial, Reap, Statuses, Reachable;
    }
  }

  // A row the pass leaves running after a clean stop was one the process had found so.
  lemma StillRunning(s: State, t: Table, staleBefore: int, j: Job)
    requires Reachable(s) && s.stop.returned && Statuses(t) == s.rows
    ensures j in t && Pinned(t[j], staleBefore) ==> s.pinned[j] == 1
    ensures j in t && Statuses(Reap(t, staleBefore))[j].Running? ==> s.pinned[j] == 1
  {
    if j in t {
      assert j in s.rows;
      StopLeavesResumableRows(s, j);
    }
    hide Reachable;
  }

  lemma InitialPins(workers: nat, rows: Rows, j: Job)
    ensures Initial(workers, rows).pinned[j] == Is(j in rows && rows[j].Running?)
  {
  }

  /** A repository is busy for the scheduler and for CreateCloneJob while one of its
      rows is unfinished. */
  predicate Unfinished(st: Status) {
    st.Pending? || st.Running?
  }

  /** The comment above the pass wants no running row to linger that no live worker
      owns.  Age alone decides, so after a crash a row started within the timeout stays
      unfinished and is not enqueued, and pins its repository until someone cancels it
      or a later start reaps it. */
  lemma CrashPinsRecentRun(t: Table, staleBefore: int, j: Job)
    requires j in t && t[j].status.Running?
    ensures Unfinished(Reap(t, staleBefore)[j].status) <==> Pinned(t[j], staleBefore)
    ensures Pinned(t[j], staleBefore) ==> forall jobs :: PendingByAge(jobs, Reap(t, staleBefore)) ==> j !in jobs
  {
  }

  lemma CrashPinsExample()
    ensures var j := Job(1, "shards/ab/1");
            var t: Table := map[j := JobRow(Running, 0, Some(90))];
            // killed at 95 s, restarted at 100 s with the default timeout
            Reap(t, StaleBefore(100, 3600)) == t && !Resumable(Statuses(t))
  {
    var j := Job(1, "shards/ab/1");
    var t: Table := map[j := JobRow(Running, 0, Some(90))];
    assert j in Statuses(t) && Statuses(t)[j] == Running;
    assert Reap(t, StaleBefore(100, 3600)) == t;
  }
}
