/** The throttle on password logins (internal/services/login_throttle.go) with the gate in
    front of the password check and the lockout schedule (internal/services/auth_service.go).
    Times are nanoseconds; the password check itself is a parameter.
  */
module LoginThrottle {
  import opened Wrappers

  const MINUTE: int64 := 60_000_000_000
  const MAX_FAILURES := 5
  const BASE_LOCKOUT: int64 := 15 * MINUTE
  const MAX_LOCKOUT: int64 := 24 * 60 * MINUTE
  const MAX_ENTRIES := 100_000

  // -------------------------------------------------------------- the lockout schedule

  /** lockoutDuration.  The capped shift stays inside an int64, and the result is the
      promised schedule: fifteen minutes, doubled per failure past the threshold, at most
      a day. */
  function LockoutDuration(failures: int): (d: int64)
    ensures d as int == Lockout(failures)
  {
    var past := if failures < MAX_FAILURES then 0 else failures - MAX_FAILURES;
    var shift := if past > 10 then 10 else past;
    Pow2Monotone(shift, past);
    Pow2Monotone(shift, 10);
    assert Pow2(10) == 1024;
    assert past > 10 ==> Pow2(past) >= 1024;
    var d := BASE_LOCKOUT * Pow2(shift) as int64;
    if d <= 0 || d > MAX_LOCKOUT then MAX_LOCKOUT else d
  }

  function Lockout(failures: int): int {
    var doubled := BASE_LOCKOUT as int * Pow2(if failures < MAX_FAILURES then 0 else failures - MAX_FAILURES);
    if doubled < MAX_LOCKOUT as int then doubled else MAX_LOCKOUT as int
  }

  lemma LockoutRange(failures: int)
    ensures BASE_LOCKOUT as int <= Lockout(failures) <= MAX_LOCKOUT as int
  {
    Pow2Monotone(0, if failures < MAX_FAILURES then 0 else failures - MAX_FAILURES);
  }

  // The locks that must have passed before failure number k + 1.
  function Locks(k: nat): int {
    if k < MAX_FAILURES then 0 else Locks(k - 1) + Lockout(k)
  }

  /** Fifteen minutes at the fifth failure, doubled by each further one, at most a day. */
  lemma LockoutDoubles(failures: int)
    ensures failures <= 5 ==> Lockout(failures) == 900_000_000_000
    ensures failures >= 5 ==>
              Lockout(failures + 1) == if 2 * Lockout(failures) < 86_400_000_000_000 then 2 * Lockout(failures)
                                       else 86_400_000_000_000
  {
    Pow2Monotone(0, if failures < MAX_FAILURES then 0 else failures - MAX_FAILURES);
  }

  /** Twelve failures take at least 1905 minutes, and each further one at least a day. */
  lemma {:induction false} LocksClosedForm(j: nat)
    ensures Locks(11 + j) == 1905 * 60_000_000_000 + j * 86_400_000_000_000
  {
    if j == 0 {
      assert Pow2(1) == 2 && Pow2(2) == 4 && Pow2(3) == 8 && Pow2(4) == 16 && Pow2(5) == 32 && Pow2(6) == 64;
      assert Locks(4) == 0;
      assert Lockout(5) == 15 * MINUTE as int && Lockout(6) == 30 * MINUTE as int && Lockout(7) == 60 * MINUTE as int;
      assert Lockout(8) == 120 * MINUTE as int && Lockout(9) == 240 * MINUTE as int
          && Lockout(10) == 480 * MINUTE as int;
      assert Lockout(11) == 960 * MINUTE as int;
      assert Locks(7) == 105 * MINUTE as int;
      assert Locks(11) == Locks(8) + Lockout(9) + Lockout(10) + Lockout(11);
    } else {
      LocksClosedForm(j - 1);
      Pow2Monotone(7, 6 + j);
      assert Pow2(7) == 128;
      assert Lockout(11 + j) == MAX_LOCKOUT as int;
    }
  }

  // --------------------------------------------------------------------- the entries

  datatype Key = Key(user: nat, ip: string)

  // lockedUntil is the zero time until the threshold is reached.
  datatype Entry = Entry(failures: nat, lockedUntil: Option<int>, lastFailure: int)

  type Entries = map<Key, Entry>

  predicate LockedAt(e: Entry, now: int) {
    e.lockedUntil.Some? && e.lockedUntil.value > now
  }

  predicate Locked(entries: Entries, k: Key, now: int) {
    k in entries && LockedAt(entries[k], now)
  }

  predicate Stale(e: Entry, now: int) {
    !LockedAt(e, now) && now - e.lastFailure > MAX_LOCKOUT as int
  }

  function Swept(entries: Entries, now: int): Entries {
    map k | k in entries && !Stale(entries[k], now) :: entries[k]
  }

  // Half-way through a sweep: the entries in `todo` have not been looked at.
  ghost function SweptBut(entries: Entries, now: int, todo: set<Key>): Entries {
    map k | k in entries && (k in todo || !Stale(entries[k], now)) :: entries[k]
  }

  lemma StillToSee(entries: Entries, now: int, todo: set<Key>)
    ensures todo == entries.Keys ==> SweptBut(entries, now, todo) == entries
    ensures todo == {} ==> SweptBut(entries, now, todo) == Swept(entries, now)
    ensures forall k :: k in SweptBut(entries, now, todo) ==>
              k in entries && SweptBut(entries, now, todo)[k] == entries[k]
  {
  }

  lemma SweepOne(entries: Entries, now: int, todo: set<Key>, k: Key)
    requires k in todo && todo <= entries.Keys
    ensures k in SweptBut(entries, now, todo) && SweptBut(entries, now, todo)[k] == entries[k]
    ensures SweptBut(entries, now, todo - {k})
            == if Stale(entries[k], now) then SweptBut(entries, now, todo) - {k} else SweptBut(entries, now, todo)
  {
    hide Stale;
  }

  function Failure(was: Option<Entry>, now: int): Entry {
    var failures := if was.Some? then was.value.failures + 1 else 1;
    Entry(failures,
          if failures >= MAX_FAILURES then Some(now + Lockout(failures))
          else if was.Some? then was.value.lockedUntil else None,
          now)
  }

  function Recorded(entries: Entries, k: Key, now: int): Entries {
    if k in entries then entries[k := Failure(Some(entries[k]), now)]
    else (if |entries| >= MAX_ENTRIES then Swept(entries, now) else entries)[k := Failure(None, now)]
  }

  /** A sweep never lifts a lock that is still running. */
  lemma SweepSparesLocks(entries: Entries, k: Key, now: int, later: int)
    requires now <= later
    ensures Locked(Swept(entries, now), k, later) <==> Locked(entries, k, later)
  {
  }

  lemma SweptKeys(entries: Entries, now: int)
    ensures |Swept(entries, now)| <= |entries|
    ensures |Swept(entries, now)| == |entries| <==> forall k :: k in entries ==> !Stale(entries[k], now)
  {
    var dropped := set k | k in entries && Stale(entries[k], now);
    assert Swept(entries, now).Keys == entries.Keys - dropped;
    assert entries.Keys == (entries.Keys - dropped) + dropped;
    assert |entries.Keys| == |entries.Keys - dropped| + |dropped|;
    if k :| k in entries && Stale(entries[k], now) {
      assert k in dropped;
    } else {
      assert dropped == {};
    }
  }

  /** The limit on entries is only a trigger for the sweep: a full map takes the new entry
      all the same, and grows exactly when no entry is stale. */
  lemma FullMapStillGrows(entries: Entries, k: Key, now: int)
    requires k !in entries && |entries| >= 100_000
    ensures |Recorded(entries, k, now)| > |entries| <==> forall j :: j in entries ==> !Stale(entries[j], now)
  {
    SweptKeys(entries, now);
    var swept := Swept(entries, now);
    assert swept[k := Failure(None, now)].Keys == swept.Keys + {k};
    hide Swept, Stale;
  }

  // ------------------------------------------------------------------ counted failures

  // The failures counted in an entry, oldest first: each waits out the lock before it.
  ghost predicate Paced(times: seq<int>) {
    && (forall j :: 0 < j < |times| ==> times[j - 1] <= times[j])
    && (forall j :: MAX_FAILURES <= j < |times| ==> times[j - 1] + Lockout(j) <= times[j])
  }

  // What an entry remembers of its counted failures.
  ghost predicate Remembers(e: Entry, times: seq<int>) {
    && e.failures == |times| > 0 && e.lastFailure == times[|times| - 1]
    && e.lockedUntil == if |times| >= MAX_FAILURES then Some(e.lastFailure + Lockout(|times|)) else None
  }

  ghost predicate Kept(e: Entry, times: seq<int>, rushed: bool) {
    Remembers(e, times) && (!rushed ==> Paced(times))
  }

  /** The brute-force bound: the (k+1)-th counted failure comes no sooner after the first
      than the sum of all the locks in between. */
  lemma {:induction false} BruteForceBound(times: seq<int>, k: nat)
    requires Paced(times) && k < |times|
    ensures times[k] >= times[0] + Locks(k)
  {
    if k > 0 {
      BruteForceBound(times, k - 1);
      assert times[k - 1] <= times[k];
    }
  }

  /** Exactly: one more failure keeps an entry's failures paced if and only if it is counted
      while the entry is not locked. */
  lemma PacedExactly(e: Entry, times: seq<int>, now: int)
    requires Remembers(e, times) && Paced(times) && e.lastFailure <= now
    ensures Paced(times + [now]) <==> !LockedAt(e, now)
  {
    var n := |times|;
    assert (times + [now])[n] == now && (times + [now])[n - 1] == times[n - 1];
    hide Lockout;
    if LockedAt(e, now) {
      assert times[n - 1] + Lockout(n) > now;
    }
  }

  // Counted inside a lock, or dated before the failure counted last.
  predicate Rushes(was: Option<Entry>, now: int) {
    was.Some? && (LockedAt(was.value, now) || now < was.value.lastFailure)
  }

  lemma FailureKept(was: Option<Entry>, times: seq<int>, rushed: bool, now: int)
    requires if was.Some? then Kept(was.value, times, rushed) else times == []
    ensures Kept(Failure(was, now), times + [now], (was.Some? && rushed) || Rushes(was, now))
  {
    if was.Some? && !rushed && !Rushes(was, now) {
      PacedExactly(was.value, times, now);
    }
    hide Lockout, Paced;
    assert was.None? ==> Paced([now]) by { PacedOnce(now); }
    assert [] + [now] == [now];
  }

  lemma PacedOnce(now: int)
    ensures Paced([now])
  {
  }

  /** The gate is looked at before the password is checked and the failure counted after, so
      two logins that pass it together can be counted one inside the other's lock: of two
      failures at one time the second breaks the pace exactly when the first reaches the
      threshold. */
  lemma TogetherTheyAreCounted(entries: Entries, k: Key, now: int)
    requires !Locked(entries, k, now)
    ensures var once := Recorded(entries, k, now);
            && (Rushes(Some(once[k]), now) <==> once[k].failures >= MAX_FAILURES)
            && once[k].failures == (if k in entries then entries[k].failures else 0) + 1
            && Recorded(once, k, now)[k].failures == once[k].failures + 1
  {
    LockoutRange(if k in entries then entries[k].failures + 1 else 1);
    hide Lockout;
  }

  datatype Verdict = Refused | Denied | Admitted

  class Throttle {
    var entries: Entries
    ghost var counted: map<Key, seq<int>>   // the times of the failures each entry counts
    ghost var rushed: set<Key>              // those that count a failure inside a lock

    ghost predicate Valid()
      reads this
    {
      counted.Keys == entries.Keys && forall k :: k in entries ==> Kept(entries[k], counted[k], k in rushed)
    }

    constructor ()
      ensures Valid() && entries == map[]
    {
      entries, counted, rushed := map[], map[], {};
    }

    method LockedUntil(k: Key, now: int) returns (until: Option<int>)
      ensures until.Some? <==> Locked(entries, k, now)
      ensures until.Some? ==> until == entries[k].lockedUntil
    {
      if k !in entries || !LockedAt(entries[k], now) {
        return None;
      }
      return entries[k].lockedUntil;
    }

    method SweepLocked(now: int)
      requires Valid()
      modifies this
      ensures Valid() && entries == Swept(old(entries), now) && rushed == old(rushed)
      // out go the entries that are not locked and a day old
      ensures forall k :: k in old(entries) ==>
                (k in entries <==>
                  || (old(entries)[k].lockedUntil.Some? && now < old(entries)[k].lockedUntil.value)
                  || now - old(entries)[k].lastFailure <= 86_400_000_000_000)
      ensures forall k :: k in entries ==> k in old(entries) && entries[k] == old(entries)[k]
      ensures forall k :: k in entries ==> k in old(entries) && counted[k] == old(counted)[k]
    {
      var todo := entries.Keys;
      StillToSee(old(entries), now, todo);
      while todo != {}
        invariant todo <= old(entries).Keys && entries == SweptBut(old(entries), now, todo) && rushed == old(rushed)
        invariant counted.Keys == entries.Keys && forall k :: k in entries ==> counted[k] == old(counted)[k]
      {
        hide SweptBut, Stale;
        var k :| k in todo;
        SweepOne(old(entries), now, todo, k);
        todo := todo - {k};
        if Stale(entries[k], now) {
          entries := entries - {k};
          counted := counted - {k};
        }
      }
      StillToSee(old(entries), now, todo);
      hide SweptBut, Kept, Stale;
    }

    /** Counts one failure, whenever it comes. */
    method RecordFailure(k: Key, now: int) returns (failures: nat, lockedUntil: Option<int>)
      requires Valid()
      modifies this
      ensures Valid() && entries == Recorded(old(entries), k, now)
      ensures failures == entries[k].failures && lockedUntil == entries[k].lockedUntil
      ensures counted[k] == (if k in old(entries) then old(counted)[k] else []) + [now]
      ensures k in rushed <==> k in old(entries) && (k in old(rushed) || Rushes(Some(old(entries)[k]), now))
      ensures forall j :: j != k ==> (j in rushed <==> j in old(rushed))
      // this entry in words, and the others: only a full map loses some, and no locked or young one
      ensures failures == (if k in old(entries) then old(entries)[k].failures else 0) + 1
      ensures entries[k].lastFailure == now && (failures >= 5 ==> lockedUntil == Some(now + Lockout(failures)))
      ensures failures < 5 ==> lockedUntil == if k in old(entries) then old(entries)[k].lockedUntil else None
      ensures forall j :: j != k && j in entries ==> j in old(entries) && entries[j] == old(entries)[j]
      ensures forall j :: j != k && j in old(entries)
                && (|old(entries)| < 100_000 || k in old(entries)
                    || now - old(entries)[j].lastFailure <= 86_400_000_000_000
                    || (old(entries)[j].lockedUntil.Some? && now < old(entries)[j].lockedUntil.value))
                ==> j in entries
    {
      hide Lockout, Swept, Kept;
      if k !in entries && |entries| >= MAX_ENTRIES {
        SweepLocked(now);
      }
      assert k in entries <==> k in old(entries);
      ghost var was := if k in entries then Some(entries[k]) else None;
      ghost var times := if k in entries then counted[k] else [];
      ghost var late := (was.Some? && k in rushed) || Rushes(was, now);
      var e := if k in entries then entries[k] else Entry(0, None, now);
      e := e.(failures := e.failures + 1, lastFailure := now);
      if e.failures >= MAX_FAILURES {
        e := e.(lockedUntil := Some(now + LockoutDuration(e.failures) as int));
      }
      assert e == Failure(was, now);
      FailureKept(was, times, k in rushed, now);
      hide Failure, Rushes;
      counted := counted[k := times + [now]];
      entries := entries[k := e];
      rushed := if late then rushed + {k} else rushed - {k};
      return e.failures, e.lockedUntil;
    }

    method Reset(k: Key)
      requires Valid()
      modifies this`entries, this`counted
      ensures Valid() && entries == old(entries) - {k} && counted == old(counted) - {k}
    {
      entries := entries - {k};
      counted := counted - {k};
    }

    /** A login up to the password verdict: the gate, the check, then the bookkeeping.  A
        locked pair is refused whatever the password, and nothing changes. */
    method Login(k: Key, arrived: int, verified: bool, checked: int) returns (v: Verdict)
      requires Valid() && arrived <= checked
      modifies this
      ensures Valid()
      ensures v.Refused? <==> Locked(old(entries), k, arrived)
      ensures v.Refused? ==> entries == old(entries) && counted == old(counted)
      ensures v.Admitted? ==> verified && entries == old(entries) - {k}
      ensures v.Denied? ==> !verified && entries == Recorded(old(entries), k, checked)
      ensures k in old(entries) && old(entries)[k].lastFailure <= checked && k !in old(rushed) ==> k !in rushed
      ensures v.Denied? ==> counted[k] == (if k in old(entries) then old(counted)[k] else []) + [checked]
    {
      var until := LockedUntil(k, arrived);
      if until.Some? {
        return Refused;
      }
      if !verified {
        var failures, lockedUntil := RecordFailure(k, checked);
        return Denied;
      }
      Reset(k);
      return Admitted;
    }
  }
  /** The bound for every throttle any sequence of logins, sweeps and resets can leave, and
      every entry that counts no failure inside a lock. */
  lemma CountedFailuresAreSpread(t: Throttle, k: Key, j: nat)
    requires t.Valid() && k in t.entries && j < t.entries[k].failures && k !in t.rushed
    ensures j < |t.counted[k]| && t.counted[k][j] >= t.counted[k][0] + Locks(j)
  {
    BruteForceBound(t.counted[k], j);
  }
}
