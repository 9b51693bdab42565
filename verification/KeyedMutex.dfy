/** The reference-counted keyed mutex (internal/gitops/keyedmutex.go).

    The lock table is specified on values (`Table`), implemented by the class
    `LockTable`, and then run by any number of interleaved Lock/TryLock sessions
    (`System`).  The main result is that the evicting table is a refinement of one
    permanent lock per key.
  */
module KeyedMutex {
  type Key = string
  type MutexId = nat
  type CallId = nat

  /** The table: which mutex object serves a key, how many references each mutex
      object ever created holds, and the identity of the next object. */
  datatype Table = Table(locks: map<Key, MutexId>, refs: map<MutexId, int>, next: MutexId)

  const EMPTY_TABLE := Table(map[], map[], 0)

  function RefsOf(t: Table, m: MutexId): int {
    if m in t.refs then t.refs[m] else 0
  }

  function Acquired(t: Table, key: Key): MutexId {
    if key in t.locks then t.locks[key] else t.next
  }

  function Acquire(t: Table, key: Key): Table {
    var m := Acquired(t, key);
    Table(t.locks[key := m], t.refs[m := RefsOf(t, m) + 1], if key in t.locks then t.next else t.next + 1)
  }

  // As in the source, the entry removed is the one filed under the key, whichever
  // mutex object the caller released.
  function Release(t: Table, key: Key, m: MutexId): Table {
    var left := RefsOf(t, m) - 1;
    Table(if left <= 0 then t.locks - {key} else t.locks, t.refs[m := left], t.next)
  }

  // ---------------------------------------------------------------- sessions

  /** One Lock or TryLock session, from taking its reference to dropping it. */
  datatype Phase =
    | Blocked(key: Key, m: MutexId)    // Lock: reference taken, waiting on the mutex
    | Trying(key: Key, m: MutexId)     // TryLock: reference taken, mutex not tried yet
    | Holding(key: Key, m: MutexId)
    | Dropping(key: Key, m: MutexId)   // mutex given back or refused, reference not dropped yet

  datatype System = System(table: Table, owner: map<MutexId, CallId>, calls: map<CallId, Phase>)

  const START := System(EMPTY_TABLE, map[], map[])

  datatype Step =
    | BeginLock(c: CallId, key: Key)
    | BeginTry(c: CallId, key: Key)
    | Obtain(c: CallId)
    | Try(c: CallId)
    | Unlock(c: CallId)
    | Drop(c: CallId)

  predicate Guard(s: System, step: Step) {
    match step
    case BeginLock(c, _) => c !in s.calls
    case BeginTry(c, _) => c !in s.calls
    case Obtain(c) => c in s.calls && s.calls[c].Blocked? && s.calls[c].m !in s.owner
    case Try(c) => c in s.calls && s.calls[c].Trying?
    case Unlock(c) => c in s.calls && s.calls[c].Holding?
    case Drop(c) => c in s.calls && s.calls[c].Dropping?
  }

  function Do(s: System, step: Step): System
    requires Guard(s, step)
  {
    match step
    case BeginLock(c, key) =>
      System(Acquire(s.table, key), s.owner, s.calls[c := Blocked(key, Acquired(s.table, key))])
    case BeginTry(c, key) =>
      System(Acquire(s.table, key), s.owner, s.calls[c := Trying(key, Acquired(s.table, key))])
    case Obtain(c) =>
      var p := s.calls[c];
      System(s.table, s.owner[p.m := c], s.calls[c := Holding(p.key, p.m)])
    case Try(c) =>
      var p := s.calls[c];
      if p.m in s.owner then s.(calls := s.calls[c := Dropping(p.key, p.m)])
      else System(s.table, s.owner[p.m := c], s.calls[c := Holding(p.key, p.m)])
    case Unlock(c) =>
      var p := s.calls[c];
      System(s.table, s.owner - {p.m}, s.calls[c := Dropping(p.key, p.m)])
    case Drop(c) =>
      var p := s.calls[c];
      System(Release(s.table, p.key, p.m), s.owner, s.calls - {c})
  }

  function Users(s: System, key: Key): set<CallId> {
    set c | c in s.calls && s.calls[c].key == key
  }

  ghost predicate TableInv(s: System) {
    && (forall m :: m in s.table.refs ==> m < s.table.next)
    && (forall k :: k in s.table.locks ==> s.table.locks[k] < s.table.next)
    && (forall k, k' :: k in s.table.locks && k' in s.table.locks && s.table.locks[k] == s.table.locks[k'] ==> k == k')
  }

  // Every session's reference is to the object filed under its key, and an entry
  // exists exactly while its count is the positive number of sessions on the key.
  ghost predicate RefInv(s: System) {
    UseInv(s) && CountInv(s)
  }

  ghost predicate UseInv(s: System) {
    forall c :: c in s.calls ==>
      s.calls[c].key in s.table.locks && s.table.locks[s.calls[c].key] == s.calls[c].m
  }

  ghost predicate CountInv(s: System) {
    forall k :: k in s.table.locks ==> RefsOf(s.table, s.table.locks[k]) == |Users(s, k)| > 0
  }

  ghost predicate OwnerInv(s: System) {
    && (forall m :: m in s.owner ==>
          s.owner[m] in s.calls && s.calls[s.owner[m]].Holding? && s.calls[s.owner[m]].m == m)
    && (forall c :: c in s.calls && s.calls[c].Holding? ==>
          s.calls[c].m in s.owner && s.owner[s.calls[c].m] == c)
  }

  ghost predicate Inv(s: System) {
    TableInv(s) && RefInv(s) && OwnerInv(s)
  }

  // Begin steps add one user to one key and leave the other keys' users alone.
  lemma JoinUsers(s: System, c: CallId, p: Phase, s': System)
    requires c !in s.calls && s'.calls == s.calls[c := p]
    ensures Users(s', p.key) == Users(s, p.key) + {c}
    ensures |Users(s', p.key)| == |Users(s, p.key)| + 1
    ensures forall k :: k != p.key ==> Users(s', k) == Users(s, k)
  {
    assert Users(s', p.key) == Users(s, p.key) + {c};
    forall k | k != p.key ensures Users(s', k) == Users(s, k) {}
  }

  lemma SameUsers(s: System, c: CallId, p: Phase, s': System)
    requires c in s.calls && s'.calls == s.calls[c := p] && p.key == s.calls[c].key
    ensures forall k :: Users(s', k) == Users(s, k)
  {
    forall k ensures Users(s', k) == Users(s, k) {
      forall d ensures d in Users(s', k) <==> d in Users(s, k) {}
    }
  }

  lemma LeaveUsers(s: System, c: CallId, s': System)
    requires c in s.calls && s'.calls == s.calls - {c}
    ensures Users(s', s.calls[c].key) == Users(s, s.calls[c].key) - {c}
    ensures |Users(s', s.calls[c].key)| == |Users(s, s.calls[c].key)| - 1
    ensures forall k :: k != s.calls[c].key ==> Users(s', k) == Users(s, k)
  {
    var key := s.calls[c].key;
    assert c in Users(s, key);
    assert Users(s', key) == Users(s, key) - {c};
    forall k | k != key ensures Users(s', k) == Users(s, k) {}
  }

  lemma BeginKeepsUse(s: System, c: CallId, p: Phase, s': System)
    requires TableInv(s) && UseInv(s) && c !in s.calls && p.m == Acquired(s.table, p.key)
    requires s' == System(Acquire(s.table, p.key), s.owner, s.calls[c := p])
    ensures TableInv(s') && UseInv(s')
  {
  }

  lemma BeginKeepsCount(s: System, c: CallId, p: Phase, s': System)
    requires TableInv(s) && UseInv(s) && CountInv(s) && c !in s.calls && p.m == Acquired(s.table, p.key)
    requires s' == System(Acquire(s.table, p.key), s.owner, s.calls[c := p])
    ensures CountInv(s')
  {
    JoinUsers(s, c, p, s');
    if p.key !in s.table.locks {
      assert Users(s, p.key) == {};
    }
    forall k | k in s'.table.locks
      ensures RefsOf(s'.table, s'.table.locks[k]) == |Users(s', k)| > 0
    {
      if k != p.key {
        assert s'.table.locks[k] != p.m;
      }
    }
  }

  lemma DropKeepsUse(s: System, c: CallId)
    requires TableInv(s) && UseInv(s) && CountInv(s) && Guard(s, Drop(c))
    ensures TableInv(Do(s, Drop(c))) && UseInv(Do(s, Drop(c)))
  {
    var s' := Do(s, Drop(c));
    var p := s.calls[c];
    LeaveUsers(s, c, s');
    forall d | d in s'.calls
      ensures s'.calls[d].key in s'.table.locks && s'.table.locks[s'.calls[d].key] == s'.calls[d].m
    {
      if s'.calls[d].key == p.key {
        assert d in Users(s', p.key);
      }
    }
  }

  lemma DropKeepsCount(s: System, c: CallId)
    requires TableInv(s) && UseInv(s) && CountInv(s) && Guard(s, Drop(c))
    ensures CountInv(Do(s, Drop(c)))
  {
    var s' := Do(s, Drop(c));
    var p := s.calls[c];
    LeaveUsers(s, c, s');
    forall k | k in s'.table.locks
      ensures RefsOf(s'.table, s'.table.locks[k]) == |Users(s', k)| > 0
    {
      if k != p.key {
        assert s.table.locks[k] != p.m;
      }
    }
  }

  // Steps that leave the table alone and keep each session on its key.
  lemma PhaseKeepsRefs(s: System, c: CallId, p: Phase, s': System)
    requires TableInv(s) && RefInv(s) && c in s.calls && p.key == s.calls[c].key && p.m == s.calls[c].m
    requires s'.table == s.table && s'.calls == s.calls[c := p]
    ensures TableInv(s') && RefInv(s')
  {
    SameUsers(s, c, p, s');
  }

  // A mutex is owned by exactly the session holding it, and changing hands is the
  // only way ownership moves.
  lemma GrantKeepsOwners(s: System, c: CallId, s': System)
    requires OwnerInv(s) && c in s.calls && !s.calls[c].Holding? && s.calls[c].m !in s.owner
    requires s' == System(s.table, s.owner[s.calls[c].m := c], s.calls[c := Holding(s.calls[c].key, s.calls[c].m)])
    ensures OwnerInv(s')
  {
  }

  lemma UnlockKeepsOwners(s: System, c: CallId)
    requires OwnerInv(s) && Guard(s, Unlock(c))
    ensures OwnerInv(Do(s, Unlock(c)))
  {
  }

  lemma StepKeepsOwners(s: System, step: Step)
    requires OwnerInv(s) && Guard(s, step)
    ensures OwnerInv(Do(s, step))
  {
    match step
    case BeginLock(_, _) =>
    case BeginTry(_, _) =>
    case Obtain(c) => GrantKeepsOwners(s, c, Do(s, step));
    case Try(c) =>
      if s.calls[c].m !in s.owner {
        GrantKeepsOwners(s, c, Do(s, step));
      }
    case Unlock(c) => UnlockKeepsOwners(s, c);
    case Drop(c) =>
  }

  lemma StepKeepsInv(s: System, step: Step)
    requires Inv(s) && Guard(s, step)
    ensures Inv(Do(s, step))
  {
    StepKeepsOwners(s, step);
    var s' := Do(s, step);
    match step
    case BeginLock(c, key) =>
      BeginKeepsUse(s, c, s'.calls[c], s');
      BeginKeepsCount(s, c, s'.calls[c], s');
    case BeginTry(c, key) =>
      BeginKeepsUse(s, c, s'.calls[c], s');
      BeginKeepsCount(s, c, s'.calls[c], s');
    case Obtain(c) => PhaseKeepsRefs(s, c, s'.calls[c], s');
    case Try(c) => PhaseKeepsRefs(s, c, s'.calls[c], s');
    case Unlock(c) => PhaseKeepsRefs(s, c, s'.calls[c], s');
    case Drop(c) =>
      DropKeepsUse(s, c);
      DropKeepsCount(s, c);
  }

  // ------------------------------------------------- one permanent lock per key

  /** The abstract lock service: which session holds which key, with no table and
      no mutex objects behind it. */
  datatype Grant = Grant(key: Key, c: CallId)
  type Held = set<Grant>

  datatype Event = Granted(g: Grant) | Refused(g: Grant) | Freed(g: Grant) | Silent

  predicate Permanent(held: Held, e: Event, held': Held) {
    match e
    case Granted(g) => (forall h :: h in held ==> h.key != g.key) && held' == held + {g}
    case Refused(g) => (exists h :: h in held && h.key == g.key && h.c != g.c) && held' == held
    case Freed(g) => g in held && held' == held - {g}
    case Silent => held' == held
  }

  function EventOf(s: System, step: Step): Event
    requires Guard(s, step)
  {
    match step
    case BeginLock(_, _) => Silent
    case BeginTry(_, _) => Silent
    case Obtain(c) => Granted(Grant(s.calls[c].key, c))
    case Try(c) => if s.calls[c].m in s.owner then Refused(Grant(s.calls[c].key, c))
        else Granted(Grant(s.calls[c].key, c))
    case Unlock(c) => Freed(Grant(s.calls[c].key, c))
    case Drop(_) => Silent
  }

  function Abs(s: System): Held {
    set c | c in s.calls && s.calls[c].Holding? :: Grant(s.calls[c].key, c)
  }

  lemma AbsMembers(s: System)
    ensures forall g :: g in Abs(s) <==> g.c in s.calls && s.calls[g.c].Holding? && s.calls[g.c].key == g.key
  {
    forall g: Grant | g.c in s.calls && s.calls[g.c].Holding? && s.calls[g.c].key == g.key ensures g in Abs(s) {
      assert g == Grant(s.calls[g.c].key, g.c);
    }
  }

  lemma SilentRefines(s: System, s': System)
    requires forall c :: (c in s.calls && s.calls[c].Holding?) <==> (c in s'.calls && s'.calls[c].Holding?)
    requires forall c :: c in s.calls && s.calls[c].Holding? ==> s'.calls[c].key == s.calls[c].key
    ensures Permanent(Abs(s), Silent, Abs(s'))
  {
    AbsMembers(s);
    AbsMembers(s');
    assert Abs(s') == Abs(s);
  }

  lemma GrantRefines(s: System, c: CallId, s': System)
    requires UseInv(s) && OwnerInv(s) && c in s.calls && !s.calls[c].Holding? && s.calls[c].m !in s.owner
    requires s' == System(s.table, s.owner[s.calls[c].m := c], s.calls[c := Holding(s.calls[c].key, s.calls[c].m)])
    ensures Permanent(Abs(s), Granted(Grant(s.calls[c].key, c)), Abs(s'))
  {
    AbsMembers(s);
    AbsMembers(s');
    assert Abs(s') == Abs(s) + {Grant(s.calls[c].key, c)};
  }

  // Two mutex objects never serve one key, and one never serves two: the owner of
  // the mutex that refused is a holder of this very key.
  lemma RefusalRefines(s: System, c: CallId)
    requires TableInv(s) && UseInv(s) && OwnerInv(s) && c in s.calls && !s.calls[c].Holding? && s.calls[c].m in s.owner
    ensures Permanent(Abs(s), Refused(Grant(s.calls[c].key, c)), Abs(s))
  {
    var d := s.owner[s.calls[c].m];
    assert Grant(s.calls[d].key, d) in Abs(s);
  }

  lemma TryRefines(s: System, c: CallId)
    requires TableInv(s) && UseInv(s) && OwnerInv(s) && Guard(s, Try(c))
    ensures Permanent(Abs(s), EventOf(s, Try(c)), Abs(Do(s, Try(c))))
  {
    if s.calls[c].m in s.owner {
      RefusalRefines(s, c);
      SilentRefines(s, Do(s, Try(c)));
    } else {
      GrantRefines(s, c, Do(s, Try(c)));
    }
  }

  lemma UnlockRefines(s: System, c: CallId)
    requires Guard(s, Unlock(c))
    ensures Permanent(Abs(s), Freed(Grant(s.calls[c].key, c)), Abs(Do(s, Unlock(c))))
  {
    AbsMembers(s);
    AbsMembers(Do(s, Unlock(c)));
    assert Abs(Do(s, Unlock(c))) == Abs(s) - {Grant(s.calls[c].key, c)};
  }

  lemma DropEvictsOwn(s: System, c: CallId)
    requires UseInv(s) && CountInv(s) && Guard(s, Drop(c))
    ensures s.calls[c].key in s.table.locks && s.table.locks[s.calls[c].key] == s.calls[c].m
    ensures Do(s, Drop(c)).table.locks
         == if Users(s, s.calls[c].key) == {c} then s.table.locks - {s.calls[c].key} else s.table.locks
  {
    var rest := Users(s, s.calls[c].key) - {c};
    assert c in Users(s, s.calls[c].key);
    assert Users(s, s.calls[c].key) == rest + {c};
    assert |Users(s, s.calls[c].key)| == |rest| + 1;
  }

  lemma StepRefines(s: System, step: Step)
    requires Inv(s) && Guard(s, step)
    ensures Inv(Do(s, step))
    ensures Permanent(Abs(s), EventOf(s, step), Abs(Do(s, step)))
  {
    StepKeepsInv(s, step);
    var s' := Do(s, step);
    match step
    case BeginLock(c, key) => SilentRefines(s, s');
    case BeginTry(c, key) => SilentRefines(s, s');
    case Obtain(c) => GrantRefines(s, c, s');
    case Try(c) => TryRefines(s, c);
    case Unlock(c) => UnlockRefines(s, c);
    case Drop(c) => SilentRefines(s, s');
  }

  // ---------------------------------------------------------------- whole runs

  ghost predicate Run(s: System, steps: seq<Step>, t: System)
    decreases |steps|
  {
    if steps == [] then s == t
    else Guard(s, steps[0]) && Run(Do(s, steps[0]), steps[1..], t)
  }

  ghost predicate PermanentRun(held: Held, es: seq<Event>, held': Held)
    decreases |es|
  {
    if es == [] then held == held'
    else exists mid :: Permanent(held, es[0], mid) && PermanentRun(mid, es[1..], held')
  }

  ghost function Events(s: System, steps: seq<Step>, t: System): seq<Event>
    requires Run(s, steps, t)
    decreases |steps|
  {
    if steps == [] then [] else [EventOf(s, steps[0])] + Events(Do(s, steps[0]), steps[1..], t)
  }

  lemma {:induction false} RunRefines(s: System, steps: seq<Step>, t: System)
    requires Inv(s) && Run(s, steps, t)
    ensures Inv(t) && PermanentRun(Abs(s), Events(s, steps, t), Abs(t))
    decreases |steps|
  {
    if steps != [] {
      var mid := Do(s, steps[0]);
      StepRefines(s, steps[0]);
      RunRefines(mid, steps[1..], t);
      var es := Events(s, steps, t);
      assert es[0] == EventOf(s, steps[0]) && es[1..] == Events(mid, steps[1..], t);
    }
  }

  ghost predicate OneHolder(held: Held) {
    forall g, h :: g in held && h in held && g.key == h.key ==> g == h
  }

  function CountEvents(es: seq<Event>, e: Event): nat {
    if es == [] then 0 else (if es[0] == e then 1 else 0) + CountEvents(es[1..], e)
  }

  function Has(held: Held, g: Grant): nat {
    if g in held then 1 else 0
  }

  lemma EventMoves(held: Held, e: Event, held': Held, g: Grant)
    requires Permanent(held, e, held') && OneHolder(held)
    ensures OneHolder(held')
    ensures Has(held', g) + (if e == Freed(g) then 1 else 0) == Has(held, g) + (if e == Granted(g) then 1 else 0)
  {
  }

  /** The abstract service is one lock per key: a key has one holder at most, a session holds it
      exactly if it was granted once more often than it gave it back, and it is refused only
      while another session holds it. */
  lemma {:induction false} PermanentIsALock(held: Held, es: seq<Event>, held': Held, g: Grant)
    requires PermanentRun(held, es, held') && OneHolder(held)
    ensures OneHolder(held')
    ensures Has(held', g) + CountEvents(es, Freed(g)) == Has(held, g) + CountEvents(es, Granted(g))
    decreases |es|
  {
    if es != [] {
      var mid :| Permanent(held, es[0], mid) && PermanentRun(mid, es[1..], held');
      EventMoves(held, es[0], mid, g);
      hide Permanent, Has, OneHolder;
      PermanentIsALock(mid, es[1..], held', g);
    }
  }

  lemma {:induction false} RefusedWhileHeld(held: Held, es: seq<Event>, held': Held, i: nat, g: Grant)
    requires PermanentRun(held, es, held') && OneHolder(held) && i < |es| && es[i] == Refused(g)
    ensures exists c :: c != g.c
                        && Has(held, Grant(g.key, c)) + CountEvents(es[..i], Granted(Grant(g.key, c)))
                           == CountEvents(es[..i], Freed(Grant(g.key, c))) + 1
    decreases |es|
  {
    var mid :| Permanent(held, es[0], mid) && PermanentRun(mid, es[1..], held');
    if i == 0 {
      var h :| h in held && h.key == g.key && h.c != g.c;
      assert Has(held, Grant(g.key, h.c)) == 1;
    } else {
      EventMoves(held, es[0], mid, g);
      hide Permanent, OneHolder, Has, PermanentRun;
      RefusedWhileHeld(mid, es[1..], held', i - 1, g);
      var c :| c != g.c && Has(mid, Grant(g.key, c)) + CountEvents(es[1..][..i - 1], Granted(Grant(g.key, c)))
                           == CountEvents(es[1..][..i - 1], Freed(Grant(g.key, c))) + 1;
      EventMoves(held, es[0], mid, Grant(g.key, c));
      assert es[..i][1..] == es[1..][..i - 1] && es[..i][0] == es[0];
    }
  }

  /** What every reachable state satisfies, in the terms of the design comment. */
  lemma ReachableSafety(steps: seq<Step>, t: System)
    requires Run(START, steps, t)
    ensures PermanentRun({}, Events(START, steps, t), Abs(t))
    // never two mutex objects for one key
    ensures forall c, d :: c in t.calls && d in t.calls && t.calls[c].key == t.calls[d].key ==>
              t.calls[c].m == t.calls[d].m
    // never two holders of one key
    ensures forall c, d :: c in t.calls && d in t.calls && t.calls[c].Holding? && t.calls[d].Holding? ==>
              (t.calls[c].key == t.calls[d].key ==> c == d)
    // an entry exists exactly while some session is on its key, counted exactly
    ensures forall k :: k in t.table.locks <==> Users(t, k) != {}
    ensures forall k :: k in t.table.locks ==> RefsOf(t.table, t.table.locks[k]) == |Users(t, k)|
    ensures t.calls == map[] ==> t.table.locks == map[]
  {
    assert Users(START, "") == {};
    RunRefines(START, steps, t);
    assert Abs(START) == {};
    forall k ensures k in t.table.locks <==> Users(t, k) != {} {
      if Users(t, k) != {} {
        var c :| c in Users(t, k);
      }
    }
    if t.calls == map[] {
      assert forall k :: Users(t, k) == {};
      assert t.table.locks == map[];
    }
  }

  /** A blocked Lock is enabled exactly when nobody holds its key: eviction never
      leaves a waiter parked on a mutex object the table has forgotten. */
  lemma WaiterSeesTheKey(steps: seq<Step>, t: System, c: CallId)
    requires Run(START, steps, t) && c in t.calls && t.calls[c].Blocked?
    ensures Guard(t, Obtain(c)) <==> forall d :: d in t.calls && t.calls[d].Holding? ==>
              t.calls[d].key != t.calls[c].key
  {
    RunRefines(START, steps, t);
    var m := t.calls[c].m;
    if m in t.owner {
      var d := t.owner[m];
      assert t.table.locks[t.calls[d].key] == m == t.table.locks[t.calls[c].key];
      assert t.calls[d].key == t.calls[c].key;
    }
  }

  /** Dropping a reference evicts at most the dropper's own mutex object, and only
      when no other session is on the key. */
  lemma DropEvictsOwnGeneration(steps: seq<Step>, t: System, c: CallId)
    requires Run(START, steps, t) && Guard(t, Drop(c))
    ensures t.calls[c].key in t.table.locks && t.table.locks[t.calls[c].key] == t.calls[c].m
    ensures Do(t, Drop(c)).table.locks
         == if Users(t, t.calls[c].key) == {c} then t.table.locks - {t.calls[c].key} else t.table.locks
  {
    RunRefines(START, steps, t);
    DropEvictsOwn(t, c);
  }

  // ------------------------------------------------------------ the Go objects

  class RefCountedMutex {
    const id: MutexId
    var locked: bool
    var refs: int

    constructor (id: MutexId)
      ensures this.id == id && !locked && refs == 0
    {
      this.id := id;
      locked := false;
      refs := 0;
    }
  }

  // A reference taken on an object that is on file and dropped again leaves no trace.
  lemma Unreferenced(t: Table, key: Key)
    requires key in t.locks ==> RefsOf(t, t.locks[key]) > 0
    ensures key in t.locks ==> Release(Acquire(t, key), key, Acquired(t, key)) == t
  {
    if key in t.locks {
      var m := t.locks[key];
      assert t.refs[m := RefsOf(t, m) + 1][m := RefsOf(t, m)] == t.refs;
      assert t.locks[key := m] == t.locks;
    }
  }

  class LockTable {
    var locks: map<Key, RefCountedMutex>
    ghost var made: map<MutexId, RefCountedMutex>  // every object ever filed, evicted ones too
    var next: MutexId

    ghost predicate Valid()
      reads this, made.Values
    {
      && (forall m :: m in made ==> made[m].id == m && m < next)
      && (forall k :: k in locks ==> locks[k].id in made && made[locks[k].id] == locks[k])
      && (forall k :: k in locks ==> locks[k].refs > 0)
      && (forall k, k' :: k in locks && k' in locks && locks[k] == locks[k'] ==> k == k')
    }

    ghost function State(): Table
      reads this, made.Values
      requires Valid()
    {
      Table(map k | k in locks :: locks[k].id, map m | m in made :: made[m].refs, next)
    }

    constructor ()
      ensures Valid() && State() == EMPTY_TABLE
    {
      locks := map[];
      made := map[];
      next := 0;
    }

    method AcquireRef(key: Key) returns (m: RefCountedMutex)
      requires Valid()
      modifies this, made.Values
      ensures Valid() && State() == Acquire(old(State()), key)
      ensures key in locks && locks[key] == m && m.id == Acquired(old(State()), key)
      ensures if key in old(locks) then m == old(locks)[key] && made == old(made) && m.locked == old(m.locked)
              else fresh(m) && !m.locked && made == old(made)[m.id := m]
    {
      if key in locks {
        m := locks[key];
        Join(key, m);
      } else {
        m := FirstUse(key);
      }
    }

    // One more session on an object that is on file.
    method Join(key: Key, m: RefCountedMutex)
      requires Valid() && key in locks && locks[key] == m
      modifies m`refs
      ensures Valid() && State() == Acquire(old(State()), key)
    {
      ghost var before := State();
      m.refs := m.refs + 1;
      assert State().refs == Acquire(before, key).refs;
      assert State().locks == Acquire(before, key).locks;
    }

    method FirstUse(key: Key) returns (m: RefCountedMutex)
      requires Valid() && key !in locks
      modifies this
      ensures Valid() && State() == Acquire(old(State()), key)
      ensures fresh(m) && !m.locked && locks == old(locks)[key := m] && made == old(made)[m.id := m]
                && m.id == old(next)
    {
      ghost var before := State();
      m := File(key);
      assert State().refs == Acquire(before, key).refs;
      assert State().locks == Acquire(before, key).locks;
    }

    // The first-use branch of acquire, with the caller's reference already counted.
    method File(key: Key) returns (m: RefCountedMutex)
      requires Valid() && key !in locks
      modifies this
      ensures Valid() && fresh(m) && !m.locked && m.id == old(next)
      ensures locks == old(locks)[key := m] && made == old(made)[m.id := m] && next == old(next) + 1
      ensures m.refs == 1 && forall o :: o in old(made.Values) ==> o.refs == old(o.refs)
    {
      m := new RefCountedMutex(next);
      m.refs := m.refs + 1;
      locks := locks[key := m];
      made := made[next := m];
      next := next + 1;
    }

    method ReleaseRef(key: Key, m: RefCountedMutex)
      requires Valid() && key in locks && locks[key] == m
      modifies this`locks, m`refs
      ensures Valid() && State() == Release(old(State()), key, m.id)
    {
      ghost var before := State();
      assert RefsOf(before, m.id) == m.refs;
      m.refs := m.refs - 1;
      if m.refs <= 0 {
        locks := locks - {key};
      }
      assert State().refs == Release(before, key, m.id).refs;
      assert State().locks == Release(before, key, m.id).locks;
    }

    /** TryLock run without interference: it succeeds exactly on a free key, and a
        contended attempt leaves the table as it was. */
    method TryLock(key: Key) returns (m: RefCountedMutex, ok: bool)
      requires Valid()
      modifies this, made.Values
      ensures Valid()
      ensures ok <==> !(key in old(locks) && old(locks[key].locked))
      ensures ok ==> State() == Acquire(old(State()), key) && key in locks && locks[key] == m && m.locked
      ensures !ok ==> State() == old(State())
    {
      ghost var before := State();
      Unreferenced(before, key);
      m := AcquireRef(key);
      hide Acquire, Release, Acquired;
      if !m.locked {
        m.locked := true;
        ok := true;
      } else {
        ReleaseRef(key, m);
        ok := false;
      }
    }

    method Unlock(key: Key, m: RefCountedMutex)
      requires Valid() && key in locks && locks[key] == m && m.locked
      modifies this`locks, m
      ensures Valid() && !m.locked && State() == Release(old(State()), key, m.id)
    {
      m.locked := false;
      ReleaseRef(key, m);
    }
  }
}
