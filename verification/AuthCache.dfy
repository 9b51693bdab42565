/** The in-memory cache of validated users (internal/middleware/authcache.go), with
    the validators that fill it (internal/middleware/auth.go) and the flows that
    revoke credentials (internal/services/auth_service.go), all interleaving.
  */
module AuthCache {
  import opened Wrappers

  type Key = string      // the at-rest hash of a credential
  type UserId = nat

  datatype UserRow = UserRow(active: bool, profile: nat)

  datatype Entry = Entry(user: UserRow, userId: UserId, expiresAt: int)

  datatype Cache = Cache(gen: nat, entries: map<Key, Entry>)

  const TTL := 30_000_000_000                 // authCacheTTL, in nanoseconds
  const WRAP := 0x1_0000_0000_0000_0000       // the generation is a uint64

  // ------------------------------------------------------------ the cache on values

  predicate Expired(e: Entry, now: int) {
    now > e.expiresAt
  }

  function Get(c: Cache, key: Key, now: int): (Cache, Option<UserRow>) {
    if key !in c.entries then (c, None)
    else if Expired(c.entries[key], now) then (c.(entries := c.entries - {key}), None)
    else (c, Some(c.entries[key].user))
  }

  function Store(c: Cache, key: Key, user: UserRow, userId: UserId, gen: nat, now: int): Cache {
    if c.gen != gen then c else c.(entries := c.entries[key := Entry(user, userId, now + TTL)])
  }

  function Evict(c: Cache, key: Key): Cache {
    Cache((c.gen + 1) % WRAP, c.entries - {key})
  }

  function EvictUser(c: Cache, u: UserId): Cache {
    Cache((c.gen + 1) % WRAP, map k | k in c.entries && c.entries[k].userId != u :: c.entries[k])
  }

  function Sweep(c: Cache, now: int): Cache {
    c.(entries := map k | k in c.entries && !Expired(c.entries[k], now) :: c.entries[k])
  }

  // ---------------------------------------------------------- everything around it

  /** A validation between begin and store.  seenCred and seenUser count the changes
      of the row that its reading reflects. */
  datatype Validator =
    | Began(key: Key, gen: nat, begun: nat)
    | ReadCred(key: Key, gen: nat, begun: nat, seenCred: nat)
    | ReadUser(key: Key, gen: nat, begun: nat, seenCred: nat, seenUser: nat, row: UserRow)

  /** A revocation between its database write and its eviction, with the number of
      changes the rows it wrote had then undergone. */
  datatype Mutator =
    | WroteCred(key: Key, credCount: nat)
    | WroteUser(user: UserId, userCount: nat, credCounts: map<Key, nat>)

  /** What a cached entry was made from. */
  datatype Origin = Origin(seenCred: nat, seenUser: nat, storedAt: int)

  datatype World = World(
    owner: Key -> UserId,                    // a credential row's user_id never changes
    creds: map<Key, seq<bool>>,              // every version of each credential row: usable or not
    users: map<UserId, seq<UserRow>>,        // every version of each user row
    cache: Cache,
    origins: map<Key, Origin>,
    validators: map<nat, Validator>,
    mutators: map<nat, Mutator>,
    credDone: map<Key, nat>,                 // changes of the row whose eviction has returned
    userDone: map<UserId, nat>,
    evictions: nat,
    now: int)

  function Start(owner: Key -> UserId, creds: map<Key, seq<bool>>, users: map<UserId, seq<UserRow>>, now: int): World {
    World(owner, creds, users, Cache(0, map[]), map[], map[], map[], map[], map[], 0, now)
  }

  function CredRows(w: World, k: Key): seq<bool> { if k in w.creds then w.creds[k] else [] }
  function UserRows(w: World, u: UserId): seq<UserRow> { if u in w.users then w.users[u] else [] }
  function CredDone(w: World, k: Key): nat { if k in w.credDone then w.credDone[k] else 0 }
  function UserDone(w: World, u: UserId): nat { if u in w.userDone then w.userDone[u] else 0 }
  function Max(a: nat, b: nat): nat { if a < b then b else a }

  datatype Step =
    | Wait(d: nat)
    | Lookup(k: Key)
    | Forget(k: Key)                                      // a late Delete by get or sweep, whatever is there
    | SweepAll
    | BeginValidation(v: nat, k: Key)
    | LoadCred(v: nat)
    | LoadUser(v: nat)
    | Publish(v: nat)
    | GiveUp(v: nat)
    | ChangeCred(k: Key, usable: bool)                    // no eviction: a login's new session, natural expiry
    | ChangeUser(u: UserId, row: UserRow)                 // no eviction: last_login and the like
    | RevokeCred(m: nat, k: Key, usable: bool)            // Logout, RevokeAPIKey, DeleteAPIKey
    | RevokeUser(m: nat, u: UserId, row: UserRow, sessions: set<Key>)  // ChangePassword, SetUserStatus, UpdateUser
    | FinishEviction(m: nat)

  predicate Guard(w: World, step: Step) {
    match step
    case BeginValidation(v, k) => v !in w.validators
    case LoadCred(v) =>
      v in w.validators && w.validators[v].Began?
      && var rows := CredRows(w, w.validators[v].key); rows != [] && rows[|rows| - 1]
    case LoadUser(v) =>
      v in w.validators && w.validators[v].ReadCred?
      && var rows := UserRows(w, w.owner(w.validators[v].key)); rows != [] && rows[|rows| - 1].active
    case Publish(v) => v in w.validators && w.validators[v].ReadUser?
    case GiveUp(v) => v in w.validators
    case RevokeCred(m, _, _) => m !in w.mutators
    case RevokeUser(m, u, _, sessions) => m !in w.mutators && forall k :: k in sessions ==> w.owner(k) == u
    case FinishEviction(m) => m in w.mutators
    case _ => true
  }

  function AddCred(w: World, k: Key, usable: bool): map<Key, seq<bool>> {
    w.creds[k := CredRows(w, k) + [usable]]
  }

  function AddUser(w: World, u: UserId, row: UserRow): map<UserId, seq<UserRow>> {
    w.users[u := UserRows(w, u) + [row]]
  }

  function AddRevoked(w: World, sessions: set<Key>): map<Key, seq<bool>> {
    map k | k in w.creds.Keys + sessions :: if k in sessions then CredRows(w, k) + [false] else w.creds[k]
  }

  function Do(w: World, step: Step): World
    requires Guard(w, step)
  {
    match step
    case Wait(d) => w.(now := w.now + d)
    case Lookup(k) => w.(cache := Get(w.cache, k, w.now).0)
    case Forget(k) => w.(cache := w.cache.(entries := w.cache.entries - {k}))
    case SweepAll => w.(cache := Sweep(w.cache, w.now))
    case BeginValidation(v, k) => w.(validators := w.validators[v := Began(k, w.cache.gen, w.evictions)])
    case LoadCred(v) =>
      var x := w.validators[v];
      w.(validators := w.validators[v := ReadCred(x.key, x.gen, x.begun, |CredRows(w, x.key)|)])
    case LoadUser(v) =>
      var x := w.validators[v];
      var rows := UserRows(w, w.owner(x.key));
      w.(validators := w.validators[v := ReadUser(x.key, x.gen, x.begun, x.seenCred, |rows|, rows[|rows| - 1])])
    case Publish(v) => DoPublish(w, v)
    case GiveUp(v) => w.(validators := w.validators - {v})
    case ChangeCred(k, usable) => w.(creds := AddCred(w, k, usable))
    case ChangeUser(u, row) => w.(users := AddUser(w, u, row))
    case RevokeCred(m, k, usable) =>
      w.(creds := AddCred(w, k, usable), mutators := w.mutators[m := WroteCred(k, |CredRows(w, k)| + 1)])
    case RevokeUser(m, u, row, sessions) =>
      w.(creds := AddRevoked(w, sessions), users := AddUser(w, u, row),
         mutators := w.mutators[m := WroteUser(u, |UserRows(w, u)| + 1, map k | k in sessions :: |CredRows(w, k)| + 1)])
    case FinishEviction(m) => DoEvict(w, m)
  }

  function DoPublish(w: World, v: nat): World
    requires Guard(w, Publish(v))
  {
    var x := w.validators[v];
    w.(cache := Store(w.cache, x.key, x.row, w.owner(x.key), x.gen, w.now),
       origins := if w.cache.gen == x.gen then w.origins[x.key := Origin(x.seenCred, x.seenUser, w.now)] else w.origins,
       validators := w.validators - {v})
  }

  function CacheAfter(c: Cache, y: Mutator): Cache {
    match y
    case WroteCred(k, _) => Evict(c, k)
    case WroteUser(u, _, _) => EvictUser(c, u)
  }

  function CredDoneAfter(w: World, y: Mutator): map<Key, nat> {
    match y
    case WroteCred(k, n) => w.credDone[k := Max(CredDone(w, k), n)]
    case WroteUser(_, _, counts) =>
      map k | k in w.credDone.Keys + counts.Keys :: if k in counts then Max(CredDone(w, k), counts[k])
          else w.credDone[k]
  }

  function UserDoneAfter(w: World, y: Mutator): map<UserId, nat> {
    match y
    case WroteCred(_, _) => w.userDone
    case WroteUser(u, n, _) => w.userDone[u := Max(UserDone(w, u), n)]
  }

  function DoEvict(w: World, m: nat): World
    requires Guard(w, FinishEviction(m))
  {
    var y := w.mutators[m];
    w.(cache := CacheAfter(w.cache, y), evictions := w.evictions + 1, mutators := w.mutators - {m},
       credDone := CredDoneAfter(w, y), userDone := UserDoneAfter(w, y))
  }

  // ------------------------------------------------------------------- invariants

  // A reading that is still publishable reflects every change already evicted for.
  ghost predicate ValidatorOk(w: World, x: Validator) {
    && x.begun <= w.evictions && x.gen == x.begun % WRAP
    && (!x.Began? ==>
          && 0 < x.seenCred <= |CredRows(w, x.key)| && CredRows(w, x.key)[x.seenCred - 1]
          && (x.begun == w.evictions ==> x.seenCred >= CredDone(w, x.key)))
    && (x.ReadUser? ==>
          && 0 < x.seenUser <= |UserRows(w, w.owner(x.key))| && UserRows(w, w.owner(x.key))[x.seenUser - 1] == x.row
              && x.row.active
          && (x.begun == w.evictions ==> x.seenUser >= UserDone(w, w.owner(x.key))))
  }

  ghost predicate MutatorOk(w: World, y: Mutator) {
    match y
    case WroteCred(k, n) => n <= |CredRows(w, k)|
    case WroteUser(u, n, counts) =>
      n <= |UserRows(w, u)| && forall k :: k in counts ==> w.owner(k) == u && counts[k] <= |CredRows(w, k)|
  }

  // An entry agrees with the database up to every change whose eviction has returned.
  ghost predicate EntryOk(w: World, k: Key) {
    k in w.cache.entries ==>
      && k in w.origins
      && var e, o := w.cache.entries[k], w.origins[k];
      && e.userId == w.owner(k) && e.expiresAt == o.storedAt + TTL && o.storedAt <= w.now
      && CredDone(w, k) <= o.seenCred && 0 < o.seenCred <= |CredRows(w, k)| && CredRows(w, k)[o.seenCred - 1]
      && UserDone(w, w.owner(k)) <= o.seenUser && 0 < o.seenUser <= |UserRows(w, w.owner(k))|
      && UserRows(w, w.owner(k))[o.seenUser - 1] == e.user && e.user.active
  }

  ghost predicate DoneOk(w: World) {
    && (forall k :: CredDone(w, k) <= |CredRows(w, k)|)
    && (forall u :: UserDone(w, u) <= |UserRows(w, u)|)
  }

  ghost predicate Inv(w: World) {
    && w.cache.gen == w.evictions % WRAP
    && DoneOk(w)
    && (forall v :: v in w.validators ==> ValidatorOk(w, w.validators[v]))
    && (forall m :: m in w.mutators ==> MutatorOk(w, w.mutators[m]))
    && (forall k :: EntryOk(w, k))
  }

  /** No validation is under way for 2^64 evictions: the condition under which the
      wrapping generation tells two moments apart. */
  predicate Timely(w: World, step: Step) {
    step.Publish? && step.v in w.validators ==> w.evictions < w.validators[step.v].begun + WRAP
  }

  lemma GenerationsAgree(begun: nat, evictions: nat)
    requires begun <= evictions < begun + WRAP && begun % WRAP == evictions % WRAP
    ensures begun == evictions
  {
  }

  predicate Quiet(step: Step) {
    !step.Publish? && !step.FinishEviction?
  }

  // The database only ever gains versions.
  ghost predicate Extends(w: World, w': World) {
    && w'.owner == w.owner && w'.now >= w.now
    && (forall k :: CredRows(w, k) <= CredRows(w', k))
    && (forall u :: UserRows(w, u) <= UserRows(w', u))
  }

  lemma RevocationExtends(w: World, m: nat, u: UserId, row: UserRow, sessions: set<Key>)
    requires Guard(w, RevokeUser(m, u, row, sessions))
    ensures Extends(w, Do(w, RevokeUser(m, u, row, sessions)))
  {
    var w' := Do(w, RevokeUser(m, u, row, sessions));
    forall k ensures CredRows(w, k) <= CredRows(w', k) {
      assert k in w'.creds <==> k in w.creds || k in sessions;
    }
  }

  lemma StepExtends(w: World, step: Step)
    requires Guard(w, step) && Quiet(step)
    ensures Extends(w, Do(w, step))
  {
    match step
    case RevokeUser(m, u, row, sessions) => RevocationExtends(w, m, u, row, sessions);
    case _ =>
  }

  lemma PrefixKeeps<T>(a: seq<T>, b: seq<T>, i: nat)
    requires a <= b && 0 < i <= |a|
    ensures i <= |b| && b[i - 1] == a[i - 1]
  {
  }

  // Without an eviction, what was in order stays in order.
  lemma ValidatorStays(w: World, w': World, x: Validator)
    requires Extends(w, w') && ValidatorOk(w, x)
    requires w'.evictions == w.evictions && w'.credDone == w.credDone && w'.userDone == w.userDone
    ensures ValidatorOk(w', x)
  {
    if !x.Began? {
      PrefixKeeps(CredRows(w, x.key), CredRows(w', x.key), x.seenCred);
    }
    if x.ReadUser? {
      PrefixKeeps(UserRows(w, w.owner(x.key)), UserRows(w', w.owner(x.key)), x.seenUser);
    }
  }

  // And an eviction makes every validation in flight unpublishable.
  lemma ValidatorOutrun(w: World, w': World, x: Validator)
    requires Extends(w, w') && ValidatorOk(w, x) && w'.evictions > w.evictions
    ensures ValidatorOk(w', x)
  {
    if !x.Began? {
      PrefixKeeps(CredRows(w, x.key), CredRows(w', x.key), x.seenCred);
    }
    if x.ReadUser? {
      PrefixKeeps(UserRows(w, w.owner(x.key)), UserRows(w', w.owner(x.key)), x.seenUser);
    }
  }

  lemma EntryStays(w: World, w': World, k: Key)
    requires Extends(w, w') && EntryOk(w, k)
    requires k in w'.cache.entries ==> k in w.cache.entries && w'.cache.entries[k] == w.cache.entries[k]
    requires w'.origins == w.origins && CredDone(w', k) == CredDone(w, k)
              && UserDone(w', w.owner(k)) == UserDone(w, w.owner(k))
    ensures EntryOk(w', k)
  {
    if k in w'.cache.entries {
      PrefixKeeps(CredRows(w, k), CredRows(w', k), w.origins[k].seenCred);
      PrefixKeeps(UserRows(w, w.owner(k)), UserRows(w', w.owner(k)), w.origins[k].seenUser);
    }
  }

  lemma MutatorStays(w: World, w': World, y: Mutator)
    requires Extends(w, w') && MutatorOk(w, y)
    ensures MutatorOk(w', y)
  {
  }

  // ------------------------------------------------------------- one step at a time

  lemma QuietFrame(w: World, step: Step)
    requires Guard(w, step) && Quiet(step)
    ensures var w' := Do(w, step);
            && w'.evictions == w.evictions && w'.credDone == w.credDone && w'.userDone == w.userDone
            && w'.origins == w.origins && w'.cache.gen == w.cache.gen
            && forall k :: k in w'.cache.entries ==> k in w.cache.entries && w'.cache.entries[k] == w.cache.entries[k]
  {
  }

  lemma NewValidatorOk(w: World, step: Step, v: nat)
    requires Inv(w) && Guard(w, step) && Quiet(step)
    requires v in Do(w, step).validators && (v !in w.validators || Do(w, step).validators[v] != w.validators[v])
    ensures ValidatorOk(w, Do(w, step).validators[v])
  {
    match step
    case LoadCred(_) => assert ValidatorOk(w, w.validators[v]);
    case LoadUser(_) => assert ValidatorOk(w, w.validators[v]);
    case _ =>
  }

  lemma NewMutatorOk(w: World, step: Step, m: nat)
    requires Guard(w, step) && Quiet(step)
    requires m in Do(w, step).mutators && m !in w.mutators
    ensures MutatorOk(Do(w, step), Do(w, step).mutators[m])
  {
  }

  lemma QuietKeepsMutators(w: World, step: Step)
    requires Guard(w, step) && Quiet(step)
    ensures forall m :: m in w.mutators ==> m in Do(w, step).mutators && Do(w, step).mutators[m] == w.mutators[m]
  {
  }

  lemma QuietKeepsInv(w: World, step: Step)
    requires Inv(w) && Guard(w, step) && Quiet(step)
    ensures Inv(Do(w, step))
  {
    var w' := Do(w, step);
    StepExtends(w, step);
    QuietFrame(w, step);
    QuietKeepsMutators(w, step);
    forall v | v in w'.validators ensures ValidatorOk(w', w'.validators[v]) {
      if !(v in w.validators && w'.validators[v] == w.validators[v]) {
        NewValidatorOk(w, step, v);
      }
      hide Do, Guard, ValidatorOk;
      ValidatorStays(w, w', w'.validators[v]);
    }
    forall m | m in w'.mutators ensures MutatorOk(w', w'.mutators[m]) {
      hide Do, Guard, MutatorOk;
      if m in w.mutators {
        MutatorStays(w, w', w'.mutators[m]);
      } else {
        NewMutatorOk(w, step, m);
      }
    }
    forall k ensures EntryOk(w', k) {
      hide Do, Guard;
      EntryStays(w, w', k);
    }
    assert DoneOk(w') by {
      hide Do, Guard;
      assert forall k :: CredRows(w, k) <= CredRows(w', k);
    }
    hide Do, Guard;
  }

  lemma PublishFrame(w: World, v: nat)
    requires Guard(w, Publish(v))
    ensures var w' := DoPublish(w, v);
            && Extends(w, w') && w'.evictions == w.evictions && w'.credDone == w.credDone && w'.userDone == w.userDone
            && w'.mutators == w.mutators && w'.validators == w.validators - {v} && w'.cache.gen == w.cache.gen
            && w'.creds == w.creds && w'.users == w.users
            && (w.cache.gen != w.validators[v].gen ==> w'.cache == w.cache && w'.origins == w.origins)
  {
  }

  // The reading reflects every change of its rows whose eviction has returned.
  predicate Covers(w: World, x: Validator)
    requires x.ReadUser?
  {
    x.seenCred >= CredDone(w, x.key) && x.seenUser >= UserDone(w, w.owner(x.key))
  }

  // The counter tells the beginning of the validation from now.
  predicate ToldApart(w: World, x: Validator) {
    w.evictions % WRAP != x.begun % WRAP
  }

  lemma PublishEntry(w: World, v: nat, k: Key)
    requires Inv(w) && Guard(w, Publish(v))
    ensures EntryOk(DoPublish(w, v), k) <==>
              ToldApart(w, w.validators[v]) || Covers(w, w.validators[v]) || k != w.validators[v].key
  {
    assert ValidatorOk(w, w.validators[v]) && EntryOk(w, k);
  }

  /** Exactly: publishing keeps the cache in agreement with the database if and only if the
      64-bit counter tells the validation's beginning from now, or its reading reflects
      every change of its rows evicted for in between. */
  lemma PublishIsSafeExactly(w: World, v: nat)
    requires Inv(w) && Guard(w, Publish(v))
    ensures Inv(DoPublish(w, v)) <==> ToldApart(w, w.validators[v]) || Covers(w, w.validators[v])
  {
    var w' := DoPublish(w, v);
    PublishFrame(w, v);
    forall k ensures EntryOk(w', k) <==>
        ToldApart(w, w.validators[v]) || Covers(w, w.validators[v]) || k != w.validators[v].key {
      PublishEntry(w, v, k);
    }
    hide DoPublish, EntryOk, Covers, ToldApart;
    forall z | z in w'.validators ensures ValidatorOk(w', w'.validators[z]) {
      ValidatorStays(w, w', w.validators[z]);
    }
    forall z | z in w'.mutators ensures MutatorOk(w', w'.mutators[z]) {
      MutatorStays(w, w', w.mutators[z]);
    }
    PublishKeepsDone(w, v);
    hide ValidatorOk, MutatorOk;
    var k := w.validators[v].key;
    assert Inv(w') ==> EntryOk(w', k);
  }

  lemma PublishKeepsDone(w: World, v: nat)
    requires Guard(w, Publish(v)) && DoneOk(w)
    ensures DoneOk(DoPublish(w, v))
  {
    var w' := DoPublish(w, v);
    forall k ensures CredDone(w', k) <= |CredRows(w', k)| {
      assert CredDone(w, k) <= |CredRows(w, k)|;
    }
    forall u ensures UserDone(w', u) <= |UserRows(w', u)| {
      assert UserDone(w, u) <= |UserRows(w, u)|;
    }
  }

  /** So a reading that an eviction has overtaken does harm exactly after a multiple of 2^64
      evictions. */
  lemma OvertakenReadingIsHarmful(w: World, v: nat)
    requires Inv(w) && Guard(w, Publish(v)) && !Covers(w, w.validators[v])
    ensures w.validators[v].begun < w.evictions
    ensures !Inv(DoPublish(w, v)) <==> (w.evictions - w.validators[v].begun) % WRAP == 0
  {
    PublishIsSafeExactly(w, v);
    assert ValidatorOk(w, w.validators[v]);
    hide Inv, DoPublish, Covers;
    SameResidue(w.validators[v].begun, w.evictions);
  }

  lemma SameResidue(a: nat, b: nat)
    requires a <= b
    ensures a % WRAP == b % WRAP <==> (b - a) % WRAP == 0
  {
    assert a == a / WRAP * WRAP + a % WRAP && b == b / WRAP * WRAP + b % WRAP;
    if a % WRAP == b % WRAP {
      assert b - a == (b / WRAP - a / WRAP) * WRAP;
    }
    if (b - a) % WRAP == 0 {
      var q := (b - a) / WRAP;
      assert b == (q + a / WRAP) * WRAP + a % WRAP;
    }
  }

  lemma PublishKeepsInv(w: World, v: nat)
    requires Inv(w) && Guard(w, Publish(v)) && Timely(w, Publish(v))
    ensures Inv(DoPublish(w, v))
  {
    PublishIsSafeExactly(w, v);
    assert ValidatorOk(w, w.validators[v]);
    hide Inv, DoPublish, EntryOk;
    if !ToldApart(w, w.validators[v]) {
      GenerationsAgree(w.validators[v].begun, w.evictions);
    }
  }

  // An entry that survives an eviction is not of the credential or the user evicted.
  lemma EvictClears(w: World, m: nat, k: Key)
    requires Guard(w, FinishEviction(m)) && MutatorOk(w, w.mutators[m]) && EntryOk(w, k)
    requires k in DoEvict(w, m).cache.entries
    ensures k in w.cache.entries && DoEvict(w, m).cache.entries[k] == w.cache.entries[k]
    ensures w.mutators[m].WroteCred? ==> k != w.mutators[m].key
    ensures w.mutators[m].WroteUser? ==> w.owner(k) != w.mutators[m].user && k !in w.mutators[m].credCounts
  {
  }

  lemma EvictDone(w: World, m: nat, k: Key)
    requires Guard(w, FinishEviction(m))
    ensures var y := w.mutators[m];
            CredDone(DoEvict(w, m), k) ==
              if y.WroteCred? && y.key == k then Max(CredDone(w, k), y.credCount)
              else if y.WroteUser? && k in y.credCounts then Max(CredDone(w, k), y.credCounts[k])
              else CredDone(w, k)
  {
  }

  lemma WrapSucc(n: nat)
    ensures (n % WRAP + 1) % WRAP == (n + 1) % WRAP
  {
    var q := n / WRAP;
    assert n + 1 == q * WRAP + (n % WRAP + 1);
    if n % WRAP + 1 == WRAP {
      assert n + 1 == (q + 1) * WRAP;
    }
  }

  lemma EvictUserDone(w: World, m: nat, u: UserId)
    requires Guard(w, FinishEviction(m))
    ensures UserDone(DoEvict(w, m), u)
         == if w.mutators[m].WroteUser? && w.mutators[m].user == u then Max(UserDone(w, u), w.mutators[m].userCount)
            else UserDone(w, u)
  {
  }

  lemma EvictGeneration(w: World, m: nat)
    requires Guard(w, FinishEviction(m)) && w.cache.gen == w.evictions % WRAP
    ensures DoEvict(w, m).evictions == w.evictions + 1
    ensures DoEvict(w, m).cache.gen == (w.evictions + 1) % WRAP
  {
    WrapSucc(w.evictions);
    assert DoEvict(w, m).cache.gen == (w.cache.gen + 1) % WRAP;
  }

  lemma SameRowsExtend(w: World, w': World)
    requires w'.owner == w.owner && w'.now == w.now && w'.creds == w.creds && w'.users == w.users
    ensures Extends(w, w')
  {
  }

  lemma EvictFrame(w: World, m: nat)
    requires Guard(w, FinishEviction(m))
    ensures var w' := DoEvict(w, m);
            && w'.validators == w.validators && w'.origins == w.origins && w'.mutators == w.mutators - {m}
            && w'.creds == w.creds && w'.users == w.users && w'.owner == w.owner && w'.now == w.now
  {
    hide CacheAfter, CredDoneAfter, UserDoneAfter;
  }

  lemma EvictKeepsDone(w: World, m: nat)
    requires DoneOk(w) && Guard(w, FinishEviction(m)) && MutatorOk(w, w.mutators[m])
    ensures DoneOk(DoEvict(w, m))
  {
    var w' := DoEvict(w, m);
    EvictFrame(w, m);
    SameRowsExtend(w, w');
    hide DoEvict;
    forall k ensures CredDone(w', k) <= |CredRows(w', k)| {
      EvictDone(w, m, k);
    }
    forall u ensures UserDone(w', u) <= |UserRows(w', u)| {
      EvictUserDone(w, m, u);
    }
  }

  lemma EvictKeepsInv(w: World, m: nat)
    requires Inv(w) && Guard(w, FinishEviction(m))
    ensures Inv(DoEvict(w, m))
  {
    var w' := DoEvict(w, m);
    assert MutatorOk(w, w.mutators[m]);
    EvictKeepsDone(w, m);
    EvictFrame(w, m);
    EvictGeneration(w, m);
    SameRowsExtend(w, w');
    hide DoEvict, DoneOk, MutatorOk, ValidatorOk, Extends;
    forall k ensures EntryOk(w', k) {
      assert EntryOk(w, k);
      if k in w'.cache.entries {
        EvictClears(w, m, k);
        EvictDone(w, m, k);
        EvictUserDone(w, m, w.owner(k));
        EntryStays(w, w', k);
      }
    }
    forall v | v in w'.validators ensures ValidatorOk(w', w'.validators[v]) {
      ValidatorOutrun(w, w', w.validators[v]);
    }
    forall z | z in w'.mutators ensures MutatorOk(w', w'.mutators[z]) {
      MutatorStays(w, w', w.mutators[z]);
    }
  }

  lemma StepKeepsInv(w: World, step: Step)
    requires Inv(w) && Guard(w, step) && Timely(w, step)
    ensures Inv(Do(w, step))
  {
    match step
    case Publish(v) => PublishKeepsInv(w, v);
    case FinishEviction(m) => EvictKeepsInv(w, m);
    case _ => QuietKeepsInv(w, step);
    hide Inv, Guard;
  }

  ghost predicate Run(w: World, steps: seq<Step>, t: World)
    decreases |steps|
  {
    if steps == [] then w == t
    else Guard(w, steps[0]) && Run(Do(w, steps[0]), steps[1..], t)
  }

  ghost predicate TimelyRun(w: World, steps: seq<Step>, t: World)
    requires Run(w, steps, t)
    decreases |steps|
  {
    steps == [] || (Timely(w, steps[0]) && TimelyRun(Do(w, steps[0]), steps[1..], t))
  }

  lemma {:induction false} RunKeepsInv(w: World, steps: seq<Step>, t: World)
    requires Inv(w) && Run(w, steps, t) && TimelyRun(w, steps, t)
    ensures Inv(t)
    decreases |steps|
  {
    hide Inv, Guard, Do, Timely;
    if steps != [] {
      StepKeepsInv(w, steps[0]);
      RunKeepsInv(Do(w, steps[0]), steps[1..], t);
    }
  }

  ghost predicate Reachable(t: World) {
    exists owner, creds, users, now, steps ::
      Run(Start(owner, creds, users, now), steps, t) && TimelyRun(Start(owner, creds, users, now), steps, t)
  }

  lemma ReachableInv(t: World)
    requires Reachable(t)
    ensures Inv(t)
  {
    var owner, creds, users, now, steps :|
      Run(Start(owner, creds, users, now), steps, t) && TimelyRun(Start(owner, creds, users, now), steps, t);
    RunKeepsInv(Start(owner, creds, users, now), steps, t);
  }

  // ------------------------------------------------------------------ main results

  /** Agreement: whatever the interleaving, a cached user is the row the database held
      after some number of changes that covers every change of that credential and of
      that user whose eviction has returned, and the credential was usable then. */
  lemma CachedUsersAgreeWithDatabase(w: World, k: Key)
    requires Reachable(w) && k in w.cache.entries
    ensures w.cache.entries[k].userId == w.owner(k)
    ensures exists c :: CredDone(w, k) <= c + 1 && 0 <= c < |CredRows(w, k)| && CredRows(w, k)[c]
    ensures exists u :: UserDone(w, w.owner(k)) <= u + 1 && 0 <= u < |UserRows(w, w.owner(k))|
                        && UserRows(w, w.owner(k))[u] == w.cache.entries[k].user
    ensures w.cache.entries[k].user.active
  {
    ReachableInv(w);
    assert EntryOk(w, k);
    var c, u := w.origins[k].seenCred - 1, w.origins[k].seenUser - 1;
    assert CredDone(w, k) <= c + 1 && CredRows(w, k)[c];
    assert UserDone(w, w.owner(k)) <= u + 1 && UserRows(w, w.owner(k))[u] == w.cache.entries[k].user;
  }

  /** Revocation: once the eviction for the latest change of a credential has returned
      and that change made it unusable, it is not in the cache, and no validation
      already in flight can put it back. */
  lemma RevokedCredentialIsNotServed(w: World, k: Key)
    requires Reachable(w) && CredRows(w, k) != [] && !CredRows(w, k)[|CredRows(w, k)| - 1]
              && CredDone(w, k) == |CredRows(w, k)|
    ensures k !in w.cache.entries
    ensures forall v :: v in w.validators && Guard(w, Publish(v)) && Timely(w, Publish(v)) ==>
              k !in Do(w, Publish(v)).cache.entries
  {
    ReachableInv(w);
    assert EntryOk(w, k);
    forall v | v in w.validators && Guard(w, Publish(v))
        && Timely(w, Publish(v)) ensures k !in Do(w, Publish(v)).cache.entries {
      PublishKeepsInv(w, v);
      assert EntryOk(DoPublish(w, v), k);
    }
  }

  /** The same for a user: after a deactivation's eviction has returned, none of the
      user's credentials is in the cache. */
  lemma DisabledUserIsNotServed(w: World, u: UserId, k: Key)
    requires Reachable(w) && w.owner(k) == u
    requires UserRows(w, u) != [] && !UserRows(w, u)[|UserRows(w, u)| - 1].active && UserDone(w, u) == |UserRows(w, u)|
    ensures k !in w.cache.entries
  {
    ReachableInv(w);
    assert EntryOk(w, k);
  }

  /** An eviction outruns every validation begun before it: publishing is a no-op. */
  lemma EvictionStopsValidationsInFlight(w: World, v: nat)
    requires Reachable(w) && Guard(w, Publish(v)) && Timely(w, Publish(v))
    ensures Do(w, Publish(v)).cache == w.cache <== w.validators[v].begun < w.evictions
    ensures Do(w, Publish(v)).cache != w.cache ==> w.validators[v].begun == w.evictions
  {
    ReachableInv(w);
    assert ValidatorOk(w, w.validators[v]);
    if w.cache.gen == w.validators[v].gen {
      GenerationsAgree(w.validators[v].begun, w.evictions);
    }
  }

  /** Natural expiry: a hit is served at most the time to live after its store. */
  lemma HitsAreFresh(w: World, k: Key)
    requires Reachable(w) && Get(w.cache, k, w.now).1.Some?
    ensures k in w.origins && w.now <= w.origins[k].storedAt + 30_000_000_000
    ensures Get(w.cache, k, w.now).1 == Some(w.cache.entries[k].user)
  {
    ReachableInv(w);
    assert EntryOk(w, k);
  }

  /** What the cache is for: a validation of a usable credential that nothing overtakes puts its
      user in the cache, where lookups find it for thirty seconds and no longer. */
  lemma ValidationIsCached(w: World, v: nat, k: Key, d: nat) returns (t: World)
    requires v !in w.validators
    requires CredRows(w, k) != [] && CredRows(w, k)[|CredRows(w, k)| - 1]
    requires var rows := UserRows(w, w.owner(k)); rows != [] && rows[|rows| - 1].active
    ensures Run(w, [BeginValidation(v, k), LoadCred(v), LoadUser(v), Publish(v), Wait(d)], t) && Guard(t, Lookup(k))
    ensures Reachable(w) ==> Reachable(t)
    ensures var rows := UserRows(w, w.owner(k));
            Get(t.cache, k, t.now).1 == if d <= 30_000_000_000 then Some(rows[|rows| - 1]) else None
  {
    var w4 := Validated(w, v, k);
    t := Do(w4, Wait(d));
    hide Guard;
    if Reachable(w) {
      ReachableStep(w4, Wait(d));
    }
    RunSnoc(w, [BeginValidation(v, k), LoadCred(v), LoadUser(v), Publish(v)], w4, Wait(d));
    assert [BeginValidation(v, k), LoadCred(v), LoadUser(v), Publish(v)] + [Wait(d)]
        == [BeginValidation(v, k), LoadCred(v), LoadUser(v), Publish(v), Wait(d)];
    hide Run;
  }

  lemma Validated(w: World, v: nat, k: Key) returns (t: World)
    requires v !in w.validators
    requires CredRows(w, k) != [] && CredRows(w, k)[|CredRows(w, k)| - 1]
    requires var rows := UserRows(w, w.owner(k)); rows != [] && rows[|rows| - 1].active
    ensures Run(w, [BeginValidation(v, k), LoadCred(v), LoadUser(v), Publish(v)], t) && t.now == w.now
    ensures Reachable(w) ==> Reachable(t)
    ensures var rows := UserRows(w, w.owner(k));
            k in t.cache.entries && t.cache.entries[k] == Entry(rows[|rows| - 1], w.owner(k), w.now + TTL)
  {
    var w1 := Do(w, BeginValidation(v, k));
    var w2 := Do(w1, LoadCred(v));
    var w3 := Do(w2, LoadUser(v));
    t := Do(w3, Publish(v));
    assert Guard(w1, LoadCred(v)) && Guard(w2, LoadUser(v)) && Guard(w3, Publish(v));
    assert Timely(w3, Publish(v));
    RunFour(w, BeginValidation(v, k), LoadCred(v), LoadUser(v), Publish(v));
    ReachableFour(w, BeginValidation(v, k), LoadCred(v), LoadUser(v), Publish(v));
    hide Run, Reachable, Do, Guard, Timely;
  }

  lemma RunFour(w: World, a: Step, b: Step, c: Step, d: Step)
    requires Guard(w, a) && Guard(Do(w, a), b) && Guard(Do(Do(w, a), b), c) && Guard(Do(Do(Do(w, a), b), c), d)
    ensures Run(w, [a, b, c, d], Do(Do(Do(Do(w, a), b), c), d))
  {
    var w1 := Do(w, a);
    var w2 := Do(w1, b);
    var w3 := Do(w2, c);
    hide Do, Guard, Timely, Reachable;
    RunNothing(w);
    RunSnoc(w, [], w, a);
    RunSnoc(w, [] + [a], w1, b);
    RunSnoc(w, [] + [a] + [b], w2, c);
    RunSnoc(w, [] + [a] + [b] + [c], w3, d);
    assert [] + [a] + [b] + [c] + [d] == [a, b, c, d];
    hide Run;
  }

  lemma ReachableFour(w: World, a: Step, b: Step, c: Step, d: Step)
    requires Guard(w, a) && Guard(Do(w, a), b) && Guard(Do(Do(w, a), b), c) && Guard(Do(Do(Do(w, a), b), c), d)
    requires Timely(w, a) && Timely(Do(w, a), b) && Timely(Do(Do(w, a), b), c) && Timely(Do(Do(Do(w, a), b), c), d)
    ensures Reachable(w) ==> Reachable(Do(Do(Do(Do(w, a), b), c), d))
  {
    hide Do, Guard, Timely, Reachable;
    if Reachable(w) {
      ReachableStep(w, a);
      ReachableStep(Do(w, a), b);
      ReachableStep(Do(Do(w, a), b), c);
      ReachableStep(Do(Do(Do(w, a), b), c), d);
    }
  }

  lemma ReachableStep(w: World, step: Step)
    requires Reachable(w) && Guard(w, step) && Timely(w, step)
    ensures Reachable(Do(w, step))
  {
    var owner, creds, users, now, steps :|
      Run(Start(owner, creds, users, now), steps, w) && TimelyRun(Start(owner, creds, users, now), steps, w);
    RunSnoc(Start(owner, creds, users, now), steps, w, step);
    TimelySnoc(Start(owner, creds, users, now), steps, w, step);
    hide Run, TimelyRun, Guard, Do, Timely, Start;
  }

  lemma {:induction false} TimelySnoc(w: World, steps: seq<Step>, m: World, step: Step)
    requires Run(w, steps, m) && TimelyRun(w, steps, m) && Guard(m, step) && Timely(m, step)
    requires Run(w, steps + [step], Do(m, step))
    ensures TimelyRun(w, steps + [step], Do(m, step))
    decreases |steps|
  {
    hide Guard, Do, Timely;
    if steps == [] {
      assert ([] + [step])[1..] == [];
    } else {
      assert (steps + [step])[1..] == steps[1..] + [step];
      TimelySnoc(Do(w, steps[0]), steps[1..], m, step);
    }
  }

  lemma RunNothing(w: World)
    ensures Run(w, [], w)
  {
  }

  lemma {:induction false} RunSnoc(w: World, steps: seq<Step>, m: World, step: Step)
    requires Run(w, steps, m) && Guard(m, step)
    ensures Run(w, steps + [step], Do(m, step))
    decreases |steps|
  {
    hide Guard, Do;
    if steps == [] {
      assert ([] + [step])[1..] == [];
    } else {
      RunSnoc(Do(w, steps[0]), steps[1..], m, step);
      assert (steps + [step])[1..] == steps[1..] + [step];
    }
  }

  // Until its own step an eviction stays due, and rows only gain versions.
  lemma StepInBetween(w: World, step: Step, m: nat, k: Key)
    requires Guard(w, step) && m in w.mutators && step != FinishEviction(m)
    ensures m in Do(w, step).mutators && Do(w, step).mutators[m] == w.mutators[m]
    ensures CredRows(w, k) <= CredRows(Do(w, step), k)
  {
    if Quiet(step) {
      StepExtends(w, step);
    } else if step.FinishEviction? {
      EvictFrame(w, step.m);
      hide DoEvict;
    }
  }

  lemma {:induction false} InBetween(w: World, steps: seq<Step>, t: World, m: nat, k: Key)
    requires Run(w, steps, t) && m in w.mutators && FinishEviction(m) !in steps
    ensures m in t.mutators && t.mutators[m] == w.mutators[m] && CredRows(w, k) <= CredRows(t, k)
    decreases |steps|
  {
    hide Guard, Do;
    if steps != [] {
      assert steps[0] in steps && forall s :: s in steps[1..] ==> s in steps;
      StepInBetween(w, steps[0], m, k);
      InBetween(Do(w, steps[0]), steps[1..], t, m, k);
    }
  }

  lemma Revokes(w: World, m: nat, u: UserId, row: UserRow, sessions: set<Key>, k: Key)
    requires Guard(w, RevokeUser(m, u, row, sessions)) && k in sessions
    ensures var w' := Do(w, RevokeUser(m, u, row, sessions));
            && CredRows(w', k) == CredRows(w, k) + [false]
            && m in w'.mutators && w'.mutators[m].WroteUser? && k in w'.mutators[m].credCounts
            && w'.mutators[m].credCounts[k] == |CredRows(w, k)| + 1
  {
  }

  /** A password change or deactivation ends the sessions it names: whatever happens between its
      database write and its eviction, after the eviction none of them is in the cache and no
      validation under way puts one there, unless its row was changed again. */
  lemma RevokedSessionsEnd(w: World, m: nat, u: UserId, row: UserRow, sessions: set<Key>, steps: seq<Step>, t: World,
                           k: Key)
    requires Inv(w) && Guard(w, RevokeUser(m, u, row, sessions)) && k in sessions
    requires var w' := Do(w, RevokeUser(m, u, row, sessions)); Run(w', steps, t) && TimelyRun(w', steps, t)
    requires FinishEviction(m) !in steps && |CredRows(t, k)| == |CredRows(w, k)| + 1
    ensures Guard(t, FinishEviction(m)) && k !in Do(t, FinishEviction(m)).cache.entries
    ensures var t' := Do(t, FinishEviction(m));
            forall v :: v in t'.validators && Guard(t', Publish(v)) && Timely(t', Publish(v)) ==>
                k !in Do(t', Publish(v)).cache.entries
  {
    var w' := Do(w, RevokeUser(m, u, row, sessions));
    Revokes(w, m, u, row, sessions, k);
    StepKeepsInv(w, RevokeUser(m, u, row, sessions));
    hide Do, Inv, Run, Timely;
    RunKeepsInv(w', steps, t);
    InBetween(w', steps, t, m, k);
    assert CredRows(t, k) == CredRows(w', k);
    EvictedForGood(t, m, k);
  }

  lemma EvictedForGood(t: World, m: nat, k: Key)
    requires Inv(t) && m in t.mutators && t.mutators[m].WroteUser? && k in t.mutators[m].credCounts
    requires var rows := CredRows(t, k);
             rows != [] && !rows[|rows| - 1] && t.mutators[m].credCounts[k] == |rows|
    ensures Guard(t, FinishEviction(m))
    ensures var t' := Do(t, FinishEviction(m));
            && k !in t'.cache.entries
            && forall v :: v in t'.validators && Guard(t', Publish(v)) && Timely(t', Publish(v)) ==>
                 k !in Do(t', Publish(v)).cache.entries
  {
    var t' := Do(t, FinishEviction(m));
    StepKeepsInv(t, FinishEviction(m));
    EvictDone(t, m, k);
    EvictFrame(t, m);
    assert DoneOk(t) && CredDone(t, k) <= |CredRows(t, k)|;
    hide DoEvict, DoPublish, Inv;
    StaysOut(t', k);
  }

  lemma StaysOut(t: World, k: Key)
    requires Inv(t) && CredRows(t, k) != [] && !CredRows(t, k)[|CredRows(t, k)| - 1]
    requires CredDone(t, k) == |CredRows(t, k)|
    ensures k !in t.cache.entries
    ensures forall v :: v in t.validators && Guard(t, Publish(v)) && Timely(t, Publish(v)) ==>
              k !in Do(t, Publish(v)).cache.entries
  {
    UnusableIsNotCached(t, k);
    forall v | v in t.validators && Guard(t, Publish(v)) && Timely(t, Publish(v))
      ensures k !in Do(t, Publish(v)).cache.entries
    {
      StepKeepsInv(t, Publish(v));
      SameCreds(t, v, k);
      assert Do(t, Publish(v)) == DoPublish(t, v);
      hide DoPublish, Inv, Do;
      UnusableIsNotCached(Do(t, Publish(v)), k);
    }
  }

  lemma SameCreds(w: World, v: nat, k: Key)
    requires Guard(w, Publish(v))
    ensures CredRows(DoPublish(w, v), k) == CredRows(w, k) && CredDone(DoPublish(w, v), k) == CredDone(w, k)
  {
  }

  lemma UnusableIsNotCached(w: World, k: Key)
    requires Inv(w) && CredRows(w, k) != [] && !CredRows(w, k)[|CredRows(w, k)| - 1]
              && CredDone(w, k) == |CredRows(w, k)|
    ensures k !in w.cache.entries
  {
    assert EntryOk(w, k);
  }

  // ------------------------------------------------------- why Timely is needed

  // n revocations of an unrelated credential, each evicted at once.
  function Churn(k: Key, n: nat): seq<Step> {
    if n == 0 then [] else [RevokeCred(0, k, false), FinishEviction(0)] + Churn(k, n - 1)
  }

  ghost predicate ChurnLeaves(w: World, t: World, n: nat) {
    && t.validators == w.validators && t.users == w.users && t.owner == w.owner && t.mutators == w.mutators
    && t.evictions == w.evictions + n && t.cache.gen == t.evictions % WRAP && t.now == w.now
  }

  lemma ChurnOnce(w: World, k: Key) returns (t: World)
    requires 0 !in w.mutators && w.cache.gen == w.evictions % WRAP
    ensures Guard(w, RevokeCred(0, k, false)) && Guard(Do(w, RevokeCred(0, k, false)), FinishEviction(0))
    ensures t == Do(Do(w, RevokeCred(0, k, false)), FinishEviction(0))
    ensures ChurnLeaves(w, t, 1)
    ensures forall j :: j != k ==> CredRows(t, j) == CredRows(w, j) && CredDone(t, j) == CredDone(w, j)
  {
    WrapSucc(w.evictions);
    t := Do(Do(w, RevokeCred(0, k, false)), FinishEviction(0));
    assert t.mutators == w.mutators;
  }

  lemma {:induction false} ChurnMany(w: World, k: Key, n: nat) returns (t: World)
    requires 0 !in w.mutators && w.cache.gen == w.evictions % WRAP
    ensures Run(w, Churn(k, n), t) && ChurnLeaves(w, t, n)
    ensures forall j :: j != k ==> CredRows(t, j) == CredRows(w, j) && CredDone(t, j) == CredDone(w, j)
    decreases n
  {
    if n == 0 {
      t := w;
    } else {
      var mid := ChurnOnce(w, k);
      t := ChurnMany(mid, k, n - 1);
      var steps := Churn(k, n);
      hide Guard, Do;
      assert steps[0] == RevokeCred(0, k, false) && steps[1..][0] == FinishEviction(0)
          && steps[1..][1..] == Churn(k, n - 1);
    }
  }

  lemma WrapFull(n: nat)
    ensures (n + WRAP) % WRAP == n % WRAP
  {
    var q := n / WRAP;
    assert n + WRAP == (q + 1) * WRAP + n % WRAP;
  }

  lemma OwnRevocation(w: World, k: Key) returns (t: World)
    requires 0 !in w.mutators && w.cache.gen == w.evictions % WRAP && CredDone(w, k) <= |CredRows(w, k)|
    ensures Run(w, [RevokeCred(0, k, false), FinishEviction(0)], t) && ChurnLeaves(w, t, 1)
    ensures CredRows(t, k) == CredRows(w, k) + [false] && CredDone(t, k) == |CredRows(t, k)|
  {
    t := ChurnOnce(w, k);
    var steps := [RevokeCred(0, k, false), FinishEviction(0)];
    assert steps[1..] == [FinishEviction(0)] && steps[1..][1..] == [];
    assert Run(t, [], t);
  }

  lemma PublishedIsCached(w: World, v: nat)
    requires Guard(w, Publish(v)) && w.cache.gen == w.validators[v].gen
    ensures w.validators[v].key in Do(w, Publish(v)).cache.entries
  {
  }

  /** Without the condition the agreement is false of the code: a validation that sits
      out exactly 2^64 evictions, the first of them of its own credential, publishes
      that credential although its revocation has returned. */
  lemma WrappedGenerationResurrects(w: World, v: nat, other: Key) returns (mid: World, t: World)
    requires Inv(w) && Guard(w, Publish(v)) && 0 !in w.mutators
    requires w.validators[v].begun == w.evictions && w.validators[v].key != other
    ensures Run(w, [RevokeCred(0, w.validators[v].key, false), FinishEviction(0)], mid)
    ensures Run(mid, Churn(other, WRAP - 1), t) && Guard(t, Publish(v)) && !Timely(t, Publish(v))
    ensures var k := w.validators[v].key;
            && CredRows(t, k) == CredRows(w, k) + [false] && CredDone(t, k) == |CredRows(t, k)|
            && k in Do(t, Publish(v)).cache.entries
  {
    assert ValidatorOk(w, w.validators[v]);
    hide CredRows, CredDone, Run, Churn, Inv, ValidatorOk, Guard, Do;
    mid := OwnRevocation(w, w.validators[v].key);
    t := ChurnMany(mid, other, WRAP - 1);
    WrapFull(w.evictions);
    StillReading(w, v, t);
    PublishedIsCached(t, v);
  }

  lemma StillReading(w: World, v: nat, t: World)
    requires Guard(w, Publish(v)) && t.validators == w.validators
    ensures Guard(t, Publish(v))
  {
  }

  // ------------------------------------------------------------------ the Go object

  class Memory {
    var gen: nat
    var entries: map<Key, Entry>

    ghost function Model(): Cache
      reads this
    {
      Cache(gen, entries)
    }

    constructor ()
      ensures Model() == Cache(0, map[])
    {
      gen, entries := 0, map[];
    }

    method Lookup(key: Key, now: int) returns (user: Option<UserRow>)
      modifies this`entries
      ensures (Model(), user) == Get(old(Model()), key, now)
      ensures user.Some? <==> key in old(entries) && now <= old(entries)[key].expiresAt
      ensures user.Some? ==> user.value == old(entries)[key].user && entries == old(entries)
      ensures user.None? ==> entries == old(entries) - {key}
    {
      if key !in entries {
        return None;
      }
      var entry := entries[key];
      if now > entry.expiresAt {
        entries := entries - {key};
        return None;
      }
      user := Some(entry.user);
    }

    method Begin() returns (g: nat)
      ensures g == gen
    {
      g := gen;
    }

    method Publish(key: Key, user: UserRow, userId: UserId, g: nat, now: int) returns (stored: bool)
      modifies this`entries
      ensures Model() == Store(old(Model()), key, user, userId, g, now)
      ensures stored <==> gen == g
      ensures entries == if stored then old(entries)[key := Entry(user, userId, now + 30_000_000_000)] else old(entries)
    {
      if gen != g {
        return false;
      }
      entries := entries[key := Entry(user, userId, now + TTL)];
      stored := true;
    }

    method EvictKey(key: Key)
      modifies this
      ensures Model() == Evict(old(Model()), key)
      ensures entries == old(entries) - {key} && gen == (old(gen) + 1) % 0x1_0000_0000_0000_0000
    {
      gen := (gen + 1) % WRAP;
      entries := entries - {key};
    }

    /** EvictUser: the Range over the map in any order. */
    method EvictAll(u: UserId)
      modifies this
      ensures Model() == EvictUser(old(Model()), u)
      ensures forall k :: k in entries <==> k in old(entries) && old(entries)[k].userId != u
      ensures forall k :: k in entries ==> entries[k] == old(entries)[k]
      ensures gen == (old(gen) + 1) % 0x1_0000_0000_0000_0000
    {
      gen := (gen + 1) % WRAP;
      var todo := entries.Keys;
      ghost var before := entries;
      while todo != {}
        invariant todo <= before.Keys && gen == (old(gen) + 1) % WRAP
        invariant forall k :: k in entries <==> k in before && (k in todo || before[k].userId != u)
        invariant forall k :: k in entries ==> entries[k] == before[k]
        decreases |todo|
      {
        var k :| k in todo;
        todo := todo - {k};
        if k in entries && entries[k].userId == u {
          entries := entries - {k};
        }
      }
      assert entries == EvictUser(old(Model()), u).entries;
    }

    method SweepExpired(now: int)
      modifies this`entries
      ensures Model() == Sweep(old(Model()), now)
      ensures forall k :: k in entries <==> k in old(entries) && now <= old(entries)[k].expiresAt
      ensures forall k :: k in entries ==> entries[k] == old(entries)[k]
    {
      var todo := entries.Keys;
      ghost var before := entries;
      while todo != {}
        invariant todo <= before.Keys
        invariant forall k :: k in entries <==> k in before && (k in todo || !Expired(before[k], now))
        invariant forall k :: k in entries ==> entries[k] == before[k]
        decreases |todo|
      {
        var k :| k in todo;
        todo := todo - {k};
        if k in entries && now > entries[k].expiresAt {
          entries := entries - {k};
        }
      }
      assert entries == Sweep(old(Model()), now).entries;
    }

    /** validateSession and validateAPIKey without interference: a hit answers from the
        cache, a miss from the rows, and a usable pair of rows is left in the cache. */
    method Validate(key: Key, owner: UserId, usable: bool, row: Option<UserRow>, now: int)
        returns (user: Option<UserRow>)
      modifies this`entries
      ensures var hit := Get(old(Model()), key, now).1;
              user == if hit.Some? then hit else if usable && row.Some? && row.value.active then row else None
      ensures Get(old(Model()), key, now).1.None? && user.Some? ==>
                Model() == Store(Get(old(Model()), key, now).0, key, user.value, owner, old(gen), now)
      ensures user.Some? ==> key in entries && entries[key].user == user.value
    {
      user := Lookup(key, now);
      if user.Some? {
        return;
      }
      var g := Begin();
      if !usable || row.None? || !row.value.active {
        return None;
      }
      var stored := Publish(key, row.value, owner, g, now);
      user := row;
    }
  }
}
