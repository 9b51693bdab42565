/** The rate limiter with everything apart that can come apart
    (internal/middleware/ratelimit.go): a request looks its bucket up and calls it later, and
    the clean-up worker judges a bucket idle and deletes its key later.  The reference is the
    limiter of TokenBucket, whose requests are single steps and which sweeps nothing.
  */
module IdleSweep {
  import opened TokenBucket

  /** A bucket object and the client it was made for. */
  datatype Owned = Owned(path: string, ip: string, b: Bucket)

  /** A request between its lookup and its call. */
  datatype Held = Held(id: nat, path: string, ip: string)

  datatype Limiter = Limiter(
    store: map<nat, Owned>,      // every bucket object ever made
    filed: map<string, nat>,     // the limiter map
    held: map<nat, Held>,        // requests under way
    judged: set<string>,         // keys the clean-up worker found idle and has not deleted yet
    next: nat)

  datatype Step =
    | Lookup(c: nat, path: string, ip: string, now: real)
    | Call(c: nat, now: real)
    | Judge(key: string, now: real)
    | Drop(key: string, now: real)

  const EMPTY := Limiter(map[], map[], map[], {}, 0)

  function BucketAt(s: Limiter, id: nat): Bucket {
    if id in s.store then s.store[id].b else Bucket(0.0, 0.0, 0.0, 0.0)
  }

  predicate Idle(s: Limiter, key: string, now: real) {
    key in s.filed && now - BucketAt(s, s.filed[key]).last > IDLE_LIMIT
  }

  predicate Calls(s: Limiter, step: Step) {
    step.Call? && step.c in s.held
  }

  predicate Drops(s: Limiter, step: Step) {
    step.Drop? && step.key in s.judged && step.key in s.filed
  }

  function Do(l: Limits, s: Limiter, step: Step): Limiter {
    match step
    case Lookup(c, path, ip, now) =>
      var key := Key(l, path, ip);
      if c in s.held then s
      else if key in s.filed then s.(held := s.held[c := Held(s.filed[key], path, ip)])
      else s.(store := s.store[s.next := Owned(path, ip, NewBucket(TierOf(l, path), now))],
              filed := s.filed[key := s.next], held := s.held[c := Held(s.next, path, ip)], next := s.next + 1)
    case Call(c, now) =>
      if c !in s.held then s
      else
        var h := s.held[c];
        s.(store := s.store[h.id := Owned(h.path, h.ip, Taken(BucketAt(s, h.id), now))], held := s.held - {c})
    case Judge(key, now) => s.(judged := if Idle(s, key, now) then s.judged + {key} else s.judged - {key})
    case Drop(key, _) =>
      s.(filed := if Drops(s, step) then s.filed - {key} else s.filed, judged := s.judged - {key})
  }

  function AnswersOf(l: Limits, s: Limiter, steps: seq<Step>): seq<Answer>
    decreases |steps|
  {
    if steps == [] then []
    else
      (if Calls(s, steps[0]) then [Told(BucketAt(s, s.held[steps[0].c].id), steps[0].now)] else [])
      + AnswersOf(l, Do(l, s, steps[0]), steps[1..])
  }

  function RequestOf(s: Limiter, step: Step): Event
    requires Calls(s, step)
  {
    Request(s.held[step.c].path, s.held[step.c].ip, step.now)
  }

  // The calls of a run, each as one request.
  function RequestsOf(l: Limits, s: Limiter, steps: seq<Step>): seq<Event>
    decreases |steps|
  {
    if steps == [] then []
    else
      (if Calls(s, steps[0]) then [RequestOf(s, steps[0])] else []) + RequestsOf(l, Do(l, s, steps[0]), steps[1..])
  }

  ghost predicate InTime(steps: seq<Step>, from: real) {
    steps == [] || (from <= steps[0].now && InTime(steps[1..], steps[0].now))
  }

  // ------------------------------------------------------------------------ soundness

  ghost predicate OwnedOk(l: Limits, o: Owned, now: real) {
    Sound(o.b, now) && o.b.max == TierOf(l, o.path).burst as real && o.b.rate == TierOf(l, o.path).rps
  }

  predicate FiledOk(l: Limits, s: Limiter, key: string)
    requires key in s.filed
  {
    s.filed[key] in s.store && Key(l, s.store[s.filed[key]].path, s.store[s.filed[key]].ip) == key
  }

  // A request may hold an object first made for another path of the same tier.
  predicate HeldOk(l: Limits, s: Limiter, h: Held) {
    h.id in s.store && Key(l, s.store[h.id].path, s.store[h.id].ip) == Key(l, h.path, h.ip)
  }

  // Each object has the budget of its client's tier, and is filed and held only for it.
  ghost predicate WellMade(l: Limits, s: Limiter, now: real) {
    && (forall id :: id in s.store ==> id < s.next && OwnedOk(l, s.store[id], now))
    && (forall key :: key in s.filed ==> FiledOk(l, s, key))
    && (forall c :: c in s.held ==> HeldOk(l, s, s.held[c]))
  }

  lemma WellMadeLater(l: Limits, s: Limiter, from: real, now: real)
    requires WellMade(l, s, from) && from <= now
    ensures WellMade(l, s, now)
  {
    hide TierOf, Key;
  }

  // The object behind a held request, as seen from its own path.
  lemma HeldBucket(l: Limits, s: Limiter, c: nat, now: real)
    requires WellMade(l, s, now) && c in s.held
    ensures var h := s.held[c]; OwnedOk(l, Owned(h.path, h.ip, BucketAt(s, h.id)), now)
  {
    var h := s.held[c];
    KeyNamesTier(l, s.store[h.id].path, s.store[h.id].ip, h.path, h.ip);
    hide TierOf, Key;
  }

  lemma TakenOk(l: Limits, o: Owned, now: real)
    requires OwnedOk(l, o, now)
    ensures OwnedOk(l, o.(b := Taken(o.b, now)), now)
  {
    CallKeepsSound(o.b, now);
    hide TierOf;
  }

  lemma NewOk(l: Limits, path: string, ip: string, now: real)
    requires Sane(l)
    ensures OwnedOk(l, Owned(path, ip, NewBucket(TierOf(l, path), now)), now)
  {
    TierIsSane(l, path);
    hide TierOf;
  }

  lemma LookupKeepsWellMade(l: Limits, s: Limiter, step: Step)
    requires Sane(l) && step.Lookup? && WellMade(l, s, step.now)
    ensures WellMade(l, Do(l, s, step), step.now)
  {
    NewOk(l, step.path, step.ip, step.now);
    hide TierOf, Key, Level, Sound, OwnedOk, NewBucket, Sane;
  }

  lemma CallKeepsWellMade(l: Limits, s: Limiter, c: nat, now: real)
    requires WellMade(l, s, now) && c in s.held
    ensures WellMade(l, Do(l, s, Call(c, now)), now)
  {
    HeldBucket(l, s, c, now);
    TakenOk(l, Owned(s.held[c].path, s.held[c].ip, BucketAt(s, s.held[c].id)), now);
    hide TierOf, Key, Level, Sound, Taken, OwnedOk;
  }

  lemma StepKeepsWellMade(l: Limits, s: Limiter, step: Step, from: real)
    requires Sane(l) && WellMade(l, s, from) && from <= step.now
    ensures WellMade(l, Do(l, s, step), step.now)
  {
    WellMadeLater(l, s, from, step.now);
    hide TierOf, Key, OwnedOk, Sane;
    match step
    case Lookup(_, _, _, _) => LookupKeepsWellMade(l, s, step); hide WellMade;
    case Call(c, now) =>
      if c in s.held {
        CallKeepsWellMade(l, s, c, now);
      }
      hide WellMade;
    case _ =>
  }

  // --------------------------------------------------------------- against the reference

  function FiledBucket(l: Limits, s: Limiter, path: string, ip: string, now: real): Bucket {
    if Key(l, path, ip) in s.filed then BucketAt(s, s.filed[Key(l, path, ip)]) else NewBucket(TierOf(l, path), now)
  }

  // What a client could be granted at once through a new lookup.
  function LevelAt(l: Limits, s: Limiter, path: string, ip: string, now: real): real {
    Level(FiledBucket(l, s, path, ip, now), now)
  }

  lemma FiledIsOk(l: Limits, s: Limiter, path: string, ip: string, now: real)
    requires Sane(l) && WellMade(l, s, now)
    ensures OwnedOk(l, Owned(path, ip, FiledBucket(l, s, path, ip, now)), now)
  {
    var key := Key(l, path, ip);
    if key in s.filed {
      assert FiledOk(l, s, key);
      KeyNamesTier(l, s.store[s.filed[key]].path, s.store[s.filed[key]].ip, path, ip);
    }
    NewOk(l, path, ip, now);
    hide TierOf, Key, Sound;
  }

  // The request holds the object on file, or one that never grants anything anyway.
  predicate Placed(l: Limits, s: Limiter, h: Held) {
    var key := Key(l, h.path, h.ip);
    (key in s.filed && s.filed[key] == h.id) || TierOf(l, h.path).burst < 1
  }

  /** No client can tell the limiter from the reference. */
  ghost predicate Linked(l: Limits, s: Limiter, m: Buckets, now: real) {
    && (forall path, ip :: LevelAt(l, s, path, ip, now) == LevelOf(l, m, path, ip, now))
    && (forall c :: c in s.held ==> Placed(l, s, s.held[c]))
  }

  function Mirror(l: Limits, s: Limiter, m: Buckets, step: Step): Buckets {
    if Calls(s, step) then After(l, m, RequestOf(s, step)) else m
  }

  // The requests under way on the object on file.
  function Users(s: Limiter, key: string): set<nat> {
    set c | c in s.held && key in s.filed && s.held[c].id == s.filed[key]
  }

  /** Deleting a key gives nothing away: its bucket is full, and no request is about to take
      from the object (unless nothing can be taken at all). */
  predicate Harmless(s: Limiter, key: string, now: real)
    requires key in s.filed
  {
    var b := BucketAt(s, s.filed[key]);
    Level(b, now) == b.max && (b.max < 1.0 || Users(s, key) == {})
  }

  // A level later on is its level now and the refill, up to the burst.
  lemma LevelLater(b: Bucket, from: real, now: real)
    requires Sound(b, from) && from <= now
    ensures Level(b, now) == (var full := Level(b, from) + Accrued(now - from, b.rate); if full > b.max then b.max
              else full)
  {
    AccruedAdds(from - b.last, now - from, b.rate);
    assert (from - b.last) + (now - from) == now - b.last;
    hide Accrued;
  }

  lemma NewLevel(t: Tier, made: real, now: real)
    requires t.rps >= 0.0 && made <= now
    ensures Level(NewBucket(t, made), now) == t.burst as real
  {
    AccruedAdds(0.0, now - made, t.rps);
    hide Accrued;
  }

  // Same level and same budget now, same level later.
  lemma LevelsAgreeLater(l: Limits, s: Limiter, m: Buckets, path: string, ip: string, from: real, now: real)
    requires Sane(l) && WellMade(l, s, from) && Good(l, m, from) && from <= now
    requires LevelAt(l, s, path, ip, from) == LevelOf(l, m, path, ip, from)
    ensures LevelAt(l, s, path, ip, now) == LevelOf(l, m, path, ip, now)
  {
    LevelAtLater(l, s, path, ip, from, now);
    FindIsSound(l, m, path, ip, from, from);
    TierIsSane(l, path);
    NewLevel(TierOf(l, path), from, from);
    NewLevel(TierOf(l, path), now, now);
    LevelLater(Find(l, m, path, ip, from), from, now);
    NewLevel(TierOf(l, path), from, now);
    hide TierOf, Key, Level, Accrued, WellMade, Good, NewBucket, LevelAt;
  }

  lemma LevelAtLater(l: Limits, s: Limiter, path: string, ip: string, from: real, now: real)
    requires Sane(l) && WellMade(l, s, from) && from <= now
    ensures var t := TierOf(l, path);
            var full := LevelAt(l, s, path, ip, from) + Accrued(now - from, t.rps);
            LevelAt(l, s, path, ip, now) == if full > t.burst as real then t.burst as real else full
  {
    FiledIsOk(l, s, path, ip, from);
    TierIsSane(l, path);
    LevelLater(FiledBucket(l, s, path, ip, from), from, now);
    NewLevel(TierOf(l, path), now, now);
    NewLevel(TierOf(l, path), from, now);
    hide TierOf, Key, Level, Accrued, WellMade, NewBucket;
  }

  lemma LinkedLater(l: Limits, s: Limiter, m: Buckets, from: real, now: real)
    requires Sane(l) && WellMade(l, s, from) && Good(l, m, from) && Linked(l, s, m, from) && from <= now
    ensures Linked(l, s, m, now)
  {
    forall path, ip ensures LevelAt(l, s, path, ip, now) == LevelOf(l, m, path, ip, now) {
      LevelsAgreeLater(l, s, m, path, ip, from, now);
    }
    hide LevelAt, LevelOf, Placed;
  }

  lemma LookupLinks(l: Limits, s: Limiter, m: Buckets, step: Step)
    requires Sane(l) && step.Lookup? && WellMade(l, s, step.now) && Linked(l, s, m, step.now)
    ensures Linked(l, Do(l, s, step), m, step.now)
  {
    var s', now := Do(l, s, step), step.now;
    forall path, ip ensures LevelAt(l, s', path, ip, now) == LevelAt(l, s, path, ip, now) {
      LookupLevel(l, s, step, path, ip);
    }
    forall c | c in s'.held ensures Placed(l, s', s'.held[c]) {
      LookupPlaced(l, s, step, c);
    }
    hide LevelAt, LevelOf, Placed, Do;
  }

  lemma LookupPlaced(l: Limits, s: Limiter, step: Step, c: nat)
    requires step.Lookup? && WellMade(l, s, step.now) && c in Do(l, s, step).held
    requires c in s.held ==> Placed(l, s, s.held[c])
    ensures Placed(l, Do(l, s, step), Do(l, s, step).held[c])
  {
    assert c in s.held ==> HeldOk(l, s, s.held[c]);
    hide TierOf, Key, NewBucket, OwnedOk;
  }

  // Equal levels under one budget are told the same and leave the same level.
  lemma ToldAlike(b: Bucket, b': Bucket, now: real)
    requires Sound(b, now) && Sound(b', now) && b.max == b'.max && b.rate == b'.rate
    ensures Told(b, now) == Told(b', now) <==> Level(b, now) == Level(b', now)
    ensures Level(Taken(b, now), now) == if Level(b, now) >= 1.0 then Level(b, now) - 1.0 else Level(b, now)
  {
    AfterTaking(b, now);
  }

  // A bucket that can hold no token stays where it is.
  lemma NothingToTake(b: Bucket, now: real)
    requires Sound(b, now) && b.max <= 0.0
    ensures Level(b, now) == 0.0
  {
    CallKeepsSound(b, now);
  }

  lemma CallTellsAlike(l: Limits, s: Limiter, m: Buckets, c: nat, now: real)
    requires Sane(l) && WellMade(l, s, now) && Good(l, m, now) && Linked(l, s, m, now) && c in s.held
    ensures var h := s.held[c];
            Level(BucketAt(s, h.id), now) == LevelOf(l, m, h.path, h.ip, now)
            && Told(BucketAt(s, h.id), now) == Told(Find(l, m, h.path, h.ip, now), now)
  {
    var h := s.held[c];
    HeldBucket(l, s, c, now);
    FindIsSound(l, m, h.path, h.ip, now, now);
    TierIsSane(l, h.path);
    assert Placed(l, s, h);
    assert LevelAt(l, s, h.path, h.ip, now) == LevelOf(l, m, h.path, h.ip, now);
    hide TierOf, Key, Level, WellMade, Good, Told, Taken;
    if TierOf(l, h.path).burst < 1 {
      NothingToTake(BucketAt(s, h.id), now);
      NothingToTake(Find(l, m, h.path, h.ip, now), now);
    }
    ToldAlike(BucketAt(s, h.id), Find(l, m, h.path, h.ip, now), now);
  }

  // What a call does to every client's level, here and in the reference.
  lemma CallLevels(l: Limits, s: Limiter, m: Buckets, c: nat, path: string, ip: string, now: real)
    requires Sane(l) && WellMade(l, s, now) && Good(l, m, now) && Linked(l, s, m, now) && c in s.held
    ensures var h := s.held[c];
            LevelAt(l, Do(l, s, Call(c, now)), path, ip, now)
                == LevelOf(l, After(l, m, Request(h.path, h.ip, now)), path, ip, now)
  {
    var h, key := s.held[c], Key(l, path, ip);
    assert LevelAt(l, s, path, ip, now) == LevelOf(l, m, path, ip, now);
    assert Placed(l, s, h) && HeldOk(l, s, h);
    CallTellsAlike(l, s, m, c, now);
    HeldBucket(l, s, c, now);
    FindIsSound(l, m, h.path, h.ip, now, now);
    KeyNamesTier(l, path, ip, h.path, h.ip);
    ToldAlike(BucketAt(s, h.id), Find(l, m, h.path, h.ip, now), now);
    ToldAlike(Find(l, m, h.path, h.ip, now), BucketAt(s, h.id), now);
    if key in s.filed {
      assert FiledOk(l, s, key);
    }
    if Key(l, h.path, h.ip) == key && !(key in s.filed && s.filed[key] == h.id) {
      ZeroThere(l, s, m, path, ip, now);
      NothingToTake(BucketAt(s, h.id), now);
    }
    hide TierOf, Key, Level, Told, Taken, WellMade, Good, Sound, NewBucket, Linked;
  }

  lemma ZeroThere(l: Limits, s: Limiter, m: Buckets, path: string, ip: string, now: real)
    requires Sane(l) && WellMade(l, s, now) && Good(l, m, now) && TierOf(l, path).burst < 1
    ensures LevelAt(l, s, path, ip, now) == 0.0 == LevelOf(l, m, path, ip, now)
  {
    FiledIsOk(l, s, path, ip, now);
    FindIsSound(l, m, path, ip, now, now);
    TierIsSane(l, path);
    NothingToTake(FiledBucket(l, s, path, ip, now), now);
    NothingToTake(Find(l, m, path, ip, now), now);
    hide TierOf, Key, Level, WellMade, Good;
  }

  lemma CallLinks(l: Limits, s: Limiter, m: Buckets, c: nat, now: real)
    requires Sane(l) && WellMade(l, s, now) && Good(l, m, now) && Linked(l, s, m, now) && c in s.held
    ensures Linked(l, Do(l, s, Call(c, now)), After(l, m, Request(s.held[c].path, s.held[c].ip, now)), now)
  {
    var s', m' := Do(l, s, Call(c, now)), After(l, m, Request(s.held[c].path, s.held[c].ip, now));
    forall path, ip ensures LevelAt(l, s', path, ip, now) == LevelOf(l, m', path, ip, now) {
      CallLevels(l, s, m, c, path, ip, now);
    }
    forall d | d in s'.held ensures Placed(l, s', s'.held[d]) {
      assert Placed(l, s, s.held[d]);
      hide TierOf, Key, Taken;
    }
    hide LevelAt, LevelOf, Placed, Do, After;
  }

  lemma DropLinksExactly(l: Limits, s: Limiter, m: Buckets, key: string, now: real)
    requires Sane(l) && WellMade(l, s, now) && Linked(l, s, m, now) && Drops(s, Drop(key, now))
    ensures Linked(l, Do(l, s, Drop(key, now)), m, now) <==> Harmless(s, key, now)
  {
    var s', o := Do(l, s, Drop(key, now)), s.store[s.filed[key]];
    assert FiledOk(l, s, key);
    TierIsSane(l, o.path);
    NewLevel(TierOf(l, o.path), now, now);
    assert LevelAt(l, s, o.path, o.ip, now) == LevelOf(l, m, o.path, o.ip, now);
    assert LevelAt(l, s', o.path, o.ip, now) == o.b.max;
    forall path, ip ensures LevelAt(l, s', path, ip, now) == LevelOf(l, m, path, ip, now) <==>
        Key(l, path, ip) != key || Level(o.b, now) == o.b.max {
      DropLevel(l, s, m, key, path, ip, now);
    }
    forall c | c in s.held ensures Placed(l, s', s.held[c]) <==> c !in Users(s, key) || o.b.max < 1.0 {
      DropPlaced(l, s, key, c, now);
      assert Placed(l, s, s.held[c]);
    }
    hide LevelAt, LevelOf, Placed, Level, TierOf, Key, OwnedOk;
    if Linked(l, s', m, now) && o.b.max >= 1.0 {
      assert forall c :: c in s.held ==> c !in Users(s, key);
    }
  }

  lemma DropLevel(l: Limits, s: Limiter, m: Buckets, key: string, path: string, ip: string, now: real)
    requires Sane(l) && WellMade(l, s, now) && Linked(l, s, m, now) && Drops(s, Drop(key, now))
    ensures var b := BucketAt(s, s.filed[key]);
            LevelAt(l, Do(l, s, Drop(key, now)), path, ip, now) == LevelOf(l, m, path, ip, now)
            <==> Key(l, path, ip) != key || Level(b, now) == b.max
  {
    var o := s.store[s.filed[key]];
    assert FiledOk(l, s, key);
    TierIsSane(l, path);
    NewLevel(TierOf(l, path), now, now);
    KeyNamesTier(l, path, ip, o.path, o.ip);
    assert LevelAt(l, s, path, ip, now) == LevelOf(l, m, path, ip, now);
    hide TierOf, Key, Level, LevelOf, NewBucket;
  }

  lemma DropPlaced(l: Limits, s: Limiter, key: string, c: nat, now: real)
    requires WellMade(l, s, now) && Drops(s, Drop(key, now)) && c in s.held && Placed(l, s, s.held[c])
    ensures Placed(l, Do(l, s, Drop(key, now)), s.held[c]) <==>
              c !in Users(s, key) || BucketAt(s, s.filed[key]).max < 1.0
  {
    var h, o := s.held[c], s.store[s.filed[key]];
    assert FiledOk(l, s, key) && HeldOk(l, s, h);
    KeyNamesTier(l, h.path, h.ip, o.path, o.ip);
    hide TierOf, Key, Sound;
  }

  /** One step keeps the limiter like the reference exactly if it is no harmful deletion, and
      a call is told what the reference tells. */
  lemma StepLinksExactly(l: Limits, s: Limiter, m: Buckets, step: Step, from: real)
    requires Sane(l) && WellMade(l, s, from) && Good(l, m, from) && Linked(l, s, m, from) && from <= step.now
    ensures Linked(l, Do(l, s, step), Mirror(l, s, m, step), step.now)
            <==> !(Drops(s, step) && !Harmless(s, step.key, step.now))
    ensures Calls(s, step) ==>
              var e := RequestOf(s, step);
              Told(BucketAt(s, s.held[step.c].id), e.now) == Told(Find(l, m, e.path, e.ip, e.now), e.now)
  {
    var now := step.now;
    LinkedLater(l, s, m, from, now);
    WellMadeLater(l, s, from, now);
    GoodLater(l, m, from, now);
    hide WellMade, Good, Linked, LevelAt, LevelOf, Placed, Harmless;
    match step
    case Lookup(_, _, _, _) => LookupLinks(l, s, m, step);
    case Call(c, _) =>
      if c in s.held {
        CallLinks(l, s, m, c, now);
        CallTellsAlike(l, s, m, c, now);
      }
    case Judge(key, _) => SameLinks(l, s, Do(l, s, step), m, now);
    case Drop(key, _) =>
      if Drops(s, step) {
        DropLinksExactly(l, s, m, key, now);
      } else {
        SameLinks(l, s, Do(l, s, step), m, now);
      }
  }

  lemma SameLinks(l: Limits, s: Limiter, s': Limiter, m: Buckets, now: real)
    requires Linked(l, s, m, now) && s' == s.(judged := s'.judged)
    ensures Linked(l, s', m, now)
  {
    forall path, ip ensures LevelAt(l, s', path, ip, now) == LevelAt(l, s, path, ip, now) {}
    forall c | c in s'.held ensures Placed(l, s', s'.held[c]) {
      assert Placed(l, s, s.held[c]);
    }
  }

  // ----------------------------------------------------------------------- over runs

  ghost predicate AlwaysLinked(l: Limits, s: Limiter, m: Buckets, steps: seq<Step>, from: real)
    decreases |steps|
  {
    Linked(l, s, m, from)
    && (steps == [] || AlwaysLinked(l, Do(l, s, steps[0]), Mirror(l, s, m, steps[0]), steps[1..], steps[0].now))
  }

  ghost predicate EveryDropHarmless(l: Limits, s: Limiter, steps: seq<Step>)
    decreases |steps|
  {
    steps == [] || (!(Drops(s, steps[0]) && !Harmless(s, steps[0].key, steps[0].now))
                    && EveryDropHarmless(l, Do(l, s, steps[0]), steps[1..]))
  }

  predicate DropFree(steps: seq<Step>) {
    forall i :: 0 <= i < |steps| ==> !steps[i].Drop?
  }

  lemma MirrorKeepsGood(l: Limits, s: Limiter, m: Buckets, step: Step, from: real)
    requires Sane(l) && Good(l, m, from) && from <= step.now
    ensures Good(l, Mirror(l, s, m, step), step.now)
  {
    if Calls(s, step) {
      EventKeepsGood(l, m, RequestOf(s, step), from);
    } else {
      GoodLater(l, m, from, step.now);
    }
  }

  /** Exactly, over every run of lookups, calls, idle checks and deletions in any order: the
      limiter stays indistinguishable from one that sweeps nothing and answers each request in
      one step, if and only if every deletion is harmless at its moment; and then it gives the
      same answers. */
  lemma {:induction false} LinkedExactly(l: Limits, s: Limiter, m: Buckets, steps: seq<Step>, from: real)
    requires Sane(l) && WellMade(l, s, from) && Good(l, m, from) && Linked(l, s, m, from) && InTime(steps, from)
    ensures AlwaysLinked(l, s, m, steps, from) <==> EveryDropHarmless(l, s, steps)
    ensures EveryDropHarmless(l, s, steps) ==> AnswersOf(l, s, steps) == Answers(l, m, RequestsOf(l, s, steps))
    decreases |steps|
  {
    if steps != [] {
      var step, rest := steps[0], steps[1..];
      StepLinksExactly(l, s, m, step, from);
      StepKeepsWellMade(l, s, step, from);
      MirrorKeepsGood(l, s, m, step, from);
      hide WellMade, Good, Linked, Do, Told, Find, Drops, Harmless, TierOf;
      var s', m' := Do(l, s, step), Mirror(l, s, m, step);
      if Linked(l, s', m', step.now) {
        LinkedExactly(l, s', m', rest, step.now);
        if EveryDropHarmless(l, s', rest) {
          SameAnswersBefore(l, s, m, steps);
        }
      }
    }
  }

  lemma SameAnswersBefore(l: Limits, s: Limiter, m: Buckets, steps: seq<Step>)
    requires steps != []
    requires Calls(s, steps[0]) ==>
               var e := RequestOf(s, steps[0]);
               Told(BucketAt(s, s.held[steps[0].c].id), e.now) == Told(Find(l, m, e.path, e.ip, e.now), e.now)
    requires var s', m' := Do(l, s, steps[0]), Mirror(l, s, m, steps[0]);
             AnswersOf(l, s', steps[1..]) == Answers(l, m', RequestsOf(l, s', steps[1..]))
    ensures AnswersOf(l, s, steps) == Answers(l, m, RequestsOf(l, s, steps))
  {
    var step, rest := steps[0], RequestsOf(l, Do(l, s, steps[0]), steps[1..]);
    hide Do, Told, Find;
    if Calls(s, step) {
      AnswersUnfold(l, m, RequestOf(s, step), rest);
      assert RequestsOf(l, s, steps) == [RequestOf(s, step)] + rest;
    } else {
      assert RequestsOf(l, s, steps) == [] + rest == rest;
    }
  }

  lemma AnswersUnfold(l: Limits, m: Buckets, e: Event, rest: seq<Event>)
    ensures Answers(l, m, [e] + rest)
              == [Told(Find(l, m, e.path, e.ip, e.now), e.now)] + Answers(l, After(l, m, e), rest)
  {
    assert ([e] + rest)[1..] == rest;
  }

  lemma {:induction false} FreshCall(used: set<nat>) returns (c: nat)
    ensures forall d :: d in used ==> d < c
  {
    if used == {} {
      c := 0;
    } else {
      var d :| d in used;
      var rest := FreshCall(used - {d});
      c := if rest > d then rest else d + 1;
      assert forall e :: e in used ==> e == d || e in used - {d};
    }
  }

  // Look up and call.
  function Ask(c: nat, path: string, ip: string, now: real): seq<Step> {
    [Lookup(c, path, ip, now), Call(c, now)]
  }

  lemma AskAnswers(l: Limits, s: Limiter, m: Buckets, c: nat, path: string, ip: string, now: real)
    requires c !in s.held
    ensures AnswersOf(l, s, Ask(c, path, ip, now)) == [Told(FiledBucket(l, s, path, ip, now), now)]
    ensures RequestsOf(l, s, Ask(c, path, ip, now)) == [Request(path, ip, now)]
    ensures Answers(l, m, [Request(path, ip, now)]) == [Told(Find(l, m, path, ip, now), now)]
    ensures InTime(Ask(c, path, ip, now), now)
  {
    var steps := Ask(c, path, ip, now);
    var s1 := Do(l, s, steps[0]);
    assert steps[1..] == [Call(c, now)] && steps[1..][1..] == [];
    assert InTime([], now) && InTime(steps[1..], now);
    AnswersUnfold(l, m, Request(path, ip, now), []);
    assert [Request(path, ip, now)] + [] == [Request(path, ip, now)];
    LookupHolds(l, s, c, path, ip, now);
    hide Told, TierOf, Key, Do, FiledBucket, NewBucket;
    assert AnswersOf(l, s1, [Call(c, now)])
        == [Told(BucketAt(s1, s1.held[c].id), now)] + AnswersOf(l, Do(l, s1, Call(c, now)), []);
    assert RequestsOf(l, s1, [Call(c, now)])
        == [RequestOf(s1, Call(c, now))] + RequestsOf(l, Do(l, s1, Call(c, now)), []);
  }

  lemma LookupHolds(l: Limits, s: Limiter, c: nat, path: string, ip: string, now: real)
    requires c !in s.held
    ensures var s1 := Do(l, s, Lookup(c, path, ip, now));
            c in s1.held && s1.held[c].path == path && s1.held[c].ip == ip
            && BucketAt(s1, s1.held[c].id) == FiledBucket(l, s, path, ip, now)
  {
    hide TierOf, Key, NewBucket;
  }

  // A difference in level shows at the next request.
  lemma LevelShows(l: Limits, s: Limiter, m: Buckets, path: string, ip: string, now: real) returns (ext: seq<Step>)
    requires Sane(l) && WellMade(l, s, now) && Good(l, m, now)
    requires LevelAt(l, s, path, ip, now) != LevelOf(l, m, path, ip, now)
    ensures InTime(ext, now) && DropFree(ext)
    ensures AnswersOf(l, s, ext) != Answers(l, m, RequestsOf(l, s, ext))
  {
    var c := FreshCall(s.held.Keys);
    ext := Ask(c, path, ip, now);
    AskAnswers(l, s, m, c, path, ip, now);
    FiledIsOk(l, s, path, ip, now);
    FindIsSound(l, m, path, ip, now, now);
    ToldAlike(FiledBucket(l, s, path, ip, now), Find(l, m, path, ip, now), now);
    hide AnswersOf, Answers, RequestsOf, Told, Level, WellMade, Good, TierOf, Key, FiledBucket, Find;
  }

  lemma CallThen(l: Limits, s: Limiter, m: Buckets, c: nat, now: real, ext: seq<Step>)
    requires c in s.held
    ensures var h := s.held[c];
            AnswersOf(l, s, [Call(c, now)] + ext)
            == [Told(BucketAt(s, h.id), now)] + AnswersOf(l, Do(l, s, Call(c, now)), ext)
            && Answers(l, m, RequestsOf(l, s, [Call(c, now)] + ext))
               == [Told(Find(l, m, h.path, h.ip, now), now)]
                  + Answers(l, After(l, m, Request(h.path, h.ip, now)), RequestsOf(l, Do(l, s, Call(c, now)), ext))
  {
    var steps, h := [Call(c, now)] + ext, s.held[c];
    assert steps[0] == Call(c, now) && steps[1..] == ext;
    AnswersUnfold(l, m, Request(h.path, h.ip, now), RequestsOf(l, Do(l, s, Call(c, now)), ext));
  }

  // An object taken off file while a request holds it grants beside the new one.
  lemma StrayShows(l: Limits, s: Limiter, m: Buckets, c: nat, now: real) returns (ext: seq<Step>)
    requires Sane(l) && WellMade(l, s, now) && Good(l, m, now) && c in s.held
    requires Key(l, s.held[c].path, s.held[c].ip) !in s.filed && TierOf(l, s.held[c].path).burst >= 1
    requires LevelOf(l, m, s.held[c].path, s.held[c].ip, now) == TierOf(l, s.held[c].path).burst as real
    ensures InTime(ext, now) && DropFree(ext)
    ensures AnswersOf(l, s, ext) != Answers(l, m, RequestsOf(l, s, ext))
  {
    var h := s.held[c];
    var s', m' := Do(l, s, Call(c, now)), After(l, m, Request(h.path, h.ip, now));
    StrayLevels(l, s, m, c, now);
    StepKeepsWellMade(l, s, Call(c, now), now);
    EventKeepsGood(l, m, Request(h.path, h.ip, now), now);
    hide LevelAt, LevelOf, WellMade, Good, TierOf, Key, Told, Find, Do, After, Answers, AnswersOf, RequestsOf, Sane;
    var rest := LevelShows(l, s', m', h.path, h.ip, now);
    ext := [Call(c, now)] + rest;
    assert ext[1..] == rest;
    CallThen(l, s, m, c, now, rest);
    Behead(Told(BucketAt(s, h.id), now), AnswersOf(l, s', rest),
           Told(Find(l, m, h.path, h.ip, now), now), Answers(l, m', RequestsOf(l, s', rest)));
  }

  lemma Behead<T>(x: T, xs: seq<T>, y: T, ys: seq<T>)
    ensures [x] + xs == [y] + ys ==> xs == ys
  {
    assert ([x] + xs)[1..] == xs && ([y] + ys)[1..] == ys;
  }

  lemma StrayLevels(l: Limits, s: Limiter, m: Buckets, c: nat, now: real)
    requires Sane(l) && WellMade(l, s, now) && Good(l, m, now) && c in s.held
    requires Key(l, s.held[c].path, s.held[c].ip) !in s.filed && TierOf(l, s.held[c].path).burst >= 1
    requires LevelOf(l, m, s.held[c].path, s.held[c].ip, now) == TierOf(l, s.held[c].path).burst as real
    ensures var h := s.held[c];
            LevelAt(l, Do(l, s, Call(c, now)), h.path, h.ip, now)
                != LevelOf(l, After(l, m, Request(h.path, h.ip, now)), h.path, h.ip, now)
  {
    var h := s.held[c];
    var b := Find(l, m, h.path, h.ip, now);
    TierIsSane(l, h.path);
    NewLevel(TierOf(l, h.path), now, now);
    FindIsSound(l, m, h.path, h.ip, now, now);
    AfterTaking(b, now);
    assert Find(l, After(l, m, Request(h.path, h.ip, now)), h.path, h.ip, now) == Taken(b, now);
    hide Level, TierOf, Key, WellMade, Good, NewBucket, Find, Sane;
  }

  /** A harmful deletion shows: some requests right after it, with no further sweeping, are
      answered otherwise than by the reference; after a harmless one none ever are. */
  lemma HarmlessExactly(l: Limits, s: Limiter, m: Buckets, key: string, now: real)
    requires Sane(l) && WellMade(l, s, now) && Good(l, m, now) && Linked(l, s, m, now) && Drops(s, Drop(key, now))
    ensures Harmless(s, key, now) <==>
            forall ext: seq<Step> :: InTime(ext, now) && DropFree(ext)
              ==> var s' := Do(l, s, Drop(key, now)); AnswersOf(l, s', ext) == Answers(l, m, RequestsOf(l, s', ext))
  {
    var s' := Do(l, s, Drop(key, now));
    DropLinksExactly(l, s, m, key, now);
    StepKeepsWellMade(l, s, Drop(key, now), now);
    if Harmless(s, key, now) {
      forall ext: seq<Step> | InTime(ext, now) && DropFree(ext)
        ensures AnswersOf(l, s', ext) == Answers(l, m, RequestsOf(l, s', ext))
      {
        NoDrops(l, s', ext);
        LinkedExactly(l, s', m, ext, now);
        hide Linked, WellMade, Good, AnswersOf, Answers, RequestsOf, Do;
      }
    } else {
      var ext := HarmShows(l, s, m, key, now);
    }
  }

  lemma {:induction false} NoDrops(l: Limits, s: Limiter, steps: seq<Step>)
    requires DropFree(steps)
    ensures EveryDropHarmless(l, s, steps)
    decreases |steps|
  {
    hide Do, Harmless;
    if steps != [] {
      assert !steps[0].Drop?;
      NoDrops(l, Do(l, s, steps[0]), steps[1..]);
    }
  }

  lemma HarmShows(l: Limits, s: Limiter, m: Buckets, key: string, now: real) returns (ext: seq<Step>)
    requires Sane(l) && WellMade(l, s, now) && Good(l, m, now) && Linked(l, s, m, now) && Drops(s, Drop(key, now))
    requires !Harmless(s, key, now)
    ensures InTime(ext, now) && DropFree(ext)
    ensures var s' := Do(l, s, Drop(key, now)); AnswersOf(l, s', ext) != Answers(l, m, RequestsOf(l, s', ext))
  {
    var s', o := Do(l, s, Drop(key, now)), s.store[s.filed[key]];
    assert FiledOk(l, s, key);
    StepKeepsWellMade(l, s, Drop(key, now), now);
    DropLevel(l, s, m, key, o.path, o.ip, now);
    if Level(o.b, now) != o.b.max {
      hide Linked, WellMade, Good, AnswersOf, Answers, RequestsOf, Level, TierOf;
      ext := LevelShows(l, s', m, o.path, o.ip, now);
    } else {
      var c :| c in Users(s, key);
      var h := s.held[c];
      assert HeldOk(l, s, h);
      KeyNamesTier(l, h.path, h.ip, o.path, o.ip);
      DropLevel(l, s, m, key, h.path, h.ip, now);
      TierIsSane(l, h.path);
      NewLevel(TierOf(l, h.path), now, now);
      assert LevelAt(l, s', h.path, h.ip, now) == TierOf(l, h.path).burst as real;
      hide Linked, WellMade, Good, AnswersOf, Answers, RequestsOf, Level, LevelOf, LevelAt;
      ext := StrayShows(l, s', m, c, now);
    }
  }

  // ------------------------------------------------------------------ prompt deletions

  /** The bucket is still idle when its key is deleted, and no request holds it: nothing came
      between the idle check and the deletion. */
  predicate Prompt(s: Limiter, key: string, now: real)
    requires key in s.filed
  {
    Idle(s, key, now) && Users(s, key) == {}
  }

  ghost predicate EveryDropPrompt(l: Limits, s: Limiter, steps: seq<Step>)
    decreases |steps|
  {
    steps == [] || (!(Drops(s, steps[0]) && !Prompt(s, steps[0].key, steps[0].now))
                    && EveryDropPrompt(l, Do(l, s, steps[0]), steps[1..]))
  }

  lemma PromptIsHarmless(l: Limits, s: Limiter, key: string, now: real)
    requires Sane(l) && AllCovered(l) && WellMade(l, s, now) && key in s.filed && Prompt(s, key, now)
    ensures Harmless(s, key, now)
  {
    assert FiledOk(l, s, key);
    var o := s.store[s.filed[key]];
    TierIsSane(l, o.path);
    FullAfterIdle(TierOf(l, o.path));
    assert IsOf(TierOf(l, o.path), o.b);
  }

  lemma {:induction false} PromptDropsAreHarmless(l: Limits, s: Limiter, steps: seq<Step>, from: real)
    requires Sane(l) && AllCovered(l) && WellMade(l, s, from) && InTime(steps, from) && EveryDropPrompt(l, s, steps)
    ensures EveryDropHarmless(l, s, steps)
    decreases |steps|
  {
    if steps != [] {
      StepKeepsWellMade(l, s, steps[0], from);
      WellMadeLater(l, s, from, steps[0].now);
      if Drops(s, steps[0]) {
        PromptIsHarmless(l, s, steps[0].key, steps[0].now);
      }
      hide WellMade, Do, Prompt, Harmless, AllCovered;
      PromptDropsAreHarmless(l, Do(l, s, steps[0]), steps[1..], steps[0].now);
    }
  }

  lemma EmptyIsLinked(l: Limits, now: real)
    ensures WellMade(l, EMPTY, now) && Good(l, map[], now) && Linked(l, EMPTY, map[], now)
  {
    forall path, ip ensures LevelAt(l, EMPTY, path, ip, now) == LevelOf(l, map[], path, ip, now) {}
  }

  /** With every tier covered and every deletion prompt, all answers are those of the same
      requests without any sweep. */
  lemma SweepIsInvisible(l: Limits, steps: seq<Step>)
    requires Sane(l) && AllCovered(l) && InTime(steps, 0.0) && EveryDropPrompt(l, EMPTY, steps)
    ensures AnswersOf(l, EMPTY, steps) == Answers(l, map[], RequestsOf(l, EMPTY, steps))
  {
    EmptyIsLinked(l, 0.0);
    PromptDropsAreHarmless(l, EMPTY, steps, 0.0);
    LinkedExactly(l, EMPTY, map[], steps, 0.0);
  }

  // A client, alone, that has n tokens left at time zero.
  ghost predicate Spending(l: Limits, s: Limiter, path: string, n: int) {
    && s.held == map[] && LevelAt(l, s, path, "", 0.0) == n as real
    && (Key(l, path, "") in s.filed ==> BucketAt(s, s.filed[Key(l, path, "")]).last == 0.0)
  }

  lemma AskSpends(l: Limits, s: Limiter, path: string, n: int)
    requires Sane(l) && WellMade(l, s, 0.0) && Spending(l, s, path, n) && n >= 1
    ensures var s1 := Do(l, s, Lookup(0, path, "", 0.0));
            0 in s1.held && s1.held[0].path == path && s1.held[0].ip == ""
                && Spending(l, Do(l, s1, Call(0, 0.0)), path, n - 1)
  {
    FiledIsOk(l, s, path, "", 0.0);
    LookupHolds(l, s, 0, path, "", 0.0);
    AfterTaking(FiledBucket(l, s, path, "", 0.0), 0.0);
    var s1 := Do(l, s, Lookup(0, path, "", 0.0));
    var s2 := Do(l, s1, Call(0, 0.0));
    assert s2.held == map[];
    assert FiledBucket(l, s2, path, "", 0.0) == Taken(FiledBucket(l, s, path, "", 0.0), 0.0);
    hide TierOf, Key, WellMade, NewBucket;
  }

  lemma AskIs(c: nat, path: string, ip: string, now: real, rest: seq<Step>)
    ensures Ask(c, path, ip, now) + rest == [Lookup(c, path, ip, now)] + ([Call(c, now)] + rest)
  {
  }

  lemma TwoAnswers(l: Limits, s: Limiter, m: Buckets, path: string, rest: seq<Step>)
    requires 0 !in s.held
    requires var s1 := Do(l, s, Lookup(0, path, "", 0.0));
             0 in s1.held && s1.held[0].path == path && s1.held[0].ip == ""
             && AnswersOf(l, Do(l, s1, Call(0, 0.0)), rest)
                != Answers(l, After(l, m, Request(path, "", 0.0)), RequestsOf(l, Do(l, s1, Call(0, 0.0)), rest))
    ensures AnswersOf(l, s, Ask(0, path, "", 0.0) + rest)
              != Answers(l, m, RequestsOf(l, s, Ask(0, path, "", 0.0) + rest))
  {
    var s1 := Do(l, s, Lookup(0, path, "", 0.0));
    var s2 := Do(l, s1, Call(0, 0.0));
    AskIs(0, path, "", 0.0, rest);
    hide Do, Told, TierOf, Key, AnswersOf, RequestsOf, Answers, Ask, Find, After, BucketAt;
    QuietThen(l, s, Lookup(0, path, "", 0.0), [Call(0, 0.0)] + rest);
    CallThen(l, s1, m, 0, 0.0, rest);
    Behead(Told(BucketAt(s1, s1.held[0].id), 0.0), AnswersOf(l, s2, rest),
           Told(Find(l, m, path, "", 0.0), 0.0),
               Answers(l, After(l, m, Request(path, "", 0.0)), RequestsOf(l, s2, rest)));
  }

  lemma QuietThen(l: Limits, s: Limiter, step: Step, rest: seq<Step>)
    requires !Calls(s, step)
    ensures AnswersOf(l, s, [step] + rest) == AnswersOf(l, Do(l, s, step), rest)
    ensures RequestsOf(l, s, [step] + rest) == RequestsOf(l, Do(l, s, step), rest)
  {
    assert ([step] + rest)[1..] == rest;
    hide Do;
  }

  // Spend the burst, be judged and deleted just after the idle limit, and ask again.
  lemma {:induction false} SpendThenShow(l: Limits, s: Limiter, m: Buckets, path: string, n: nat, now: real)
      returns (steps: seq<Step>)
    requires Sane(l) && WellMade(l, s, 0.0) && Good(l, m, 0.0) && Linked(l, s, m, 0.0) && Spending(l, s, path, n)
    requires now > IDLE_LIMIT && Accrued(now, TierOf(l, path).rps) < TierOf(l, path).burst as real
    ensures InTime(steps, 0.0) && EveryDropPrompt(l, s, steps)
    ensures AnswersOf(l, s, steps) != Answers(l, m, RequestsOf(l, s, steps))
    decreases n
  {
    if n == 0 {
      steps := DeleteAndShow(l, s, m, path, now);
    } else {
      AskSpends(l, s, path, n);
      AskKeepsLinked(l, s, m, path);
      var s1 := Do(l, s, Lookup(0, path, "", 0.0));
      var s2, m2 := Do(l, s1, Call(0, 0.0)), After(l, m, Request(path, "", 0.0));
      assert 0 !in s.held;
      hide Sane, WellMade, Good, Linked, Spending, Do, TierOf, Key, After, Told, AnswersOf, Answers, RequestsOf;
      var rest := SpendThenShow(l, s2, m2, path, n - 1, now);
      TwoAnswers(l, s, m, path, rest);
      steps := Ask(0, path, "", 0.0) + rest;
      assert steps[1..] == [Call(0, 0.0)] + rest && steps[1..][1..] == rest;
      assert EveryDropPrompt(l, s1, [Call(0, 0.0)] + rest);
    }
  }

  lemma AskKeepsLinked(l: Limits, s: Limiter, m: Buckets, path: string)
    requires Sane(l) && WellMade(l, s, 0.0) && Good(l, m, 0.0) && Linked(l, s, m, 0.0) && 0 !in s.held
    ensures var s2 := Do(l, Do(l, s, Lookup(0, path, "", 0.0)), Call(0, 0.0));
            var m2 := After(l, m, Request(path, "", 0.0));
            WellMade(l, s2, 0.0) && Good(l, m2, 0.0) && Linked(l, s2, m2, 0.0)
  {
    var look := Lookup(0, path, "", 0.0);
    var s1 := Do(l, s, look);
    LookupHolds(l, s, 0, path, "", 0.0);
    StepKeepsWellMade(l, s, look, 0.0);
    StepKeepsWellMade(l, s1, Call(0, 0.0), 0.0);
    StepLinksExactly(l, s, m, look, 0.0);
    hide Sane, WellMade, Good, Linked, Do, TierOf, Key, After, Told;
    StepLinksExactly(l, s1, m, Call(0, 0.0), 0.0);
    EventKeepsGood(l, m, Request(path, "", 0.0), 0.0);
  }

  lemma DeleteAndShow(l: Limits, s: Limiter, m: Buckets, path: string, now: real) returns (steps: seq<Step>)
    requires Sane(l) && WellMade(l, s, 0.0) && Good(l, m, 0.0) && Linked(l, s, m, 0.0) && Spending(l, s, path, 0)
    requires now > IDLE_LIMIT && Accrued(now, TierOf(l, path).rps) < TierOf(l, path).burst as real
    ensures InTime(steps, 0.0) && EveryDropPrompt(l, s, steps)
    ensures AnswersOf(l, s, steps) != Answers(l, m, RequestsOf(l, s, steps))
  {
    var key := Key(l, path, "");
    SpentIsNotFull(l, s, path, now);
    var s1 := Do(l, s, Judge(key, now));
    StepKeepsWellMade(l, s, Judge(key, now), 0.0);
    StepLinksExactly(l, s, m, Judge(key, now), 0.0);
    GoodLater(l, m, 0.0, now);
    assert s1.filed == s.filed && s1.store == s.store && s1.held == map[] && Drops(s1, Drop(key, now));
    assert Users(s1, key) == {};
    assert Prompt(s1, key, now) && !Harmless(s1, key, now);
    hide Sane, WellMade, Good, Linked, TierOf, Key, Told, Answers, Level, LevelAt;
    var ext := HarmShows(l, s1, m, key, now);
    steps := JudgedAndDropped(l, s, m, key, now, ext);
  }

  lemma JudgedAndDropped(l: Limits, s: Limiter, m: Buckets, key: string, now: real, ext: seq<Step>)
      returns (steps: seq<Step>)
    requires 0.0 <= now && InTime(ext, now) && DropFree(ext)
    requires var s1 := Do(l, s, Judge(key, now));
             && Drops(s1, Drop(key, now)) && Prompt(s1, key, now)
             && AnswersOf(l, Do(l, s1, Drop(key, now)), ext)
                 != Answers(l, m, RequestsOf(l, Do(l, s1, Drop(key, now)), ext))
    ensures InTime(steps, 0.0) && EveryDropPrompt(l, s, steps)
    ensures AnswersOf(l, s, steps) != Answers(l, m, RequestsOf(l, s, steps))
  {
    var s1, tail := Do(l, s, Judge(key, now)), [Drop(key, now)] + ext;
    steps := [Judge(key, now)] + tail;
    assert tail[1..] == ext && steps[1..] == tail;
    DropFreeIsPrompt(l, Do(l, s1, Drop(key, now)), ext);
    hide Do, Prompt, Harmless, AnswersOf, RequestsOf, Answers;
    assert EveryDropPrompt(l, s1, tail);
    QuietThen(l, s, Judge(key, now), tail);
    QuietThen(l, s1, Drop(key, now), ext);
    assert InTime(tail, now);
  }

  lemma SpentIsNotFull(l: Limits, s: Limiter, path: string, now: real)
    requires Sane(l) && WellMade(l, s, 0.0) && Spending(l, s, path, 0)
    requires now > IDLE_LIMIT && Accrued(now, TierOf(l, path).rps) < TierOf(l, path).burst as real
    ensures var key := Key(l, path, "");
            key in s.filed && Idle(s, key, now) && var b := BucketAt(s, s.filed[key]); Level(b, now) < b.max
  {
    var key, t := Key(l, path, ""), TierOf(l, path);
    TierIsSane(l, path);
    AccruedAdds(0.0, now, t.rps);
    NewLevel(t, 0.0, 0.0);
    LevelAtLater(l, s, path, "", 0.0, now);
    FiledIsOk(l, s, path, "", 0.0);
    assert now - 0.0 == now;
    hide Accrued, Level, NewBucket, TierOf, Key, WellMade;
  }

  lemma {:induction false} DropFreeIsPrompt(l: Limits, s: Limiter, steps: seq<Step>)
    requires DropFree(steps)
    ensures EveryDropPrompt(l, s, steps)
    decreases |steps|
  {
    hide Do, Prompt;
    if steps != [] {
      assert !steps[0].Drop?;
      DropFreeIsPrompt(l, Do(l, s, steps[0]), steps[1..]);
    }
  }

  /** Prompt deletions are invisible to every client, in every run from the start, exactly when
      the idle limit covers every tier, as it does for the budgets the server builds. */
  lemma SweepIsInvisibleExactly(l: Limits)
    requires Sane(l)
    ensures (forall steps: seq<Step> :: InTime(steps, 0.0) && EveryDropPrompt(l, EMPTY, steps)
               ==> AnswersOf(l, EMPTY, steps) == Answers(l, map[], RequestsOf(l, EMPTY, steps)))
            <==> AllCovered(l)
  {
    if AllCovered(l) {
      forall steps: seq<Step> | InTime(steps, 0.0) && EveryDropPrompt(l, EMPTY, steps)
        ensures AnswersOf(l, EMPTY, steps) == Answers(l, map[], RequestsOf(l, EMPTY, steps))
      {
        SweepIsInvisible(l, steps);
      }
    } else {
      var path :| !Covers(TierOf(l, path));
      var steps := UncoveredShows(l, path);
    }
  }

  lemma UncoveredShows(l: Limits, path: string) returns (steps: seq<Step>)
    requires Sane(l) && !Covers(TierOf(l, path))
    ensures InTime(steps, 0.0) && EveryDropPrompt(l, EMPTY, steps)
    ensures AnswersOf(l, EMPTY, steps) != Answers(l, map[], RequestsOf(l, EMPTY, steps))
  {
    TierIsSane(l, path);
    var now := JustOver(TierOf(l, path));
    assert Accrued(now, TierOf(l, path).rps) < TierOf(l, path).burst as real;
    EmptyIsLinked(l, 0.0);
    NewLevel(TierOf(l, path), 0.0, 0.0);
    hide Covers, Linked, WellMade, Good, TierOf, Level, Sane, AnswersOf, RequestsOf, Answers, EveryDropPrompt;
    steps := SpendThenShow(l, EMPTY, map[], path, TierOf(l, path).burst, now);
  }

  // -------------------------------------------------------------------- the window bound

  predicate CallsFor(l: Limits, s: Limiter, step: Step, path: string, ip: string) {
    Calls(s, step) && Key(l, s.held[step.c].path, s.held[step.c].ip) == Key(l, path, ip)
  }

  function GrantOf(l: Limits, s: Limiter, step: Step, path: string, ip: string): nat {
    if CallsFor(l, s, step, path, ip) && Told(BucketAt(s, s.held[step.c].id), step.now).allowed then 1 else 0
  }

  // How many calls of a client are allowed.
  function AllowedOf(l: Limits, s: Limiter, steps: seq<Step>, path: string, ip: string): nat
    decreases |steps|
  {
    if steps == [] then 0
    else GrantOf(l, s, steps[0], path, ip) + AllowedOf(l, Do(l, s, steps[0]), steps[1..], path, ip)
  }

  /** What a deletion gives a client: the tokens its bucket lacked, and one for every request
      that holds the object. */
  function Gift(l: Limits, s: Limiter, step: Step, path: string, ip: string): real {
    if Drops(s, step) && step.key == Key(l, path, ip) then
      TierOf(l, path).burst as real - Level(BucketAt(s, s.filed[step.key]), step.now) + |Users(s, step.key)| as real
    else 0.0
  }

  function Gifts(l: Limits, s: Limiter, steps: seq<Step>, path: string, ip: string): real
    decreases |steps|
  {
    if steps == [] then 0.0
    else Gift(l, s, steps[0], path, ip) + Gifts(l, Do(l, s, steps[0]), steps[1..], path, ip)
  }

  function LastTime(steps: seq<Step>, from: real): real {
    if steps == [] then from else LastTime(steps[1..], steps[0].now)
  }

  // The client's requests under way on objects that are no longer on file.
  function Strays(l: Limits, s: Limiter, path: string, ip: string): set<nat> {
    set c | c in s.held && Key(l, s.held[c].path, s.held[c].ip) == Key(l, path, ip)
            && !(Key(l, path, ip) in s.filed && s.filed[Key(l, path, ip)] == s.held[c].id)
  }

  lemma LookupStrays(l: Limits, s: Limiter, step: Step, path: string, ip: string)
    requires step.Lookup? && WellMade(l, s, step.now)
    ensures Strays(l, Do(l, s, step), path, ip) == Strays(l, s, path, ip)
    ensures LevelAt(l, Do(l, s, step), path, ip, step.now) == LevelAt(l, s, path, ip, step.now)
  {
    forall c ensures c in Strays(l, Do(l, s, step), path, ip) <==> c in Strays(l, s, path, ip) {
      LookupStray(l, s, step, path, ip, c);
    }
    LookupLevel(l, s, step, path, ip);
    hide TierOf, Key, Level, NewBucket, Strays, Do;
  }

  lemma LookupStray(l: Limits, s: Limiter, step: Step, path: string, ip: string, c: nat)
    requires step.Lookup? && WellMade(l, s, step.now)
    ensures c in Strays(l, Do(l, s, step), path, ip) <==> c in Strays(l, s, path, ip)
  {
    assert c in s.held ==> HeldOk(l, s, s.held[c]);
    hide TierOf, Key, NewBucket, OwnedOk;
  }

  lemma LookupLevel(l: Limits, s: Limiter, step: Step, path: string, ip: string)
    requires step.Lookup? && WellMade(l, s, step.now)
    ensures LevelAt(l, Do(l, s, step), path, ip, step.now) == LevelAt(l, s, path, ip, step.now)
  {
    KeyNamesTier(l, path, ip, step.path, step.ip);
    if Key(l, path, ip) in s.filed {
      assert FiledOk(l, s, Key(l, path, ip));
    }
    hide TierOf, Key, Level, NewBucket, OwnedOk;
  }

  lemma CallStrays(l: Limits, s: Limiter, c: nat, path: string, ip: string, now: real)
    requires Sane(l) && WellMade(l, s, now) && c in s.held
    ensures Strays(l, Do(l, s, Call(c, now)), path, ip) == Strays(l, s, path, ip) - {c}
    ensures LevelAt(l, Do(l, s, Call(c, now)), path, ip, now)
              + (if c in Strays(l, s, path, ip) then 0.0 else GrantOf(l, s, Call(c, now), path, ip) as real)
            == LevelAt(l, s, path, ip, now)
  {
    var h, key := s.held[c], Key(l, path, ip);
    assert HeldOk(l, s, h);
    HeldBucket(l, s, c, now);
    AfterTaking(BucketAt(s, h.id), now);
    if key in s.filed {
      assert FiledOk(l, s, key);
    }
    KeyNamesTier(l, path, ip, h.path, h.ip);
    hide TierOf, Key, Level, WellMade, NewBucket;
  }

  lemma DropStrays(l: Limits, s: Limiter, key: string, path: string, ip: string, now: real)
    requires Sane(l) && WellMade(l, s, now) && Drops(s, Drop(key, now))
    ensures var s' := Do(l, s, Drop(key, now));
            if key == Key(l, path, ip) then
              && Strays(l, s', path, ip) == Strays(l, s, path, ip) + Users(s, key)
              && LevelAt(l, s', path, ip, now) == TierOf(l, path).burst as real
            else
              && Strays(l, s', path, ip) == Strays(l, s, path, ip)
              && LevelAt(l, s', path, ip, now) == LevelAt(l, s, path, ip, now)
    ensures Strays(l, s, path, ip) !! Users(s, Key(l, path, ip))
  {
    TierIsSane(l, path);
    NewLevel(TierOf(l, path), now, now);
    assert FiledOk(l, s, key);
    forall c | c in s.held ensures HeldOk(l, s, s.held[c]) {}
    hide TierOf, Key, Level, NewBucket, OwnedOk;
  }

  lemma SetSizes(a: set<nat>, b: set<nat>, c: nat)
    ensures a !! b ==> |a + b| == |a| + |b|
    ensures c in a ==> |a - {c}| == |a| - 1
    ensures c !in a ==> a - {c} == a
  {
  }

  // One step takes from what a client has what it grants, and gives the refill and the gift.
  lemma StepBalance(l: Limits, s: Limiter, step: Step, from: real, path: string, ip: string)
    requires Sane(l) && WellMade(l, s, from) && from <= step.now
    ensures LevelAt(l, Do(l, s, step), path, ip, step.now) + |Strays(l, Do(l, s, step), path, ip)| as real
              + GrantOf(l, s, step, path, ip) as real
            <= LevelAt(l, s, path, ip, from) + |Strays(l, s, path, ip)| as real + Gift(l, s, step, path, ip)
                + Refill(TierOf(l, path), from, step.now)
  {
    var now := step.now;
    LevelAtLater(l, s, path, ip, from, now);
    WellMadeLater(l, s, from, now);
    assert LevelAt(l, s, path, ip, now) <= LevelAt(l, s, path, ip, from) + Refill(TierOf(l, path), from, now);
    hide WellMade, Refill, Strays, TierOf, Key, LevelAt, Users;
    match step
    case Lookup(_, _, _, _) => LookupStrays(l, s, step, path, ip); hide Do;
    case Call(c, _) =>
      if c in s.held {
        CallStrays(l, s, c, path, ip, now);
        SetSizes(Strays(l, s, path, ip), {}, c);
        hide Do;
      }
    case Judge(key, _) => SameBalance(l, s, Do(l, s, step), path, ip, now); hide Do;
    case Drop(key, _) =>
      if Drops(s, step) {
        DropBalance(l, s, key, path, ip, now);
      } else {
        SameBalance(l, s, Do(l, s, step), path, ip, now);
      }
      hide Do;
  }

  lemma SameBalance(l: Limits, s: Limiter, s': Limiter, path: string, ip: string, now: real)
    requires s' == s.(judged := s'.judged)
    ensures LevelAt(l, s', path, ip, now) == LevelAt(l, s, path, ip, now)
              && Strays(l, s', path, ip) == Strays(l, s, path, ip)
  {
  }

  lemma DropBalance(l: Limits, s: Limiter, key: string, path: string, ip: string, now: real)
    requires Sane(l) && WellMade(l, s, now) && Drops(s, Drop(key, now))
    ensures var s' := Do(l, s, Drop(key, now));
            LevelAt(l, s', path, ip, now) + |Strays(l, s', path, ip)| as real
            == LevelAt(l, s, path, ip, now) + |Strays(l, s, path, ip)| as real + Gift(l, s, Drop(key, now), path, ip)
  {
    DropStrays(l, s, key, path, ip, now);
    SetSizes(Strays(l, s, path, ip), Users(s, key), 0);
    assert key == Key(l, path, ip) ==> LevelAt(l, s, path, ip, now) == Level(BucketAt(s, s.filed[key]), now);
    hide WellMade, Strays, TierOf, Key, LevelAt, Users, Level, Do;
  }

  /** The window bound: over any stretch of any run, whatever interleaves, one client of one
      tier is allowed at most what its bucket could hold, plus one for each of its requests
      under way on an object off file, plus the refill of the elapsed time, plus what the
      deletions in between give away. */
  lemma {:induction false} WindowBound(l: Limits, s: Limiter, steps: seq<Step>, from: real, path: string, ip: string)
    requires Sane(l) && WellMade(l, s, from) && InTime(steps, from)
    ensures AllowedOf(l, s, steps, path, ip) as real
            <= LevelAt(l, s, path, ip, from) + |Strays(l, s, path, ip)| as real
               + Refill(TierOf(l, path), from, LastTime(steps, from)) + Gifts(l, s, steps, path, ip)
    ensures LevelAt(l, s, path, ip, from) <= TierOf(l, path).burst as real
    decreases |steps|
  {
    FiledIsOk(l, s, path, ip, from);
    CallKeepsSound(FiledBucket(l, s, path, ip, from), from);
    AddRefills(TierOf(l, path), from, from, from);
    hide TierOf, WellMade, LevelAt, GrantOf, Gift, Strays, Do, Sane, Refill;
    if steps != [] {
      var step := steps[0];
      StepKeepsWellMade(l, s, step, from);
      StepBalance(l, s, step, from, path, ip);
      WindowBound(l, Do(l, s, step), steps[1..], step.now, path, ip);
      AddRefills(TierOf(l, path), from, step.now, LastTime(steps[1..], step.now));
    }
  }

  // ------------------------------------------------------------------- late deletions

  predicate IsLate(l: Limits, s: Limiter, step: Step, path: string, ip: string) {
    Drops(s, step) && step.key == Key(l, path, ip) && !Prompt(s, step.key, step.now)
  }

  // Deletions of the client's key after something came between.
  function LateDrops(l: Limits, s: Limiter, steps: seq<Step>, path: string, ip: string): nat
    decreases |steps|
  {
    if steps == [] then 0
    else (if IsLate(l, s, steps[0], path, ip) then 1 else 0) + LateDrops(l, Do(l, s, steps[0]), steps[1..], path, ip)
  }

  // And the requests they take the object from.
  function Caught(l: Limits, s: Limiter, steps: seq<Step>, path: string, ip: string): nat
    decreases |steps|
  {
    if steps == [] then 0
    else
      (if IsLate(l, s, steps[0], path, ip) then |Users(s, steps[0].key)| else 0)
      + Caught(l, Do(l, s, steps[0]), steps[1..], path, ip)
  }

  function Bursts(t: Tier, n: nat): real {
    t.burst as real * n as real
  }

  lemma BurstsAdd(t: Tier, x: nat, y: nat)
    ensures Bursts(t, x + y) == Bursts(t, x) + Bursts(t, y)
    ensures Bursts(t, 0) == 0.0 && Bursts(t, 1) == t.burst as real
  {
    assert (x + y) as real == x as real + y as real;
  }

  lemma GiftAtMost(l: Limits, s: Limiter, step: Step, path: string, ip: string)
    requires Sane(l) && WellMade(l, s, step.now) && Covers(TierOf(l, path))
    ensures Gift(l, s, step, path, ip)
            <= if IsLate(l, s, step, path, ip) then Bursts(TierOf(l, path), 1) + |Users(s, step.key)| as real else 0.0
  {
    BurstsAdd(TierOf(l, path), 0, 1);
    if Drops(s, step) && step.key == Key(l, path, ip) {
      FiledIsOk(l, s, path, ip, step.now);
      TierIsSane(l, path);
      CallKeepsSound(FiledBucket(l, s, path, ip, step.now), step.now);
      if Prompt(s, step.key, step.now) {
        FullAfterIdle(TierOf(l, path));
        assert IsOf(TierOf(l, path), FiledBucket(l, s, path, ip, step.now));
      }
    }
    hide TierOf, Key, Level, WellMade, Bursts;
  }

  /** On a covered tier prompt deletions give nothing away, and a late one at most a burst and
      one for each request that holds the object. */
  lemma {:induction false} GiftsAtMost(l: Limits, s: Limiter, steps: seq<Step>, from: real, path: string, ip: string)
    requires Sane(l) && WellMade(l, s, from) && InTime(steps, from) && Covers(TierOf(l, path))
    ensures Gifts(l, s, steps, path, ip)
            <= Bursts(TierOf(l, path), LateDrops(l, s, steps, path, ip)) + Caught(l, s, steps, path, ip) as real
    decreases |steps|
  {
    BurstsAdd(TierOf(l, path), 0, 0);
    if steps != [] {
      var step, s', rest := steps[0], Do(l, s, steps[0]), steps[1..];
      WellMadeLater(l, s, from, step.now);
      GiftAtMost(l, s, step, path, ip);
      StepKeepsWellMade(l, s, step, from);
      hide WellMade, Do, Gift, IsLate, Covers, TierOf, Sane, Users, Bursts;
      GiftsAtMost(l, s', rest, step.now, path, ip);
      BurstsAdd(TierOf(l, path), if IsLate(l, s, step, path, ip) then 1 else 0, LateDrops(l, s', rest, path, ip));
      BurstsAdd(TierOf(l, path), 0, 1);
    }
  }

  /** So with late deletions: burst times one more than their number, one for each request
      caught, and the refill. */
  lemma WindowBoundByLateDrops(l: Limits, s: Limiter, steps: seq<Step>, from: real, path: string, ip: string)
    requires Sane(l) && WellMade(l, s, from) && InTime(steps, from) && Covers(TierOf(l, path))
              && Strays(l, s, path, ip) == {}
    ensures AllowedOf(l, s, steps, path, ip) as real
            <= Bursts(TierOf(l, path), 1 + LateDrops(l, s, steps, path, ip))
               + Caught(l, s, steps, path, ip) as real + Refill(TierOf(l, path), from, LastTime(steps, from))
  {
    WindowBound(l, s, steps, from, path, ip);
    GiftsAtMost(l, s, steps, from, path, ip);
    BurstsAdd(TierOf(l, path), 1, LateDrops(l, s, steps, path, ip));
    hide Bursts, TierOf, Strays, LevelAt, Refill, Gifts, LateDrops, Caught, AllowedOf, Covers, WellMade;
  }

  // n requests at one moment.
  function AskTimes(n: nat, path: string, now: real): seq<Step> {
    if n == 0 then [] else Ask(0, path, "", now) + AskTimes(n - 1, path, now)
  }

  predicate AllAt(steps: seq<Step>, now: real) {
    forall i :: 0 <= i < |steps| ==> steps[i].now == now
  }

  // The client is alone and has n tokens.
  ghost predicate Rich(l: Limits, s: Limiter, path: string, n: int, now: real) {
    WellMade(l, s, now) && s.held == map[] && LevelAt(l, s, path, "", now) == n as real
  }

  lemma AskLeaves(l: Limits, s: Limiter, path: string, n: int, now: real)
    requires Sane(l) && Rich(l, s, path, n, now) && n >= 1
    ensures var s1 := Do(l, s, Lookup(0, path, "", now));
            var t := Do(l, s1, Call(0, now));
            Rich(l, t, path, n - 1, now) && Key(l, path, "") in t.filed && t.judged == s.judged
            && Level(FiledBucket(l, s, path, "", now), now) >= 1.0
  {
    var s1 := Do(l, s, Lookup(0, path, "", now));
    var t := Do(l, s1, Call(0, now));
    FiledIsOk(l, s, path, "", now);
    LookupHolds(l, s, 0, path, "", now);
    AfterTaking(FiledBucket(l, s, path, "", now), now);
    StepKeepsWellMade(l, s, Lookup(0, path, "", now), now);
    StepKeepsWellMade(l, s1, Call(0, now), now);
    assert t.held == map[] && FiledBucket(l, t, path, "", now) == Taken(FiledBucket(l, s, path, "", now), now);
    hide TierOf, Key, WellMade, Level, NewBucket, Sane;
  }

  lemma AskGrants(l: Limits, s: Limiter, path: string, n: int, now: real, tail: seq<Step>) returns (t: Limiter)
    requires Sane(l) && Rich(l, s, path, n, now) && n >= 1
    ensures Rich(l, t, path, n - 1, now) && Key(l, path, "") in t.filed && t.judged == s.judged
    ensures AllowedOf(l, s, Ask(0, path, "", now) + tail, path, "") == 1 + AllowedOf(l, t, tail, path, "")
  {
    var steps := Ask(0, path, "", now) + tail;
    var s1 := Do(l, s, Lookup(0, path, "", now));
    t := Do(l, s1, Call(0, now));
    AskLeaves(l, s, path, n, now);
    LookupHolds(l, s, 0, path, "", now);
    hide Rich, Sane, NewBucket;
    assert steps[0] == Lookup(0, path, "", now) && steps[1..] == [Call(0, now)] + tail && steps[1..][1..] == tail;
    hide TierOf, Key, WellMade, Level, FiledBucket, Do;
    assert GrantOf(l, s, steps[0], path, "") == 0;
    assert GrantOf(l, s1, Call(0, now), path, "") == 1;
  }

  lemma {:induction false} AskTimesAt(path: string, n: nat, now: real)
    ensures AllAt(AskTimes(n, path, now), now)
  {
    if n > 0 {
      AskTimesAt(path, n - 1, now);
    }
  }

  lemma AskTimesMore(path: string, n: nat, now: real, tail: seq<Step>)
    requires n >= 1
    ensures AskTimes(n, path, now) + tail == Ask(0, path, "", now) + (AskTimes(n - 1, path, now) + tail)
  {
  }

  lemma {:induction false} AskTimesGrants(l: Limits, s: Limiter, path: string, n: nat, now: real, tail: seq<Step>)
      returns (t: Limiter)
    requires Sane(l) && Rich(l, s, path, n, now)
    ensures Rich(l, t, path, 0, now) && t.judged == s.judged && if n == 0 then t == s else Key(l, path, "") in t.filed
    ensures AllowedOf(l, s, AskTimes(n, path, now) + tail, path, "") == n + AllowedOf(l, t, tail, path, "")
    decreases n
  {
    hide Rich, Key, AllowedOf, Sane, Ask;
    if n == 0 {
      t := s;
      assert AskTimes(0, path, now) + tail == tail;
    } else {
      var m := AskGrants(l, s, path, n, now, AskTimes(n - 1, path, now) + tail);
      AskTimesMore(path, n, now, tail);
      hide AskTimes;
      t := AskTimesGrants(l, m, path, n - 1, now, tail);
    }
  }

  lemma AskThenJudge(path: string, key: string, now: real)
    requires now >= 0.0
    ensures InTime(Ask(0, path, "", 0.0) + [Judge(key, now)], 0.0)
  {
    var steps := Ask(0, path, "", 0.0) + [Judge(key, now)];
    assert steps[1..] == [Call(0, 0.0), Judge(key, now)] && steps[1..][1..] == [Judge(key, now)];
    assert InTime([], now);
    assert [Judge(key, now)][1..] == [] && InTime([Judge(key, now)], 0.0);
    assert InTime(steps[1..], 0.0);
  }

  /** A late deletion gives a second burst with every tier covered: a client's bucket is judged
      idle, the client spends it, the key is deleted, and the client spends the new one, twice
      its burst at one moment. */
  lemma LateDropDoubles(l: Limits, path: string, now: real) returns (before: seq<Step>, window: seq<Step>)
    requires Sane(l) && Covers(TierOf(l, path)) && TierOf(l, path).burst >= 1 && now > IDLE_LIMIT
    ensures InTime(before, 0.0) && AllAt(window, now) && forall i :: 0 <= i < |before| ==> before[i].now <= now
    ensures AllowedOf(l, AfterSteps(l, EMPTY, before), window, path, "") == 2 * TierOf(l, path).burst
  {
    var burst, key := TierOf(l, path).burst, Key(l, path, "");
    before := Ask(0, path, "", 0.0) + [Judge(key, now)];
    var s := JudgedFull(l, path, now);
    window := AskTimes(burst, path, now) + ([Drop(key, now)] + AskTimes(burst, path, now));
    AskTimesAt(path, burst, now);
    AskThenJudge(path, key, now);
    hide TierOf, Key, Rich, AllowedOf, Sane, Covers, AfterSteps, AskTimes;
    var t := AskTimesGrants(l, s, path, burst, now, [Drop(key, now)] + AskTimes(burst, path, now));
    DropGrants(l, t, path, burst, now);
  }

  function AfterSteps(l: Limits, s: Limiter, steps: seq<Step>): Limiter
    decreases |steps|
  {
    if steps == [] then s else AfterSteps(l, Do(l, s, steps[0]), steps[1..])
  }

  lemma JudgedFull(l: Limits, path: string, now: real) returns (s: Limiter)
    requires Sane(l) && Covers(TierOf(l, path)) && TierOf(l, path).burst >= 1 && now > IDLE_LIMIT
    ensures s == AfterSteps(l, EMPTY, Ask(0, path, "", 0.0) + [Judge(Key(l, path, ""), now)])
    ensures Rich(l, s, path, TierOf(l, path).burst, now) && Key(l, path, "") in s.filed && Key(l, path, "") in s.judged
  {
    var key := Key(l, path, "");
    EmptyIsLinked(l, 0.0);
    NewLevel(TierOf(l, path), 0.0, 0.0);
    LookupHolds(l, EMPTY, 0, path, "", 0.0);
    AskSpends(l, EMPTY, path, TierOf(l, path).burst);
    var s1 := Do(l, EMPTY, Lookup(0, path, "", 0.0));
    var s2 := Do(l, s1, Call(0, 0.0));
    StepKeepsWellMade(l, EMPTY, Lookup(0, path, "", 0.0), 0.0);
    StepKeepsWellMade(l, s1, Call(0, 0.0), 0.0);
    StepKeepsWellMade(l, s2, Judge(key, now), 0.0);
    FiledIsOk(l, s2, path, "", 0.0);
    FullAfterIdle(TierOf(l, path));
    s := Do(l, s2, Judge(key, now));
    assert key in s2.filed && IsOf(TierOf(l, path), FiledBucket(l, s2, path, "", 0.0));
    hide TierOf, Key, WellMade, Level, NewBucket, Linked, Good;
    var steps := Ask(0, path, "", 0.0) + [Judge(key, now)];
    assert steps[1..] == [Call(0, 0.0), Judge(key, now)] && steps[1..][1..] == [Judge(key, now)];
    assert AfterSteps(l, s2, [Judge(key, now)]) == AfterSteps(l, s, []);
  }

  lemma DropGrants(l: Limits, t: Limiter, path: string, burst: nat, now: real)
    requires Sane(l) && Rich(l, t, path, 0, now) && burst == TierOf(l, path).burst
    requires Key(l, path, "") in t.filed && Key(l, path, "") in t.judged
    ensures AllowedOf(l, t, [Drop(Key(l, path, ""), now)] + AskTimes(burst, path, now), path, "") == burst
  {
    var drop := Drop(Key(l, path, ""), now);
    var t' := Do(l, t, drop);
    TierIsSane(l, path);
    NewLevel(TierOf(l, path), now, now);
    StepKeepsWellMade(l, t, drop, now);
    assert Rich(l, t', path, burst, now);
    hide TierOf, Key, Rich, Level;
    assert ([drop] + AskTimes(burst, path, now))[1..] == AskTimes(burst, path, now);
    var u := AskTimesGrants(l, t', path, burst, now, []);
    assert AskTimes(burst, path, now) + [] == AskTimes(burst, path, now);
  }
}
