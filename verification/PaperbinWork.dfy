/** The paperbin operations as the code performs them, one at a time, on the refs and
    rows of one repository: recording a fetch's pruned branches
    (internal/gitops/worker.go), ReleaseArchivalRef and the branch expiry loop
    (internal/gitops/cleanup_worker.go), and the restore and permanent-delete handlers
    (internal/handlers/repository_handler.go).  Paperbin interleaves their steps.
  */
module PaperbinWork {
  import opened Wrappers
  import opened Paperbin

  // ------------------------------------------------------------------ what is recorded

  predicate EndsWith(s: string, t: string) {
    |t| <= |s| && s[|s| - |t|..] == t
  }

  predicate IsHexDigit(c: char) {
    '0' <= c <= '9' || 'a' <= c <= 'f'
  }

  predicate ValidSha(s: Sha) {
    (|s| == 40 || |s| == 64) && forall i :: 0 <= i < |s| ==> IsHexDigit(s[i])
  }

  // A pruned branch worth a record; validNames are the names that pass the ref-format check.
  predicate Archivable(before: Refs, after: Refs, validNames: set<string>, ref: string) {
    && Pruned(before, after, ref)
    && BranchName(ref) != "HEAD" && !EndsWith(BranchName(ref), "/HEAD")
    && BranchName(ref) in validNames && ValidSha(before[ref])
  }

  // The pruned branches a fetch leaves behind that git could protect.
  ghost function Worth(before: Refs, after: Refs, validNames: set<string>, created: set<string>): set<string> {
    set ref | ref in before && Archivable(before, after, validNames, ref) && ref in created
  }

  lemma WorthHas(before: Refs, after: Refs, validNames: set<string>, created: set<string>, ref: string)
    requires ref in before
    ensures ref in Worth(before, after, validNames, created) <==>
              Archivable(before, after, validNames, ref) && ref in created
  {
  }

  /** The branch a ref is recorded under.  A local branch whose own name begins like a
      remote-tracking ref loses that part too. */
  ghost predicate Names(ref: string, n: string) {
    || ref == "refs/remotes/origin/" + n
    || (ref == "refs/heads/" + n && !("refs/remotes/origin/" <= n))
    || ref == "refs/heads/refs/remotes/origin/" + n
  }

  ghost predicate FullHex(s: Sha) {
    (|s| == 40 || |s| == 64) && forall i :: 0 <= i < |s| ==> s[i] in "0123456789abcdef"
  }

  // What calls for a record: the branch is gone, it is no HEAD, and git and the validator take it.
  ghost predicate CallsForRecord(before: Refs, after: Refs, validNames: set<string>, created: set<string>, ref: string,
                                 n: string) {
    && ref in before && ref !in after && ref in created
    && n in validNames && n != "HEAD" && !(exists m :: n == m + "/HEAD") && FullHex(before[ref])
  }

  lemma HexDigits(c: char)
    ensures IsHexDigit(c) <==> c in "0123456789abcdef"
  {
    assert "0123456789abcdef"[0] == '0' && "0123456789abcdef"[1] == '1' && "0123456789abcdef"[2] == '2'
        && "0123456789abcdef"[3] == '3' && "0123456789abcdef"[4] == '4' && "0123456789abcdef"[5] == '5'
        && "0123456789abcdef"[6] == '6' && "0123456789abcdef"[7] == '7' && "0123456789abcdef"[8] == '8'
        && "0123456789abcdef"[9] == '9' && "0123456789abcdef"[10] == 'a' && "0123456789abcdef"[11] == 'b'
        && "0123456789abcdef"[12] == 'c' && "0123456789abcdef"[13] == 'd' && "0123456789abcdef"[14] == 'e'
        && "0123456789abcdef"[15] == 'f';
  }

  lemma ShaIsFullHex(s: Sha)
    ensures ValidSha(s) <==> FullHex(s)
  {
    forall i | 0 <= i < |s| ensures IsHexDigit(s[i]) <==> s[i] in "0123456789abcdef" {
      HexDigits(s[i]);
    }
    hide IsHexDigit;
  }

  lemma SuffixHead(n: string)
    ensures EndsWith(n, "/HEAD") <==> exists m :: n == m + "/HEAD"
  {
    if EndsWith(n, "/HEAD") {
      assert n == n[..|n| - 5] + "/HEAD";
    }
  }

  // The three kinds of ref that name a branch, and no other ref does.
  lemma NamedExactly(ref: string)
    ensures IsBranchRef(ref) <==> exists n :: Names(ref, n)
    ensures forall n :: Names(ref, n) ==> n == BranchName(ref)
  {
    forall n | Names(ref, n) ensures IsBranchRef(ref) && n == BranchName(ref) {
      NameIsTrimmed(ref, n);
    }
    if IsBranchRef(ref) {
      TrimmedIsName(ref);
    }
    hide Names, IsBranchRef, BranchName;
  }

  lemma NameIsTrimmed(ref: string, n: string)
    requires Names(ref, n)
    ensures IsBranchRef(ref) && n == BranchName(ref)
  {
    TrimmedOnce(HEADS_PREFIX, n);
    TrimmedOnce(REMOTE_PREFIX, n);
    TrimmedOnce(HEADS_PREFIX, REMOTE_PREFIX + n);
    assert (REMOTE_PREFIX + n)[5] == 'r' && HEADS_PREFIX[5] == 'h';
    assert HEADS_PREFIX + (REMOTE_PREFIX + n) == "refs/heads/refs/remotes/origin/" + n;
    hide TrimPrefix;
    assert !(HEADS_PREFIX <= REMOTE_PREFIX + n);
    NotTrimmed(HEADS_PREFIX, REMOTE_PREFIX + n);
    NotTrimmed(REMOTE_PREFIX, n);
  }

  lemma TrimmedOnce(prefix: string, n: string)
    ensures prefix <= prefix + n && TrimPrefix(prefix + n, prefix) == n
  {
  }

  lemma TrimmedIs(prefix: string, s: string)
    ensures s == if prefix <= s then prefix + TrimPrefix(s, prefix) else TrimPrefix(s, prefix)
  {
  }

  lemma NotTrimmed(prefix: string, s: string)
    ensures !(prefix <= s) ==> TrimPrefix(s, prefix) == s
  {
  }

  lemma TrimmedIsName(ref: string)
    requires IsBranchRef(ref)
    ensures Names(ref, BranchName(ref))
  {
    TrimmedIs(HEADS_PREFIX, ref);
    TrimmedIs(REMOTE_PREFIX, TrimPrefix(ref, HEADS_PREFIX));
    assert HEADS_PREFIX + (REMOTE_PREFIX + BranchName(ref)) == "refs/heads/refs/remotes/origin/" + BranchName(ref);
    hide TrimPrefix;
  }

  /** A pruned branch is recorded exactly when it calls for it. */
  lemma WorthExactly(before: Refs, after: Refs, validNames: set<string>, created: set<string>, ref: string)
    ensures forall n :: Names(ref, n) ==>
              (ref in Worth(before, after, validNames, created)
               <==> CallsForRecord(before, after, validNames, created, ref, n))
    ensures ref in Worth(before, after, validNames, created) ==> exists n :: Names(ref, n)
  {
    NamedExactly(ref);
    if ref in before {
      ShaIsFullHex(before[ref]);
    }
    SuffixHead(BranchName(ref));
    hide Names, IsBranchRef, BranchName, ValidSha, FullHex, EndsWith;
  }

  /** The batch holds a row of its own for every pruned branch that calls for one, with the
      branch's name, its commit and its own event ref, and no other row. */
  lemma BatchExactly(before: Refs, after: Refs, validNames: set<string>, created: set<string>, draw: map<string, Id>)
    requires before.Keys <= draw.Keys && Injective(draw)
    ensures var batch := Batch(before, Worth(before, after, validNames, created), draw);
            && (forall ref, n :: Names(ref, n) && CallsForRecord(before, after, validNames, created, ref, n) ==>
                  draw[ref] in batch && batch[draw[ref]] == Row(n, before[ref], "refs/paperbin/events/" + draw[ref]))
            && (forall id :: id in batch ==>
                  exists ref, n :: Names(ref, n) && CallsForRecord(before, after, validNames, created, ref, n)
                                   && draw[ref] == id)
  {
    var worth := Worth(before, after, validNames, created);
    var batch := Batch(before, worth, draw);
    forall ref, n | Names(ref, n) && CallsForRecord(before, after, validNames, created, ref, n)
      ensures draw[ref] in batch && batch[draw[ref]] == Row(n, before[ref], "refs/paperbin/events/" + draw[ref])
    {
      WorthExactly(before, after, validNames, created, ref);
      NamedExactly(ref);
      hide Worth, Names, BranchName;
    }
    forall id | id in batch
      ensures exists ref, n :: Names(ref, n) && CallsForRecord(before, after, validNames, created, ref, n)
                               && draw[ref] == id
    {
      var ref :| ref in worth && draw[ref] == id;
      WorthExactly(before, after, validNames, created, ref);
      hide Worth, Names, CallsForRecord;
    }
  }

  ghost predicate Injective(draw: map<string, Id>) {
    forall a, b :: a in draw && b in draw && draw[a] == draw[b] ==> a == b
  }

  // The records of the pruned refs in `names`, under the identifiers drawn for them.
  ghost function Batch(before: Refs, names: set<string>, draw: map<string, Id>): map<Id, Row>
    requires names <= before.Keys && names <= draw.Keys && Injective(draw)
  {
    map ref | ref in names :: draw[ref] := Row(BranchName(ref), before[ref], EventRef(draw[ref]))
  }

  ghost function EventRefs(ids: set<Id>): set<string> {
    set id | id in ids :: EventRef(id)
  }

  // The refs that protect those records.
  ghost function RefsOf(batch: map<Id, Row>): Refs {
    map ref | ref in EventRefs(batch.Keys) && ref[|EVENT_PREFIX|..] in batch :: batch[ref[|EVENT_PREFIX|..]].sha
  }

  lemma RefsOfHolds(batch: map<Id, Row>, id: Id)
    ensures EventRef(id) in RefsOf(batch) <==> id in batch
    ensures id in batch ==> RefsOf(batch)[EventRef(id)] == batch[id].sha
  {
    assert EventRef(id)[|EVENT_PREFIX|..] == id;
  }

  lemma RefsOfKeys(batch: map<Id, Row>, ref: string)
    requires ref in RefsOf(batch)
    ensures ref == EventRef(ref[|EVENT_PREFIX|..]) && ref[|EVENT_PREFIX|..] in batch
  {
  }

  lemma BatchGrows(before: Refs, names: set<string>, draw: map<string, Id>, ref: string)
    requires names + {ref} <= before.Keys && names + {ref} <= draw.Keys && Injective(draw)
    ensures Batch(before, names + {ref}, draw)
            == Batch(before, names, draw)[draw[ref] := Row(BranchName(ref), before[ref], EventRef(draw[ref]))]
  {
  }

  lemma RefsOfGrows(batch: map<Id, Row>, id: Id, row: Row)
    ensures RefsOf(batch[id := row]) == RefsOf(batch)[EventRef(id) := row.sha]
  {
    var more, more' := RefsOf(batch[id := row]), RefsOf(batch)[EventRef(id) := row.sha];
    forall ref | ref in more || ref in more' ensures SameAt(more, more', ref) {
      var k := ref[|EVENT_PREFIX|..];
      assert ref == EventRef(k) by {
        if ref in more { RefsOfKeys(batch[id := row], ref); } else if ref != EventRef(id) { RefsOfKeys(batch, ref); }
      }
      RefsOfHolds(batch, k);
      RefsOfHolds(batch[id := row], k);
      assert EventRef(id)[|EVENT_PREFIX|..] == id;
      hide RefsOf, EventRef;
    }
    SameEverywhere(more, more');
  }

  lemma SameEverywhere(refs: Refs, refs': Refs)
    requires forall ref :: ref in refs || ref in refs' ==> SameAt(refs, refs', ref)
    ensures refs == refs'
  {
    assert refs.Keys == refs'.Keys by {
      forall ref ensures ref in refs.Keys <==> ref in refs'.Keys {
        assert ref in refs || ref in refs' ==> SameAt(refs, refs', ref);
      }
    }
    forall ref | ref in refs ensures refs[ref] == refs'[ref] {
      assert SameAt(refs, refs', ref);
    }
  }

  ghost function Stuck(batch: map<Id, Row>, stuck: set<Id>): map<Id, Row> {
    map id | id in batch && id in stuck :: batch[id]
  }

  lemma NotAmong(ids: set<Id>, id: Id)
    ensures EventRef(id) in EventRefs(ids) <==> id in ids
  {
    if EventRef(id) in EventRefs(ids) {
      var k :| k in ids && EventRef(k) == EventRef(id);
      PrefixInjective(EVENT_PREFIX, k, id);
    }
  }

  // Dropping some of the refs just made leaves those of the rest.
  lemma RefsLeft(was: Refs, batch: map<Id, Row>, gone: set<Id>)
    requires forall id :: id in batch ==> EventRef(id) !in was
    requires gone <= batch.Keys
    ensures was + RefsOf(batch) - EventRefs(gone) == was + RefsOf(batch - gone)
  {
    var refs, refs' := was + RefsOf(batch) - EventRefs(gone), was + RefsOf(batch - gone);
    forall ref | ref in refs || ref in refs' ensures SameAt(refs, refs', ref) {
      RefLeft(was, batch, gone, ref);
    }
    SameEverywhere(refs, refs');
  }

  lemma RefLeft(was: Refs, batch: map<Id, Row>, gone: set<Id>, ref: string)
    requires forall id :: id in batch ==> EventRef(id) !in was
    requires gone <= batch.Keys
    ensures SameAt(was + RefsOf(batch) - EventRefs(gone), was + RefsOf(batch - gone), ref)
  {
    if EVENT_PREFIX <= ref {
      var id := ref[|EVENT_PREFIX|..];
      assert ref == EventRef(id);
      RefsOfHolds(batch, id);
      RefsOfHolds(batch - gone, id);
      NotAmong(gone, id);
    } else {
      assert forall id :: EVENT_PREFIX <= EventRef(id);
    }
    hide EventRef;
  }

  ghost predicate SameAt(refs: Refs, refs': Refs, ref: string) {
    (ref in refs <==> ref in refs') && (ref in refs ==> refs'[ref] == refs[ref])
  }

  // The pruned branches in `done` have their refs, on top of `was`, and their records.
  ghost predicate Archived(before: Refs, draw: map<string, Id>, done: set<string>, batch: map<Id, Row>, was: Refs,
                           refs: Refs)
    requires before.Keys <= draw.Keys && Injective(draw)
  {
    done <= before.Keys && batch == Batch(before, done, draw) && refs == was + RefsOf(batch)
  }

  // Identifiers drawn for an event are new to the database and to git.
  ghost predicate Fresh(draw: map<string, Id>, rows: map<Id, Row>, refs: Refs) {
    forall ref :: ref in draw ==> draw[ref] !in rows && EventRef(draw[ref]) !in refs
  }

  lemma ArchivedRows(before: Refs, draw: map<string, Id>, done: set<string>, batch: map<Id, Row>, was: Refs, refs: Refs,
                     rows: map<Id, Row>)
    requires before.Keys <= draw.Keys && Injective(draw) && Fresh(draw, rows, was)
    requires Archived(before, draw, done, batch, was, refs)
    ensures forall id :: id in batch ==>
              EventRef(id) !in was && id !in rows && RowOk(id, batch[id]) && Holds(refs, EventRef(id), batch[id].sha)
  {
    forall id | id in batch
      ensures EventRef(id) !in was && id !in rows && RowOk(id, batch[id]) && Holds(refs, EventRef(id), batch[id].sha)
    {
      RefsOfHolds(batch, id);
      hide RefsOf;
    }
  }

  // ------------------------------------------------------------------------ retention

  const DAY_NS: int := 24 * 3600 * 1_000_000_000

  function RetentionDays(configured: int): int {
    if configured > 0 then configured else 30
  }

  predicate Expired(configured: int, deletedAt: int, now: int) {
    now > deletedAt + Wrap64(RetentionDays(configured) * DAY_NS)
  }

  /** A branch is never purged before its retention has passed exactly when the product
      fits a time.Duration, that is up to 106751 days; no caller bounds the setting, and
      beyond that some branch goes early.  Up to there it is due at once when the days,
      thirty of them unless a positive number is set, are over. */
  lemma KeptForRetention(configured: int)
    ensures var days := if configured <= 0 then 30 else configured;
            && ((forall deletedAt: int, now: int :: Expired(configured, deletedAt, now) ==>
                  now > deletedAt + days * 86_400_000_000_000) <==> configured <= 106751)
            && (configured <= 106751 ==>
                  forall deletedAt: int, now: int :: Expired(configured, deletedAt, now) <==>
                      now > deletedAt + days * 86_400_000_000_000)
  {
    var days := RetentionDays(configured);
    if configured > 106751 {
      assert days * DAY_NS >= 0x8000_0000_0000_0000;
      assert Expired(configured, 0, days * DAY_NS);
    }
  }

  // ------------------------------------------------------------------------- the class

  datatype Fault = NoFault | CountFails | ResolveFails | DeleteFails

  datatype Outcome = NotFound | NotCloned | InvalidBranch | GitFailed | RowKept | Done

  predicate Releasable(r: Row) {
    "refs/" <= ArchivalRef(r) && ValidSha(r.sha)
  }

  // Why a release may have to report an error.
  predicate Blocked(rows: map<Id, Row>, refs: Refs, id: Id, r: Row, onDisk: bool, fault: Fault) {
    || !Releasable(r)
    || (HasLegacyRef(r) && fault.CountFails?)
    || (!(HasLegacyRef(r) && SharedLegacy(rows, id, r)) && onDisk
        && (fault.ResolveFails? || (Holds(refs, ArchivalRef(r), r.sha) && fault.DeleteFails?)))
  }

  // The row was released, and if the ref was its own to give up it no longer holds the commit.
  ghost predicate LetGo(rows: map<Id, Row>, refs: Refs, id: Id, r: Row) {
    (HasLegacyRef(r) && SharedLegacy(rows, id, r)) || !Holds(refs, ArchivalRef(r), r.sha)
  }

  ghost predicate Shrunk(rows: map<Id, Row>, rows': map<Id, Row>) {
    forall id :: id in rows' ==> id in rows && rows'[id] == rows[id]
  }

  predicate Tried(usable: bool, configured: int, deletedAt: int, now: int) {
    usable && Expired(configured, deletedAt, now)
  }

  // Two rows share a ref only as legacy rows of one branch, and then neither gives it up.
  lemma ReleaseSpares(rows: map<Id, Row>, refs: Refs, id: Id, r: Row)
    requires RowOk(id, r) && forall k :: k in rows ==> RowOk(k, rows[k])
    ensures !LetGo(rows, refs, id, r) ==>
              forall other :: other in rows && other != id ==> ArchivalRef(rows[other]) != ArchivalRef(r)
  {
    forall other | other in rows && other != id
        && !LetGo(rows, refs, id, r) ensures ArchivalRef(rows[other]) != ArchivalRef(r) {
      SharedRefs(id, r, other, rows[other]);
    }
  }

  // A row with a ref of its own has lost it.
  ghost predicate NoEventRef(refs: Refs, r: Row) {
    HasLegacyRef(r) || !Holds(refs, ArchivalRef(r), r.sha)
  }

  lemma BranchIsNotArchival(rows: map<Id, Row>, branch: string)
    requires forall k :: k in rows ==> RowOk(k, rows[k])
    ensures forall k :: k in rows ==> ArchivalRef(rows[k]) != HEADS_PREFIX + branch
  {
    forall k | k in rows ensures ArchivalRef(rows[k]) != HEADS_PREFIX + branch {
      SpacesAreDisjoint(branch, "");
      SharedRefs(k, rows[k], if k == "" then "x" else "", Row("", "", ""));
    }
  }

  lemma ReleasableRow(id: Id, r: Row)
    requires RowOk(id, r)
    ensures Releasable(r) <==> ValidSha(r.sha)
  {
    SharedRefs(id, r, if id == "" then "x" else "", Row("", "", ""));
    hide ArchivalRef, ValidSha, RowOk, EventRef;
  }

  ghost predicate Fewer(refs: Refs, refs': Refs) {
    forall ref :: ref in refs' ==> Holds(refs, ref, refs'[ref])
  }

  lemma FewerRefs(refs: Refs, refs': Refs)
    requires Fewer(refs, refs')
    ensures forall r :: NoEventRef(refs, r) ==> NoEventRef(refs', r)
  {
    hide ArchivalRef;
  }

  lemma SameAtTrans(refs: Refs, refs': Refs, refs'': Refs)
    ensures forall ref :: SameAt(refs, refs', ref) && SameAt(refs', refs'', ref) ==> SameAt(refs, refs'', ref)
  {
  }

  class Mirror {
    var refs: Refs
    var rows: map<Id, Row>

    constructor(refs: Refs, rows: map<Id, Row>)
      ensures this.refs == refs && this.rows == rows
    {
      this.refs, this.rows := refs, rows;
    }

    ghost predicate Valid()
      reads this
    {
      forall id :: id in rows ==> RowOk(id, rows[id])
    }

    /** Prune detection after a fetch.  `created` are the refs whose archival ref git
        agrees to create, `stuck` the identifiers whose clean-up fails. */
    method RecordPruned(before: Refs, after: Refs, validNames: set<string>, draw: map<string, Id>,
                        created: set<string>, insertOk: bool, stuck: set<Id>) returns (batch: map<Id, Row>)
      requires Valid() && before.Keys <= draw.Keys && Injective(draw)
      requires Fresh(draw, rows, refs)
      modifies this
      ensures Valid()
      ensures batch == Batch(before, Worth(before, after, validNames, created), draw)
      ensures forall ref, n :: Names(ref, n) && CallsForRecord(before, after, validNames, created, ref, n) ==>
                draw[ref] in batch && batch[draw[ref]] == Row(n, before[ref], "refs/paperbin/events/" + draw[ref])
      ensures forall id :: id in batch ==>
                exists ref, n :: Names(ref, n) && CallsForRecord(before, after, validNames, created, ref, n)
                                 && draw[ref] == id
      ensures insertOk ==> rows == old(rows) + batch && refs == old(refs) + RefsOf(batch)
      ensures !insertOk ==> rows == old(rows) && refs == old(refs) + RefsOf(Stuck(batch, stuck))
    {
      ghost var recorded;
      batch, recorded := ArchivePruned(before, after, validNames, draw, created);
      ArchivedRows(before, draw, recorded, batch, old(refs), refs, rows);
      BatchExactly(before, after, validNames, created, draw);
      hide Names, CallsForRecord;
      hide RowOk, EventRef, Batch, Worth, RefsOf, Injective, Fresh, Holds, BranchName;
      Persist(batch, insertOk, stuck, old(refs));
    }

    // Insert the records, or take back what was prepared for them.
    method Persist(batch: map<Id, Row>, insertOk: bool, stuck: set<Id>, ghost was: Refs)
      requires Valid() && refs == was + RefsOf(batch)
      requires forall id :: id in batch ==>
                 EventRef(id) !in was && id !in rows && RowOk(id, batch[id]) && Holds(refs, EventRef(id), batch[id].sha)
      modifies this
      ensures Valid() && rows == (if insertOk then old(rows) + batch else old(rows))
      ensures refs == was + RefsOf(if insertOk then batch else Stuck(batch, stuck))
    {
      hide RowOk, EventRef, RefsOf;
      if insertOk {
        rows := rows + batch;
      } else {
        RefsLeft(was, batch, batch.Keys - stuck);
        assert batch - (batch.Keys - stuck) == Stuck(batch, stuck);
        DropOrphans(batch, stuck);
      }
    }

    // One archival ref per pruned branch, and the batch of records to insert.
    method ArchivePruned(before: Refs, after: Refs, validNames: set<string>, draw: map<string, Id>,
                         created: set<string>)
      returns (batch: map<Id, Row>, ghost recorded: set<string>)
      requires before.Keys <= draw.Keys && Injective(draw)
      modifies this`refs
      ensures recorded == Worth(before, after, validNames, created)
      ensures Archived(before, draw, recorded, batch, old(refs), refs)
    {
      recorded, batch := {}, map[];
      var todo := before.Keys;
      ghost var worth := Worth(before, after, validNames, created);
      assert worth <= before.Keys;
      assert Archived(before, draw, recorded, batch, refs, refs);
      hide Archivable, Archived, Injective, Worth;
      while todo != {}
        invariant todo <= before.Keys && recorded == worth - todo
        invariant Archived(before, draw, recorded, batch, old(refs), refs)
      {
        var ref :| ref in todo;
        WorthHas(before, after, validNames, created, ref);
        TakeOne(worth, todo, ref);
        if Archivable(before, after, validNames, ref) && ref in created {
          batch := ArchiveOne(before, draw, ref, batch, recorded, old(refs));
          recorded := recorded + {ref};
        }
        todo := todo - {ref};
      }
    }

    method ArchiveOne(before: Refs, draw: map<string, Id>, ref: string, batch: map<Id, Row>, ghost done: set<string>,
                      ghost was: Refs)
      returns (batch': map<Id, Row>)
      requires before.Keys <= draw.Keys && Injective(draw) && ref in before
      requires Archived(before, draw, done, batch, was, refs)
      modifies this`refs
      ensures Archived(before, draw, done + {ref}, batch', was, refs)
    {
      hide EventRef, BranchName, RefsOf, Batch;
      var id := draw[ref];
      var row := Row(BranchName(ref), before[ref], EventRef(id));
      BatchGrows(before, done, draw, ref);
      RefsOfGrows(batch, id, row);
      refs := refs[EventRef(id) := row.sha];
      batch' := batch[id := row];
    }

    // The insert failed: drop the refs made for it, whatever can be dropped.
    method DropOrphans(batch: map<Id, Row>, stuck: set<Id>)
      requires forall id :: id in batch ==> Holds(refs, EventRef(id), batch[id].sha)
      modifies this`refs
      ensures refs == old(refs) - EventRefs(batch.Keys - stuck)
    {
      var todo := batch.Keys;
      while todo != {}
        invariant todo <= batch.Keys
        invariant refs == old(refs) - EventRefs(batch.Keys - todo - stuck)
      {
        var id :| id in todo;
        ghost var gone := batch.Keys - todo - stuck;
        todo := todo - {id};
        if id !in stuck {
          NotAmong(gone, id);
          refs := CompareAndDelete(refs, EventRef(id), batch[id].sha);
          assert batch.Keys - todo - stuck == gone + {id};
        } else {
          assert batch.Keys - todo - stuck == gone;
        }
        hide EventRef;
      }
      assert batch.Keys - todo - stuck == batch.Keys - stuck;
    }

    /** Gives up the ref of one row, unless it still protects another: an error leaves
        everything as it was, success leaves no ref of this row's at its commit. */
    method ReleaseArchivalRef(id: Id, r: Row, onDisk: bool, fault: Fault) returns (ok: bool)
      requires Valid() && RowOk(id, r)
      modifies this`refs
      ensures ok <==> !Blocked(rows, old(refs), id, r, onDisk, fault)
      ensures refs == if ok && onDisk && !LetGo(rows, old(refs), id, r) then old(refs) - {ArchivalRef(r)} else old(refs)
      ensures ok && onDisk ==> LetGo(rows, refs, id, r)
      ensures forall other :: other in rows && other != id ==> SameAt(old(refs), refs, ArchivalRef(rows[other]))
    {
      ReleaseSpares(rows, refs, id, r);
      hide ValidSha, SharedLegacy;
      var ref := ArchivalRef(r);
      if !("refs/" <= ref) || !ValidSha(r.sha) {
        return false;
      }
      if HasLegacyRef(r) {
        if fault.CountFails? {
          return false;
        }
        if SharedLegacy(rows, id, r) {
          return true;
        }
      }
      if !onDisk {
        return true;
      }
      if fault.ResolveFails? {
        return false;
      }
      if ref !in refs || refs[ref] != r.sha {
        return true;
      }
      if fault.DeleteFails? {
        return false;
      }
      refs := CompareAndDelete(refs, ref, r.sha);
      return true;
    }

    /** The expiry loop over every row of a repository whose record loads and whose path
        lies in the storage tree (`usable`). */
    method ExpireBranches(now: int, configured: int, deletedAt: map<Id, int>, usable: bool, onDisk: bool,
                          faults: map<Id, Fault>, undeletable: set<Id>)
      requires Valid() && rows.Keys <= deletedAt.Keys && rows.Keys <= faults.Keys
      modifies this
      ensures Valid() && Shrunk(old(rows), rows)
      ensures forall id :: id in old(rows) && id !in rows ==> usable && Expired(configured, deletedAt[id], now)
      ensures forall id :: id in old(rows) && usable && Expired(configured, deletedAt[id], now) && id !in undeletable
                        && Releasable(old(rows)[id]) && faults[id].NoFault?
                        ==> id !in rows
      ensures onDisk ==> forall id :: id in old(rows) && id !in rows ==> NoEventRef(refs, old(rows)[id])
      ensures forall id :: id in rows && !(Tried(usable, configured, deletedAt[id], now) && id in undeletable)
                        ==> SameAt(old(refs), refs, ArchivalRef(rows[id]))
    {
      var todo := rows.Keys;
      while todo != {}
        invariant todo <= rows.Keys && Shrunk(old(rows), rows) && Valid()
        invariant forall id :: id in old(rows) && id !in rows ==> Tried(usable, configured, deletedAt[id], now)
        invariant forall id :: id in rows && id !in todo && id !in undeletable
                               && Tried(usable, configured, deletedAt[id], now)
                            ==> !Releasable(rows[id]) || !faults[id].NoFault?
        invariant onDisk ==> forall id :: id in old(rows) && id !in rows ==> NoEventRef(refs, old(rows)[id])
        invariant forall id :: id in rows && !(Tried(usable, configured, deletedAt[id], now) && id in undeletable)
                            ==> SameAt(old(refs), refs, ArchivalRef(rows[id]))
      {
        hide Releasable, Tried;
        var id :| id in todo;
        todo := todo - {id};
        if Tried(usable, configured, deletedAt[id], now) {
          hide ArchivalRef, RowOk, SameAt, NoEventRef;
          ghost var refs0 := refs;
          ExpireOne(id, onDisk, faults[id], id !in undeletable);
          SameAtTrans(old(refs), refs0, refs);
          FewerRefs(refs0, refs);
        }
      }
    }

    method ExpireOne(id: Id, onDisk: bool, fault: Fault, deletable: bool)
      requires Valid() && id in rows
      modifies this
      ensures Valid() && (rows == old(rows) || rows == old(rows) - {id})
      ensures id in rows && deletable ==> !Releasable(rows[id]) || !fault.NoFault?
      ensures id !in rows ==> deletable
      ensures Fewer(old(refs), refs) && (id !in rows && onDisk ==> NoEventRef(refs, old(rows)[id]))
      ensures forall k :: k in rows && (k != id || deletable) ==> SameAt(old(refs), refs, ArchivalRef(rows[k]))
    {
      hide ValidSha, SharedLegacy, ArchivalRef, RowOk;
      var ok := ReleaseArchivalRef(id, rows[id], onDisk, fault);
      if ok && deletable {
        rows := rows - {id};
      }
    }

    /** Brings the branch back, then lets go of its archival ref as best it can. */
    method RestoreBranch(id: Id, live: bool, validNames: set<string>, branchMade: bool, onDisk: bool, fault: Fault,
                         rowDeleted: bool)
      returns (o: Outcome)
      requires Valid()
      modifies this
      ensures Valid() && (o.NotFound? <==> id !in old(rows))
      ensures o.Done? || o.RowKept? <==>
                id in old(rows) && live && old(rows)[id].branch in validNames && ValidSha(old(rows)[id].sha)
                    && branchMade
      ensures o.Done? || o.RowKept? ==> (o.Done? <==> rowDeleted)
      ensures !o.NotFound? ==> (o.NotCloned? <==> !live)
      ensures o.GitFailed? <==> id in old(rows) && live && old(rows)[id].branch in validNames
                                && ValidSha(old(rows)[id].sha) && !branchMade
      ensures o.Done? ==> rows == old(rows) - {id}
      ensures !o.Done? ==> rows == old(rows)
      ensures o.Done? || o.RowKept? ==> Holds(refs, HEADS_PREFIX + old(rows)[id].branch, old(rows)[id].sha)
      ensures o.Done? && onDisk && fault.NoFault? ==> LetGo(old(rows), refs, id, old(rows)[id])
      ensures forall other :: other in rows && other != id ==> SameAt(old(refs), refs, ArchivalRef(rows[other]))
      ensures !o.Done? && !o.RowKept? ==> refs == old(refs)
      ensures o.Done? || o.RowKept? ==>
                forall ref :: ref != HEADS_PREFIX + old(rows)[id].branch && ref != ArchivalRef(old(rows)[id]) ==>
                    SameAt(old(refs), refs, ref)
    {
      if id !in rows {
        return NotFound;
      }
      var r := rows[id];
      if !live {
        return NotCloned;
      }
      if r.branch !in validNames || !ValidSha(r.sha) {
        return InvalidBranch;
      }
      if !branchMade {
        return GitFailed;
      }
      BranchIsNotArchival(rows, r.branch);
      refs := refs[HEADS_PREFIX + r.branch := r.sha];
      var ok := ReleaseArchivalRef(id, r, onDisk, fault);
      ReleasableRow(id, r);
      hide ArchivalRef, RowOk, ValidSha, LetGo;
      if !rowDeleted {
        return RowKept;
      }
      rows := rows - {id};
      return Done;
    }

    /** Deletes a record for good; with the repository gone there is no ref to release. */
    method PermanentDeleteBranch(id: Id, live: bool, onDisk: bool, fault: Fault, rowDeleted: bool) returns (o: Outcome)
      requires Valid()
      modifies this
      ensures Valid() && (o.NotFound? <==> id !in old(rows))
      ensures rows == if o.Done? then old(rows) - {id} else old(rows)
      ensures o.Done? || o.RowKept? <==>
                id in old(rows) && !(live && Blocked(old(rows), old(refs), id, old(rows)[id], onDisk, fault))
      ensures o.Done? || o.RowKept? ==> (o.Done? <==> rowDeleted)
      ensures !o.Done? && !o.RowKept? && !o.NotFound? ==> o.GitFailed?
      ensures o.GitFailed? || o.NotFound? || !live ==> refs == old(refs)
      ensures o.Done? && live && onDisk ==> LetGo(old(rows), refs, id, old(rows)[id])
      ensures forall other :: other in rows && other != id ==> SameAt(old(refs), refs, ArchivalRef(rows[other]))
    {
      if id !in rows {
        return NotFound;
      }
      if live {
        var ok := ReleaseArchivalRef(id, rows[id], onDisk, fault);
        if !ok {
          return GitFailed;
        }
      }
      hide ArchivalRef, RowOk, LetGo, Blocked;
      if !rowDeleted {
        return RowKept;
      }
      rows := rows - {id};
      return Done;
    }
  }
  // ------------------------------------------------------------ a release, in the machine

  // The refs ReleaseArchivalRef leaves.
  ghost function RefsAfter(rows: map<Id, Row>, refs: Refs, id: Id, r: Row, onDisk: bool, fault: Fault): Refs {
    if !Blocked(rows, refs, id, r, onDisk, fault) && onDisk && !LetGo(rows, refs, id, r) then refs - {ArchivalRef(r)}
    else refs
  }

  lemma ThenStep(s: Repo, log: seq<Step>, m: Repo, step: Step)
    requires Run(s, log, m) && Guard(m, step)
    ensures Run(s, log + [step], Do(m, step))
  {
    OneStep(m, step);
    RunConcat(s, log, m, [step], Do(m, step));
    hide Guard, Do;
  }

  lemma RefsAfterCases(rows: map<Id, Row>, refs: Refs, id: Id, r: Row, onDisk: bool, fault: Fault)
    ensures var early := !Releasable(r) || (HasLegacyRef(r) && fault.CountFails?);
            var asks := !early && !(HasLegacyRef(r) && SharedLegacy(rows, id, r)) && onDisk;
            var held := Holds(refs, ArchivalRef(r), r.sha);
            var fails := fault.ResolveFails? || (held && fault.DeleteFails?);
            && (Blocked(rows, refs, id, r, onDisk, fault) <==> early || (asks && fails))
            && RefsAfter(rows, refs, id, r, onDisk, fault)
               == if asks && held && !fails then refs - {ArchivalRef(r)} else refs
  {
    hide Releasable, SharedLegacy, ArchivalRef;
  }

  lemma CheckingSteps(m: Repo, p: nat)
    requires At(m, p, Checking)
    ensures Guard(m, FailRelease(p)) && Guard(m, SkipRelease(p)) && Guard(m, Check(p))
    ensures var x := m.releases[p];
            && Do(m, FailRelease(p))
               == m.(releases := if x.kind.Restore? then Move(m, p, Dropping) else m.releases - {p})
            && Do(m, SkipRelease(p)) == m.(releases := Move(m, p, Dropping))
            && Do(m, Check(p)) == m.(releases := Move(m, p, if HasLegacyRef(x.row) && SharedLegacy(m.rows, x.id, x.row)
                                                           then Dropping else Resolving))
  {
    hide SharedLegacy;
  }

  // The steps of one release that has been begun, up to its row or its failure.
  lemma ReleaseRun(s: Repo, log: seq<Step>, m: Repo, p: nat, onDisk: bool, fault: Fault)
      returns (steps: seq<Step>, t: Repo)
    requires Run(s, log, m) && At(m, p, Checking)
    ensures Run(s, steps, t)
    ensures var x := m.releases[p];
            && t.refs == RefsAfter(m.rows, m.refs, x.id, x.row, onDisk, fault)
            && t == m.(refs := t.refs, releases := t.releases)
            && t.releases == if Blocked(m.rows, m.refs, x.id, x.row, onDisk, fault) && !x.kind.Restore?
                             then m.releases - {p} else Move(m, p, Dropping)
  {
    var x := m.releases[p];
    RefsAfterCases(m.rows, m.refs, x.id, x.row, onDisk, fault);
    CheckingSteps(m, p);
    var shared := HasLegacyRef(x.row) && SharedLegacy(m.rows, x.id, x.row);
    hide Run, Do, Guard, Releasable, SharedLegacy, ArchivalRef, RefsAfter, Blocked, LetGo;
    if !Releasable(x.row) || (HasLegacyRef(x.row) && fault.CountFails?) {
      ThenStep(s, log, m, FailRelease(p));
      steps, t := log + [FailRelease(p)], Do(m, FailRelease(p));
    } else if !onDisk && !shared {
      ThenStep(s, log, m, SkipRelease(p));
      steps, t := log + [SkipRelease(p)], Do(m, SkipRelease(p));
    } else {
      ThenStep(s, log, m, Check(p));
      steps, t := log + [Check(p)], Do(m, Check(p));
      if !shared {
        steps, t := ResolveRun(s, steps, t, p, fault);
        assert m.releases[p := x.(stage := Resolving)] - {p} == m.releases - {p};
      }
    }
  }

  lemma ResolveRun(s: Repo, log: seq<Step>, m: Repo, p: nat, fault: Fault) returns (steps: seq<Step>, t: Repo)
    requires Run(s, log, m) && At(m, p, Resolving)
    ensures Run(s, steps, t)
    ensures var x := m.releases[p];
            var held := Holds(m.refs, ArchivalRef(x.row), x.row.sha);
            var fails := fault.ResolveFails? || (held && fault.DeleteFails?);
            && t == m.(refs := if held && !fails then m.refs - {ArchivalRef(x.row)} else m.refs, releases := t.releases)
            && t.releases == if fails && !x.kind.Restore? then m.releases - {p} else Move(m, p, Dropping)
  {
    hide Run, ArchivalRef;
    if fault.ResolveFails? {
      ThenStep(s, log, m, FailRelease(p));
      steps, t := log + [FailRelease(p)], Do(m, FailRelease(p));
      return;
    }
    ThenStep(s, log, m, Resolve(p));
    steps, t := log + [Resolve(p)], Do(m, Resolve(p));
    if t.releases[p].stage.Deleting? {
      var last := if fault.DeleteFails? then FailRelease(p) else DeleteRef(p);
      ThenStep(s, steps, t, last);
      steps, t := steps + [last], Do(t, last);
    }
  }

  /** What one expiry or permanent delete of a row leaves is what the machine's steps leave: the
      row stays exactly if the release is blocked. */
  lemma ReleaseIsARun(s: Repo, p: nat, id: Id, kind: Kind, onDisk: bool, fault: Fault)
      returns (steps: seq<Step>, t: Repo)
    requires p !in s.releases && id in s.rows && !kind.Restore?
    ensures Run(s, steps, t)
    ensures var r := s.rows[id];
            t == if Blocked(s.rows, s.refs, id, r, onDisk, fault) then s
                 else s.(rows := s.rows - {id}, refs := RefsAfter(s.rows, s.refs, id, r, onDisk, fault))
  {
    var begun := Release(id, s.rows[id], kind, Checking);
    var m := s.(releases := s.releases[p := begun]);
    assert Do(s, Begin(p, id, kind)) == m;
    OneStep(s, Begin(p, id, kind));
    hide Run, Blocked, RefsAfter, Do;
    steps, t := ReleaseRun(s, [Begin(p, id, kind)], m, p, onDisk, fault);
    assert m.releases - {p} == s.releases;
    if p in t.releases {
      steps, t := DropsRow(s, steps, t, p, s.releases);
    }
  }

  // The row goes, and with it the release.
  lemma DropsRow(s: Repo, log: seq<Step>, m: Repo, p: nat, others: map<nat, Release>)
      returns (steps: seq<Step>, t: Repo)
    requires Run(s, log, m) && At(m, p, Dropping) && m.releases - {p} == others
    ensures Run(s, steps, t) && t == m.(rows := m.rows - {m.releases[p].id}, releases := others)
  {
    ThenStep(s, log, m, DeleteRow(p));
    steps, t := log + [DeleteRow(p)], Do(m, DeleteRow(p));
    hide Run;
  }

  /** And so is what a restore leaves: the branch, the release as far as it goes, and no row. */
  lemma RestoreIsARun(s: Repo, p: nat, id: Id, onDisk: bool, fault: Fault) returns (steps: seq<Step>, t: Repo)
    requires p !in s.releases && id in s.rows
    ensures Run(s, steps, t)
    ensures var r := s.rows[id];
            t == s.(rows := s.rows - {id},
                    refs := RefsAfter(s.rows, s.refs[HEADS_PREFIX + r.branch := r.sha], id, r, onDisk, fault))
  {
    var r := s.rows[id];
    var m := s.(releases := s.releases[p := Release(id, r, Restore, Branching)]);
    assert Do(s, Begin(p, id, Restore)) == m;
    OneStep(s, Begin(p, id, Restore));
    var made := s.(refs := s.refs[HEADS_PREFIX + r.branch := r.sha],
                   releases := s.releases[p := Release(id, r, Restore, Checking)]);
    assert Do(m, MakeBranch(p)) == made;
    ThenStep(s, [Begin(p, id, Restore)], m, MakeBranch(p));
    hide Run, Blocked, RefsAfter, Do;
    steps, t := ReleaseRun(s, [Begin(p, id, Restore)] + [MakeBranch(p)], made, p, onDisk, fault);
    assert t.releases - {p} == s.releases;
    steps, t := DropsRow(s, steps, t, p, s.releases);
  }

  // ------------------------------------------------------------ recording, in the machine

  ghost function SetOf(xs: seq<string>): set<string> {
    set x | x in xs
  }

  ghost function ArchiveSteps(order: seq<string>, draw: map<string, Id>): seq<Step>
    requires SetOf(order) <= draw.Keys
  {
    if order == [] then [] else
      var ref := order[|order| - 1];
      assert ref in SetOf(order);
      ArchiveSteps(order[..|order| - 1], draw) + [Archive(draw[ref], ref)]
  }

  // Whatever order the pruned refs come in.
  ghost predicate MayRecord(s: Repo, order: seq<string>, draw: map<string, Id>) {
    && s.fetch.After? && SetOf(order) <= draw.Keys && Injective(draw) && Fresh(draw, s.rows, s.refs)
    && (forall ref :: ref in draw ==> draw[ref] !in s.used)
    && (forall i :: 0 <= i < |order| ==> Pruned(s.fetch.before, s.fetch.after, order[i]))
    && (forall i, j :: 0 <= i < j < |order| ==> order[i] != order[j])
  }

  // The state with a batch prepared: its refs made, its records still to be inserted.
  ghost function Prepared(s: Repo, batch: map<Id, Row>): Repo {
    s.(refs := s.refs + RefsOf(batch), pending := s.pending + batch, used := s.used + batch.Keys)
  }

  lemma PlusUpdate<K, V>(m: map<K, V>, n: map<K, V>, k: K, v: V)
    ensures (m + n)[k := v] == m + n[k := v]
    ensures m + map[] == m
  {
  }

  lemma ArchiveStep(m: Repo, id: Id, ref: string)
    requires m.fetch.After? && Pruned(m.fetch.before, m.fetch.after, ref) && id !in m.used && EventRef(id) !in m.refs
    ensures Guard(m, Archive(id, ref))
    ensures var row := ArchivedRow(m, id, ref);
            Do(m, Archive(id, ref)) == m.(refs := m.refs[EventRef(id) := row.sha], pending := m.pending[id := row],
                used := m.used + {id})
  {
    hide Pruned, EventRef, BranchName;
  }

  lemma PreparedGrows(s: Repo, batch: map<Id, Row>, id: Id, row: Row)
    ensures var m := Prepared(s, batch);
            Prepared(s, batch[id := row])
            == m.(refs := m.refs[EventRef(id) := row.sha], pending := m.pending[id := row], used := m.used + {id})
  {
    RefsOfGrows(batch, id, row);
    PlusUpdate(s.refs, RefsOf(batch), EventRef(id), row.sha);
    PlusUpdate(s.pending, batch, id, row);
    KeysGrow(s.used, batch, id, row);
    hide RefsOf, EventRef;
  }

  lemma KeysGrow<K, V>(used: set<K>, m: map<K, V>, k: K, v: V)
    ensures used + m[k := v].Keys == used + m.Keys + {k}
  {
  }

  lemma PreparedNext(s: Repo, batch: map<Id, Row>, ref: string, id: Id)
    requires s.fetch.After? && Pruned(s.fetch.before, s.fetch.after, ref)
    requires id !in batch && id !in s.used && EventRef(id) !in s.refs
    ensures Guard(Prepared(s, batch), Archive(id, ref))
    ensures Do(Prepared(s, batch), Archive(id, ref)) == Prepared(s, batch[id := ArchivedRow(s, id, ref)])
  {
    var m := Prepared(s, batch);
    RefsOfHolds(batch, id);
    assert m.fetch == s.fetch && id !in m.used && EventRef(id) !in m.refs;
    hide Prepared, RefsOf, EventRef, Do, Guard, Pruned, BranchName;
    ArchiveStep(m, id, ref);
    PreparedGrows(s, batch, id, ArchivedRow(s, id, ref));
  }

  lemma PreparedNothing(s: Repo)
    ensures Prepared(s, map[]) == s
  {
    assert RefsOf(map[]) == map[];
    PlusUpdate<string, Sha>(s.refs, map[], "", "");
    PlusUpdate<Id, Row>(s.pending, map[], "", Row("", "", ""));
  }

  lemma NewIdentifier(s: Repo, order: seq<string>, draw: map<string, Id>)
    requires MayRecord(s, order, draw) && order != []
    ensures var n := |order| - 1;
            MayRecord(s, order[..n], draw) && SetOf(order) == SetOf(order[..n]) + {order[n]}
            && order[n] !in SetOf(order[..n]) && order[n] in draw && Pruned(s.fetch.before, s.fetch.after, order[n])
            && draw[order[n]] !in s.used && EventRef(draw[order[n]]) !in s.refs
  {
    assert order[|order| - 1] in SetOf(order);
    hide Pruned;
  }

  lemma {:induction false} PrunedOnly(s: Repo, order: seq<string>, draw: map<string, Id>)
    requires MayRecord(s, order, draw)
    ensures SetOf(order) <= s.fetch.before.Keys
  {
    forall ref | ref in SetOf(order) ensures ref in s.fetch.before {
      var i :| 0 <= i < |order| && order[i] == ref;
      assert Pruned(s.fetch.before, s.fetch.after, order[i]);
    }
  }

  /** What RecordPruned leaves is what the machine's steps leave: an Archive step for each
      recorded ref, in any order, and then the insert (or its failure). */
  lemma {:induction false} RecordingIsARun(s: Repo, order: seq<string>, draw: map<string, Id>)
    requires MayRecord(s, order, draw)
    ensures SetOf(order) <= s.fetch.before.Keys
    ensures Run(s, ArchiveSteps(order, draw), Prepared(s, Batch(s.fetch.before, SetOf(order), draw)))
  {
    PrunedOnly(s, order, draw);
    if order == [] {
      assert Batch(s.fetch.before, SetOf(order), draw) == map[];
      PreparedNothing(s);
      hide Prepared;
    } else {
      var n := |order| - 1;
      NewIdentifier(s, order, draw);
      RecordingIsARun(s, order[..n], draw);
      LastArchived(s, order, draw);
    }
  }

  lemma LastArchived(s: Repo, order: seq<string>, draw: map<string, Id>)
    requires MayRecord(s, order, draw) && order != [] && SetOf(order) <= s.fetch.before.Keys
    requires SetOf(order[..|order| - 1]) <= SetOf(order)
    requires Run(s, ArchiveSteps(order[..|order| - 1], draw),
              Prepared(s, Batch(s.fetch.before, SetOf(order[..|order| - 1]), draw)))
    ensures order[|order| - 1] in draw
    ensures Run(s, ArchiveSteps(order[..|order| - 1], draw) + [Archive(draw[order[|order| - 1]], order[|order| - 1])],
                Prepared(s, Batch(s.fetch.before, SetOf(order), draw)))
  {
    var n := |order| - 1;
    var ref, before := order[n], s.fetch.before;
    NewIdentifier(s, order, draw);
    var id := draw[ref];
    var batch := Batch(before, SetOf(order[..n]), draw);
    assert id !in batch && s.fetch.After?;
    BatchGrows(before, SetOf(order[..n]), draw, ref);
    assert batch[id := ArchivedRow(s, id, ref)] == Batch(before, SetOf(order), draw);
    hide Batch, Prepared, RefsOf, Injective, MayRecord;
    PreparedNext(s, batch, ref, id);
    OneStep(Prepared(s, batch), Archive(id, ref));
    hide Guard, Do;
    RunConcat(s, ArchiveSteps(order[..n], draw), Prepared(s, batch), [Archive(id, ref)],
        Prepared(s, batch[id := ArchivedRow(s, id, ref)]));
  }

  // ------------------------------------------------------- after the archival refs are made

  lemma CleansOne(m: Repo, was: Refs, left: map<Id, Row>, id: Id)
    requires m.refs == was + RefsOf(left) && id in m.orphans && id in left && m.orphans[id] == left[id]
    requires forall k :: k in left ==> EventRef(k) !in was
    ensures Guard(m, CleanOrphan(id))
    ensures Do(m, CleanOrphan(id)) == m.(refs := was + RefsOf(left - {id}), orphans := m.orphans - {id})
  {
    RefsOfHolds(left, id);
    RefsLeft(was, left, {id});
    OneEventRef(id);
    assert left.Keys * {id} == {id};
    hide EventRef, RefsOf, EventRefs;
    CleanStep(m, id);
    assert CompareAndDelete(m.refs, EventRef(id), m.orphans[id].sha) == m.refs - {EventRef(id)};
    hide Do, Guard;
  }

  lemma OneEventRef(id: Id)
    ensures EventRefs({id}) == {EventRef(id)}
  {
  }

  lemma CleanStep(m: Repo, id: Id)
    requires id in m.orphans
    ensures Guard(m, CleanOrphan(id))
    ensures Do(m, CleanOrphan(id)) == m.(refs := CompareAndDelete(m.refs, EventRef(id), m.orphans[id].sha),
                                        orphans := m.orphans - {id})
  {
    hide EventRef;
  }

  // Each orphan's ref is dropped, or cannot be.
  lemma {:induction false} CleansUp(s: Repo, log: seq<Step>, m: Repo, was: Refs, left: map<Id, Row>, stuck: set<Id>)
      returns (steps: seq<Step>, t: Repo)
    requires Run(s, log, m) && m.refs == was + RefsOf(left)
    requires forall k :: k in left ==> EventRef(k) !in was
    requires forall k :: k in m.orphans ==> k in left && m.orphans[k] == left[k]
    ensures Run(s, steps, t)
    ensures t == m.(refs := was + RefsOf(left - (m.orphans.Keys - stuck)), orphans := map[])
    decreases |m.orphans|
  {
    hide Run, Guard, Do, EventRef, RefsOf;
    if m.orphans == map[] {
      steps, t := log, m;
      assert left - (m.orphans.Keys - stuck) == left;
    } else {
      var id :| id in m.orphans;
      var step := if id in stuck then LeaveOrphan(id) else CleanOrphan(id);
      var left' := if id in stuck then left else left - {id};
      if id in stuck {
        LeavesOne(m, id);
      } else {
        CleansOne(m, was, left, id);
      }
      ThenStep(s, log, m, step);
      assert left' - ((m.orphans - {id}).Keys - stuck) == left - (m.orphans.Keys - stuck);
      steps, t := CleansUp(s, log + [step], Do(m, step), was, left', stuck);
    }
  }

  lemma LeavesOne(m: Repo, id: Id)
    requires id in m.orphans
    ensures Guard(m, LeaveOrphan(id)) && Do(m, LeaveOrphan(id)) == m.(orphans := m.orphans - {id})
  {
  }

  // The state when a fetch has recorded what it pruned.
  ghost function Recorded(s: Repo, batch: map<Id, Row>, inserted: bool, stuck: set<Id>): Repo {
    s.(fetch := NoFetch, used := s.used + batch.Keys, rows := if inserted then s.rows + batch else s.rows,
       refs := s.refs + RefsOf(if inserted then batch else Stuck(batch, stuck)))
  }

  /** The whole of it: recording in any order, the insert or its failure, and the clean-up are a
      run that ends with the rows and refs RecordPruned promises. */
  lemma RecordPrunedIsARun(s: Repo, order: seq<string>, draw: map<string, Id>, inserted: bool, stuck: set<Id>)
      returns (steps: seq<Step>, t: Repo)
    requires MayRecord(s, order, draw) && SetOf(order) <= s.fetch.before.Keys
    requires s.pending == map[] && s.orphans == map[]
    ensures Run(s, steps, t)
    ensures t == Recorded(s, Batch(s.fetch.before, SetOf(order), draw), inserted, stuck)
  {
    var batch := Batch(s.fetch.before, SetOf(order), draw);
    RecordingIsARun(s, order, draw);
    assert forall id :: id in batch ==> EventRef(id) !in s.refs;
    hide Run, Batch, MayRecord, ArchiveSteps, EventRef, RefsOf, SetOf, Prepared, Recorded;
    steps, t := Inserted(s, ArchiveSteps(order, draw), batch, inserted, stuck);
  }

  lemma Inserted(s: Repo, log: seq<Step>, batch: map<Id, Row>, inserted: bool, stuck: set<Id>)
      returns (steps: seq<Step>, t: Repo)
    requires Run(s, log, Prepared(s, batch)) && s.fetch.After? && s.pending == map[] && s.orphans == map[]
    requires forall id :: id in batch ==> EventRef(id) !in s.refs
    ensures Run(s, steps, t) && t == Recorded(s, batch, inserted, stuck)
  {
    var m := Prepared(s, batch);
    assert m.pending == batch && m.orphans == map[] by { assert map[] + batch == batch; }
    var step := if inserted then Insert else InsertFails;
    InsertStep(m, inserted);
    hide Run, Guard, Do, EventRef, RefsOf;
    ThenStep(s, log, m, step);
    steps, t := log + [step], Do(m, step);
    hide Recorded;
    if !inserted {
      steps, t := CleansUp(s, steps, t, s.refs, batch, stuck);
    }
    EndStep(t);
    ThenStep(s, steps, t, EndFetch);
    steps, t := steps + [EndFetch], Do(t, EndFetch);
    RecordedIs(s, batch, inserted, stuck, t);
  }

  lemma RecordedIs(s: Repo, batch: map<Id, Row>, inserted: bool, stuck: set<Id>, t: Repo)
    requires s.pending == map[] && s.orphans == map[]
    requires t == s.(fetch := NoFetch, used := s.used + batch.Keys, rows := if inserted then s.rows + batch else s.rows,
                     refs := if inserted then s.refs + RefsOf(batch)
                             else s.refs + RefsOf(batch - (batch.Keys - stuck)))
    ensures t == Recorded(s, batch, inserted, stuck)
  {
    assert batch - (batch.Keys - stuck) == Stuck(batch, stuck);
    hide RefsOf;
  }

  lemma InsertStep(m: Repo, inserted: bool)
    requires m.orphans == map[]
    ensures var step := if inserted then Insert else InsertFails;
            && Guard(m, step)
            && Do(m, step) == if inserted then m.(rows := m.rows + m.pending, pending := map[])
                              else m.(orphans := m.pending, pending := map[])
  {
    assert map[] + m.pending == m.pending;
  }

  lemma EndStep(m: Repo)
    requires m.fetch.After? && m.pending == map[]
    ensures Guard(m, EndFetch) && Do(m, EndFetch) == m.(fetch := NoFetch)
  {
  }
}
