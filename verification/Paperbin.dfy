/** The paperbin of pruned branches of one repository: archival refs in git and
    deleted_branches rows in the database, kept in step by prune recording
    (internal/gitops/worker.go), expiry and ReleaseArchivalRef
    (internal/gitops/cleanup_worker.go), and restore and permanent delete
    (internal/handlers/repository_handler.go).
  */
module Paperbin {
  type Id = string    // a row's UUID
  type Sha = string
  type Refs = map<string, Sha>

  const LEGACY_PREFIX := "refs/paperbin/heads/"
  const EVENT_PREFIX := "refs/paperbin/events/"
  const PAPERBIN_PREFIX := "refs/paperbin/"
  const HEADS_PREFIX := "refs/heads/"
  const REMOTE_PREFIX := "refs/remotes/origin/"

  datatype Row = Row(branch: string, sha: Sha, archiveRef: string)

  function EventRef(id: Id): string {
    EVENT_PREFIX + id
  }

  function ArchivalRef(r: Row): string {
    if r.archiveRef != "" then r.archiveRef else LEGACY_PREFIX + r.branch
  }

  predicate HasLegacyRef(r: Row) {
    r.archiveRef == ""
  }

  // ------------------------------------------------------------- the name spaces

  lemma PrefixInjective(prefix: string, a: string, b: string)
    requires prefix + a == prefix + b
    ensures a == b
  {
    assert (prefix + a)[|prefix|..] == a;
    assert (prefix + b)[|prefix|..] == b;
  }

  lemma SpacesAreDisjoint(a: string, b: string)
    ensures EVENT_PREFIX + a != LEGACY_PREFIX + b
    ensures PAPERBIN_PREFIX <= EVENT_PREFIX + a && PAPERBIN_PREFIX <= LEGACY_PREFIX + b
    ensures !(PAPERBIN_PREFIX <= HEADS_PREFIX + a)
  {
    assert (EVENT_PREFIX + a)[14] == 'e' && (LEGACY_PREFIX + b)[14] == 'h';
    assert (HEADS_PREFIX + a)[5] == 'h' && PAPERBIN_PREFIX[5] == 'p';
  }

  /** A stored row's ref is its own event ref, or the branch's shared one. */
  predicate RowOk(id: Id, r: Row) {
    r.archiveRef == "" || r.archiveRef == EventRef(id)
  }

  /** Two rows name the same ref exactly when both are legacy rows of one branch. */
  lemma SharedRefs(id: Id, r: Row, id': Id, r': Row)
    requires RowOk(id, r) && RowOk(id', r') && id != id'
    ensures ArchivalRef(r) == ArchivalRef(r') <==> HasLegacyRef(r) && HasLegacyRef(r') && r.branch == r'.branch
    ensures PAPERBIN_PREFIX <= ArchivalRef(r)
    ensures ArchivalRef(r)
            == if HasLegacyRef(r) then "refs/paperbin/heads/" + r.branch else "refs/paperbin/events/" + id
  {
    SpacesAreDisjoint(id, r'.branch);
    SpacesAreDisjoint(id', r.branch);
    if EVENT_PREFIX + id == EVENT_PREFIX + id' {
      PrefixInjective(EVENT_PREFIX, id, id');
    }
    if LEGACY_PREFIX + r.branch == LEGACY_PREFIX + r'.branch {
      PrefixInjective(LEGACY_PREFIX, r.branch, r'.branch);
    }
  }

  // -------------------------------------------------------------------- the machine

  datatype Kind = Expire | Purge | Restore

  datatype Stage = Branching | Checking | Resolving | Deleting | Dropping

  /** One pass of ReleaseArchivalRef and the row deletion after it. */
  datatype Release = Release(id: Id, row: Row, kind: Kind, stage: Stage)

  datatype Fetch = NoFetch | Before(before: Refs) | After(before: Refs, after: Refs)

  datatype Repo = Repo(
    head: string,                   // the ref a work tree has checked out, "" in a bare repository
    refs: Refs,
    rows: map<Id, Row>,
    fetch: Fetch,
    pending: map<Id, Row>,          // ref created, insert outstanding
    orphans: map<Id, Row>,          // insert failed, ref being dropped
    used: set<Id>,                  // identifiers ever drawn
    releases: map<nat, Release>)

  datatype Step =
    | ListBefore
    | FetchMoves(refs: Refs)
    | ListAfter
    | Archive(id: Id, ref: string)
    | Insert
    | InsertFails
    | CleanOrphan(id: Id)
    | LeaveOrphan(id: Id)
    | EndFetch
    | Begin(p: nat, id: Id, kind: Kind)
    | MakeBranch(p: nat)
    | SkipRelease(p: nat)          // nothing on disk, or (purge) no live repository
    | Check(p: nat)
    | Resolve(p: nat)
    | DeleteRef(p: nat)
    | DeleteRow(p: nat)
    | FailRelease(p: nat)

  predicate IsBranchRef(ref: string) {
    HEADS_PREFIX <= ref || REMOTE_PREFIX <= ref
  }

  function TrimPrefix(s: string, prefix: string): string {
    if prefix <= s then s[|prefix|..] else s
  }

  function BranchName(ref: string): string {
    TrimPrefix(TrimPrefix(ref, HEADS_PREFIX), REMOTE_PREFIX)
  }

  // A branch ref the fetch pruned.
  predicate Pruned(before: Refs, after: Refs, ref: string) {
    ref in before && ref !in after && IsBranchRef(ref)
  }

  // A fetch with prune moves the remote-tracking refs, and the hard reset after it the
  // checked-out branch; other local branches and the paperbin are not its business.
  ghost predicate FetchKeeps(head: string, refs: Refs, refs': Refs) {
    forall r :: PAPERBIN_PREFIX <= r || (HEADS_PREFIX <= r && r != head) ==>
      (r in refs <==> r in refs') && (r in refs ==> refs'[r] == refs[r])
  }

  predicate At(s: Repo, p: nat, stage: Stage) {
    p in s.releases && s.releases[p].stage == stage
  }

  ghost predicate Guard(s: Repo, step: Step) {
    match step
    case ListBefore => s.fetch.NoFetch?
    case FetchMoves(refs) => s.fetch.Before? && FetchKeeps(s.head, s.refs, refs)
    case ListAfter => s.fetch.Before?
    case Archive(id, ref) =>
      s.fetch.After? && Pruned(s.fetch.before, s.fetch.after, ref) && id !in s.used && EventRef(id) !in s.refs
    case Insert => true
    case InsertFails => true
    case CleanOrphan(id) => id in s.orphans
    case LeaveOrphan(id) => id in s.orphans
    case EndFetch => s.fetch.After? && s.pending == map[]
    case Begin(p, id, _) => p !in s.releases && id in s.rows
    case MakeBranch(p) => At(s, p, Branching)
    case SkipRelease(p) => At(s, p, Checking)
    case Check(p) => At(s, p, Checking)
    case Resolve(p) => At(s, p, Resolving)
    case DeleteRef(p) => At(s, p, Deleting)
    case DeleteRow(p) => At(s, p, Dropping)
    case FailRelease(p) => p in s.releases
  }

  predicate SharedLegacy(rows: map<Id, Row>, id: Id, r: Row) {
    exists other :: other in rows && other != id && HasLegacyRef(rows[other]) && rows[other].branch == r.branch
  }

  function Move(s: Repo, p: nat, stage: Stage): map<nat, Release>
    requires p in s.releases
  {
    s.releases[p := s.releases[p].(stage := stage)]
  }

  function ArchivedRow(s: Repo, id: Id, ref: string): Row
    requires s.fetch.After? && ref in s.fetch.before
  {
    Row(BranchName(ref), s.fetch.before[ref], EventRef(id))
  }

  // update-ref -d with an expected value.
  function CompareAndDelete(refs: Refs, ref: string, sha: Sha): Refs {
    if ref in refs && refs[ref] == sha then refs - {ref} else refs
  }

  function Do(s: Repo, step: Step): Repo
    requires Guard(s, step)
  {
    match step
    case ListBefore => s.(fetch := Before(s.refs))
    case FetchMoves(refs) => s.(refs := refs)
    case ListAfter => s.(fetch := After(s.fetch.before, s.refs))
    case Archive(id, ref) =>
      var row := ArchivedRow(s, id, ref);
      s.(refs := s.refs[EventRef(id) := row.sha], pending := s.pending[id := row], used := s.used + {id})
    case Insert => s.(rows := s.rows + s.pending, pending := map[])
    case InsertFails => s.(orphans := s.orphans + s.pending, pending := map[])
    case CleanOrphan(id) =>
      s.(refs := CompareAndDelete(s.refs, EventRef(id), s.orphans[id].sha), orphans := s.orphans - {id})
    case LeaveOrphan(id) => s.(orphans := s.orphans - {id})
    case EndFetch => s.(fetch := NoFetch)
    case Begin(p, id, kind) =>
      s.(releases := s.releases[p := Release(id, s.rows[id], kind, if kind.Restore? then Branching else Checking)])
    case MakeBranch(p) =>
      s.(refs := s.refs[HEADS_PREFIX + s.releases[p].row.branch := s.releases[p].row.sha],
          releases := Move(s, p, Checking))
    case SkipRelease(p) => s.(releases := Move(s, p, Dropping))
    case Check(p) =>
      var x := s.releases[p];
      s.(releases := Move(s, p, if HasLegacyRef(x.row)
          && SharedLegacy(s.rows, x.id, x.row) then Dropping else Resolving))
    case Resolve(p) =>
      var x := s.releases[p];
      var ref := ArchivalRef(x.row);
      s.(releases := Move(s, p, if ref in s.refs && s.refs[ref] == x.row.sha then Deleting else Dropping))
    case DeleteRef(p) =>
      var x := s.releases[p];
      var ref := ArchivalRef(x.row);
      if ref in s.refs && s.refs[ref] == x.row.sha then s.(refs := s.refs - {ref}, releases := Move(s, p, Dropping))
      else s.(releases := AfterFailure(s, p))
    case DeleteRow(p) => s.(rows := s.rows - {s.releases[p].id}, releases := s.releases - {p})
    case FailRelease(p) => s.(releases := AfterFailure(s, p))
  }

  // Expiry and permanent delete keep the record when the ref could not be released;
  // restore treats the release as best-effort and goes on to the record.
  function AfterFailure(s: Repo, p: nat): map<nat, Release>
    requires p in s.releases
  {
    var x := s.releases[p];
    if x.kind.Restore? && !x.stage.Branching? && !x.stage.Dropping? then Move(s, p, Dropping) else s.releases - {p}
  }

  ghost predicate Run(s: Repo, steps: seq<Step>, t: Repo)
    decreases |steps|
  {
    if steps == [] then s == t
    else Guard(s, steps[0]) && Run(Do(s, steps[0]), steps[1..], t)
  }

  // --------------------------------------------------------------------- invariants

  ghost predicate RowsInv(s: Repo) {
    && (forall id :: id in s.rows ==> id in s.used && RowOk(id, s.rows[id]))
    && (forall id :: id in s.pending ==> id in s.used && id !in s.rows && s.pending[id].archiveRef == EventRef(id))
    && (forall id :: id in s.orphans ==>
          id in s.used && id !in s.rows && id !in s.pending && s.orphans[id].archiveRef == EventRef(id))
  }

  // A row does not change while it exists, and a release that has passed its check
  // shares its legacy ref with nobody.
  ghost predicate ReleaseOk(s: Repo, x: Release) {
    && x.id in s.used && x.id !in s.pending && x.id !in s.orphans && RowOk(x.id, x.row)
    && (x.id in s.rows ==> s.rows[x.id] == x.row)
    && ((x.stage.Resolving? || x.stage.Deleting?) && HasLegacyRef(x.row) ==> !SharedLegacy(s.rows, x.id, x.row))
  }

  ghost predicate ReleaseInv(s: Repo) {
    forall p :: p in s.releases ==> ReleaseOk(s, s.releases[p])
  }

  // A ref created for a row that is still to be inserted protects it already.
  ghost predicate PendingInv(s: Repo) {
    forall id :: id in s.pending ==> EventRef(id) in s.refs && s.refs[EventRef(id)] == s.pending[id].sha
  }

  ghost predicate Inv(s: Repo) {
    RowsInv(s) && ReleaseInv(s) && PendingInv(s)
  }

  /** A repository at rest, with whatever rows and refs earlier processes left. */
  ghost predicate AtRest(s: Repo) {
    && s.fetch.NoFetch? && s.pending == map[] && s.orphans == map[] && s.releases == map[]
    && forall id :: id in s.rows ==> id in s.used && RowOk(id, s.rows[id])
  }

  lemma StepKeepsRows(s: Repo, step: Step)
    requires RowsInv(s) && Guard(s, step)
    ensures RowsInv(Do(s, step))
  {
  }

  lemma MoreRowsShareLess(rows: map<Id, Row>, rows': map<Id, Row>, id: Id, r: Row)
    requires forall k :: k in rows' && HasLegacyRef(rows'[k]) ==> k in rows && rows[k] == rows'[k]
    ensures SharedLegacy(rows', id, r) ==> SharedLegacy(rows, id, r)
  {
  }

  // No step of today's code writes a legacy row.
  lemma NoNewLegacyRows(s: Repo, step: Step)
    requires RowsInv(s) && Guard(s, step)
    ensures forall k :: k in Do(s, step).rows && HasLegacyRef(Do(s, step).rows[k]) ==>
              k in s.rows && s.rows[k] == Do(s, step).rows[k]
    ensures forall k :: k in s.rows && k in Do(s, step).rows ==> Do(s, step).rows[k] == s.rows[k]
  {
    assert forall id :: EventRef(id) != "";
  }

  // A release's own step, seen from the state before the step.
  lemma OwnStepOk(s: Repo, step: Step, p: nat)
    requires RowsInv(s) && ReleaseInv(s) && Guard(s, step) && p in Do(s, step).releases
    ensures ReleaseOk(s, Do(s, step).releases[p])
  {
    if step.Begin? && step.p == p {
      hide SharedLegacy, Pruned, FetchKeeps;
    } else {
      StageAfter(s, step, p);
      assert ReleaseOk(s, s.releases[p]);
      hide Do, Guard, SharedLegacy;
    }
  }

  // A release under way keeps its row, and reaches Resolving only through the check.
  lemma StageAfter(s: Repo, step: Step, p: nat)
    requires Guard(s, step) && p in Do(s, step).releases && !(step.Begin? && step.p == p)
    ensures p in s.releases
    ensures var x, x' := s.releases[p], Do(s, step).releases[p];
            x' == x.(stage := x'.stage)
            && ((x'.stage.Resolving? || x'.stage.Deleting?) && HasLegacyRef(x.row) ==>
                  x.stage.Resolving? || x.stage.Deleting? || !SharedLegacy(s.rows, x.id, x.row))
  {
    hide SharedLegacy, Pruned, FetchKeeps, ArchivalRef;
  }

  // The rest of the state moves only in ways every release survives.
  lemma OthersSurvive(s: Repo, step: Step, x: Release)
    requires RowsInv(s) && Guard(s, step) && ReleaseOk(s, x)
    ensures ReleaseOk(Do(s, step), x)
  {
    NoNewLegacyRows(s, step);
    MoreRowsShareLess(s.rows, Do(s, step).rows, x.id, x.row);
    hide SharedLegacy, Pruned, FetchKeeps;
  }

  lemma StepKeepsReleases(s: Repo, step: Step)
    requires RowsInv(s) && ReleaseInv(s) && Guard(s, step)
    ensures ReleaseInv(Do(s, step))
  {
    forall p | p in Do(s, step).releases ensures ReleaseOk(Do(s, step), Do(s, step).releases[p]) {
      OwnStepOk(s, step, p);
      OthersSurvive(s, step, Do(s, step).releases[p]);
      hide Do, Guard, ReleaseOk;
    }
    hide Do, Guard, ReleaseOk;
  }

  // ---------------------------------------------------------------------- protection

  predicate Holds(refs: Refs, ref: string, sha: Sha) {
    ref in refs && refs[ref] == sha
  }

  /** The row's commit is kept alive by its archival ref. */
  ghost predicate Protected(s: Repo, id: Id) {
    id in s.rows && Holds(s.refs, ArchivalRef(s.rows[id]), s.rows[id].sha)
  }

  // The two steps of a release of this very row that end its protection.
  predicate Ends(s: Repo, step: Step, id: Id) {
    (step.DeleteRef? || step.DeleteRow?) && step.p in s.releases && s.releases[step.p].id == id
  }

  // What a step may do to a ref of the paperbin name space.
  lemma PaperbinRefMoves(s: Repo, step: Step, ref: string, sha: Sha)
    requires Guard(s, step) && PAPERBIN_PREFIX <= ref && Holds(s.refs, ref, sha) && !Holds(Do(s, step).refs, ref, sha)
    ensures (step.CleanOrphan? && ref == EventRef(step.id))
            || (step.DeleteRef? && ref == ArchivalRef(s.releases[step.p].row))
  {
    match step
    case MakeBranch(p) => SpacesAreDisjoint(s.releases[p].row.branch, "");
    case _ =>
    hide Pruned, SharedLegacy, BranchName;
  }

  lemma DeleteRefSparesOthers(s: Repo, p: nat, id: Id)
    requires RowsInv(s) && ReleaseInv(s) && At(s, p, Deleting) && id in s.rows && s.releases[p].id != id
    ensures ArchivalRef(s.releases[p].row) != ArchivalRef(s.rows[id])
  {
    var x := s.releases[p];
    assert ReleaseOk(s, x);
    SharedRefs(x.id, x.row, id, s.rows[id]);
  }

  lemma StepProtects(s: Repo, step: Step, id: Id)
    requires Inv(s) && Guard(s, step) && Protected(s, id) && !Ends(s, step, id)
    ensures Protected(Do(s, step), id) && Do(s, step).rows[id] == s.rows[id]
  {
    var r := s.rows[id];
    NoNewLegacyRows(s, step);
    RowStays(s, step, id);
    SharedRefs(id, r, if id == "" then "x" else "", Row("", "", ""));
    if !Holds(Do(s, step).refs, ArchivalRef(r), r.sha) {
      PaperbinRefMoves(s, step, ArchivalRef(r), r.sha);
      match step
      case CleanOrphan(o) => SharedRefs(id, r, o, s.orphans[o]);
      case DeleteRef(p) => DeleteRefSparesOthers(s, p, id);
    }
    hide Do;
  }

  lemma RowStays(s: Repo, step: Step, id: Id)
    requires RowsInv(s) && Guard(s, step) && id in s.rows && !Ends(s, step, id)
    ensures id in Do(s, step).rows
  {
  }

  lemma StepKeepsPending(s: Repo, step: Step)
    requires Inv(s) && Guard(s, step)
    ensures PendingInv(Do(s, step))
  {
    var s' := Do(s, step);
    forall id | id in s'.pending ensures EventRef(id) in s'.refs && s'.refs[EventRef(id)] == s'.pending[id].sha {
      SpacesAreDisjoint(id, "");
      if !(step.Archive? && step.id == id) {
        assert id in s.pending && s'.pending[id] == s.pending[id];
        if !Holds(s'.refs, EventRef(id), s.pending[id].sha) {
          PaperbinRefMoves(s, step, EventRef(id), s.pending[id].sha);
          match step
          case CleanOrphan(o) => SharedRefs(id, s.pending[id], o, s.orphans[o]);
          case DeleteRef(p) => SharedRefs(id, s.pending[id], s.releases[p].id, s.releases[p].row);
        }
      }
    }
  }

  lemma StepKeepsInv(s: Repo, step: Step)
    requires Inv(s) && Guard(s, step)
    ensures Inv(Do(s, step))
  {
    StepKeepsRows(s, step);
    StepKeepsReleases(s, step);
    StepKeepsPending(s, step);
    hide Do, Guard, RowsInv, ReleaseInv, PendingInv;
  }

  lemma {:induction false} RunKeepsInv(s: Repo, steps: seq<Step>, t: Repo)
    requires Inv(s) && Run(s, steps, t)
    ensures Inv(t)
    decreases |steps|
  {
    hide Inv, Guard, Do;
    if steps != [] {
      StepKeepsInv(s, steps[0]);
      RunKeepsInv(Do(s, steps[0]), steps[1..], t);
    }
  }

  ghost predicate Reachable(t: Repo) {
    exists s, steps :: AtRest(s) && Run(s, steps, t)
  }

  lemma ReachableInv(t: Repo)
    requires Reachable(t)
    ensures Inv(t)
  {
    var s, steps :| AtRest(s) && Run(s, steps, t);
    RunKeepsInv(s, steps, t);
  }

  // No step of the run ends the row's protection.
  ghost predicate Spares(s: Repo, steps: seq<Step>, t: Repo, id: Id)
    requires Run(s, steps, t)
    decreases |steps|
  {
    steps == [] || (!Ends(s, steps[0], id) && Spares(Do(s, steps[0]), steps[1..], t, id))
  }

  lemma {:induction false} ProtectedAlong(s: Repo, steps: seq<Step>, t: Repo, id: Id)
    requires Inv(s) && Run(s, steps, t) && Protected(s, id) && Spares(s, steps, t, id)
    ensures Protected(t, id) && t.rows[id] == s.rows[id]
    decreases |steps|
  {
    hide Inv, Guard, Do, Ends;
    if steps != [] {
      StepKeepsInv(s, steps[0]);
      StepProtects(s, steps[0], id);
      ProtectedAlong(Do(s, steps[0]), steps[1..], t, id);
    }
  }

  // ------------------------------------------------------------------- main results

  /** Protection over whole runs: a recorded event whose ref points at its commit
      keeps its row and its ref through any interleaving of prune recording, failed
      inserts with their clean-up, expiry, restores and deletions of other rows, until
      a release of that very row deletes its ref or drops the row. */
  lemma RecordedEventsStayProtected(s: Repo, steps: seq<Step>, t: Repo, id: Id)
    requires Reachable(s) && Run(s, steps, t) && Protected(s, id) && Spares(s, steps, t, id)
    ensures Protected(t, id) && t.rows[id] == s.rows[id]
  {
    ReachableInv(s);
    ProtectedAlong(s, steps, t, id);
  }

  /** Recording: the moment the rows are inserted every one of them is protected. */
  lemma InsertedEventsAreProtected(s: Repo, id: Id)
    requires Reachable(s) && id in s.pending
    ensures Protected(Do(s, Insert), id) && Do(s, Insert).rows[id] == s.pending[id]
  {
    ReachableInv(s);
    assert s.pending[id].archiveRef != "" by { assert EventRef(id) != ""; }
  }

  /** Releasing one row never moves or deletes the ref another row relies on, be it
      that row's own or a legacy ref shared between rows. */
  lemma ReleaseSparesEveryOtherRow(s: Repo, p: nat, id: Id)
    requires Reachable(s) && At(s, p, Deleting) && id in s.rows && id != s.releases[p].id
    ensures var ref, s' := ArchivalRef(s.rows[id]), Do(s, DeleteRef(p));
            (ref in s'.refs <==> ref in s.refs) && (ref in s.refs ==> s'.refs[ref] == s.refs[ref])
  {
    ReachableInv(s);
    DeleteRefSparesOthers(s, p, id);
  }

  /** A shared legacy ref outlives every release but the last: while another legacy
      row of the branch exists, a release of one of them goes straight to its row. */
  lemma SharedLegacyRefWaits(s: Repo, p: nat, other: Id)
    requires At(s, p, Checking) && HasLegacyRef(s.releases[p].row)
    requires other in s.rows && other != s.releases[p].id && HasLegacyRef(s.rows[other])
              && s.rows[other].branch == s.releases[p].row.branch
    ensures Do(s, Check(p)).releases[p].stage == Dropping && Do(s, Check(p)).refs == s.refs
  {
  }

  // A legacy ref whose commit no row, and no release under way, remembers.
  ghost predicate Leaked(s: Repo, branch: string, sha: Sha) {
    && Holds(s.refs, LEGACY_PREFIX + branch, sha)
    && (forall id :: id in s.rows ==>
        !(HasLegacyRef(s.rows[id]) && s.rows[id].branch == branch && s.rows[id].sha == sha))
    && (forall p :: p in s.releases ==>
          !(HasLegacyRef(s.releases[p].row) && s.releases[p].row.branch == branch && s.releases[p].row.sha == sha))
  }

  lemma LeakRows(s: Repo, step: Step, branch: string, sha: Sha)
    requires RowsInv(s) && Guard(s, step) && Leaked(s, branch, sha)
    ensures var s' := Do(s, step);
            (forall id :: id in s'.rows ==>
                !(HasLegacyRef(s'.rows[id]) && s'.rows[id].branch == branch && s'.rows[id].sha == sha))
            && (forall p :: p in s'.releases ==>
                  !(HasLegacyRef(s'.releases[p].row) && s'.releases[p].row.branch == branch
                      && s'.releases[p].row.sha == sha))
  {
    NoNewLegacyRows(s, step);
    var s' := Do(s, step);
    forall p | p in s'.releases ensures (p in s.releases && s'.releases[p].row == s.releases[p].row)
                                        || exists id :: id in s.rows && s'.releases[p].row == s.rows[id] {
      if !(step.Begin? && step.p == p) {
        StageAfter(s, step, p);
      }
    }
    hide Do, Guard, RowsInv;
  }

  lemma LeakStays(s: Repo, step: Step, branch: string, sha: Sha)
    requires Inv(s) && Guard(s, step) && Leaked(s, branch, sha)
    ensures Leaked(Do(s, step), branch, sha)
  {
    LeakRows(s, step, branch, sha);
    var ref := LEGACY_PREFIX + branch;
    SpacesAreDisjoint("", branch);
    if !Holds(Do(s, step).refs, ref, sha) {
      PaperbinRefMoves(s, step, ref, sha);
      if step.CleanOrphan? {
        SpacesAreDisjoint(step.id, branch);
      } else {
        LegacyRefOf(s, step.p, branch);
      }
    }
    hide Do;
  }

  lemma LegacyRefOf(s: Repo, p: nat, branch: string)
    requires ReleaseInv(s) && p in s.releases && ArchivalRef(s.releases[p].row) == LEGACY_PREFIX + branch
    ensures HasLegacyRef(s.releases[p].row) && s.releases[p].row.branch == branch
  {
    var x := s.releases[p];
    assert ReleaseOk(s, x);
    SharedRefs(x.id, x.row, if x.id == "" then "x" else "", Row(branch, "", ""));
  }

  /** Sharing costs the shared ref its clean-up.  A legacy ref is given up only to a row
      at its commit; when that row is released while another legacy row of the branch
      still exists, the ref is passed over, and from then on no step ever removes it. */
  lemma {:induction false} PassedOverLegacyRefStays(s: Repo, steps: seq<Step>, t: Repo, branch: string, sha: Sha)
    requires Inv(s) && Run(s, steps, t) && Leaked(s, branch, sha)
    ensures Leaked(t, branch, sha)
    decreases |steps|
  {
    hide Inv, Guard, Do, Leaked;
    if steps != [] {
      StepKeepsInv(s, steps[0]);
      LeakStays(s, steps[0], branch, sha);
      PassedOverLegacyRefStays(Do(s, steps[0]), steps[1..], t, branch, sha);
    }
  }

  /** Two legacy rows at different commits suffice: release the one the ref points at first. */
  lemma TwoLegacyRowsLeak(s: Repo, p: nat, other: Id)
    requires Reachable(s) && At(s, p, Checking) && s.releases.Keys == {p} && s.rows.Keys == {s.releases[p].id, other}
    requires HasLegacyRef(s.releases[p].row) && Protected(s, s.releases[p].id)
    requires other != s.releases[p].id && HasLegacyRef(s.rows[other])
    requires s.rows[other].branch == s.releases[p].row.branch && s.rows[other].sha != s.releases[p].row.sha
    ensures Guard(Do(s, Check(p)), DeleteRow(p))
    ensures Leaked(Do(Do(s, Check(p)), DeleteRow(p)), s.releases[p].row.branch, s.releases[p].row.sha)
  {
    ReachableInv(s);
    assert ReleaseOk(s, s.releases[p]);
    SharedLegacyRefWaits(s, p, other);
    var s1 := Do(s, Check(p));
    assert s1.rows == s.rows && s1.releases.Keys == {p};
  }

  /** Two legacy rows suffice, at whatever commits: when both releases pass the check before
      either drops its row, each leaves the ref to the other. */
  lemma TwoReleasesTogetherLeak(s: Repo, p: nat, q: nat, sha: Sha)
    requires Reachable(s) && p != q && At(s, p, Checking) && At(s, q, Checking) && s.releases.Keys == {p, q}
    requires var x, y := s.releases[p], s.releases[q];
             && x.id != y.id && s.rows.Keys == {x.id, y.id} && HasLegacyRef(x.row) && HasLegacyRef(y.row)
             && x.row.branch == y.row.branch && Holds(s.refs, LEGACY_PREFIX + x.row.branch, sha)
    ensures exists steps, t :: Run(s, steps, t) && Leaked(t, s.releases[p].row.branch, sha)
  {
    ReachableInv(s);
    var x, y := s.releases[p], s.releases[q];
    assert ReleaseOk(s, x) && ReleaseOk(s, y);
    var s2 := BothPass(s, p, q);
    hide Inv, ReleaseOk, Reachable;
    BothDrop(s2, p, q, sha);
    hide Run, Leaked, Do, Guard;
    var steps, t :| Run(s2, steps, t) && Leaked(t, x.row.branch, sha);
    RunConcat(s, [Check(p), Check(q)], s2, steps, t);
  }

  // Each check sees the other's row.
  lemma BothPass(s: Repo, p: nat, q: nat) returns (s2: Repo)
    requires p != q && At(s, p, Checking) && At(s, q, Checking)
    requires var x, y := s.releases[p], s.releases[q];
             && x.id != y.id && x.id in s.rows && s.rows[x.id] == x.row && y.id in s.rows && s.rows[y.id] == y.row
             && HasLegacyRef(x.row) && HasLegacyRef(y.row) && x.row.branch == y.row.branch
    ensures Run(s, [Check(p), Check(q)], s2)
    ensures s2
              == s.(releases := s.releases[p := s.releases[p].(stage := Dropping)]
                                              [q := s.releases[q].(stage := Dropping)])
  {
    SharedLegacyRefWaits(s, p, s.releases[q].id);
    var s1 := Do(s, Check(p));
    SharedLegacyRefWaits(s1, q, s.releases[p].id);
    s2 := Do(s1, Check(q));
    OneStep(s1, Check(q));
    RunPrepend(s, Check(p), [Check(q)], s2);
    hide Run;
  }

  lemma BothDrop(s: Repo, p: nat, q: nat, sha: Sha)
    requires p != q && At(s, p, Dropping) && At(s, q, Dropping) && s.releases.Keys == {p, q}
    requires s.rows.Keys == {s.releases[p].id, s.releases[q].id}
    requires Holds(s.refs, LEGACY_PREFIX + s.releases[p].row.branch, sha)
    ensures exists steps, t :: Run(s, steps, t) && Leaked(t, s.releases[p].row.branch, sha)
  {
    var s1 := Do(s, DeleteRow(p));
    var t := Do(s1, DeleteRow(q));
    assert t.rows == map[] && t.releases == map[] && t.refs == s.refs;
    OneStep(s1, DeleteRow(q));
    RunPrepend(s, DeleteRow(p), [DeleteRow(q)], t);
    assert Leaked(t, s.releases[p].row.branch, sha);
  }

  lemma RunPrepend(s: Repo, step: Step, steps: seq<Step>, t: Repo)
    requires Guard(s, step) && Run(Do(s, step), steps, t)
    ensures Run(s, [step] + steps, t)
  {
    hide Guard, Do;
    assert ([step] + steps)[1..] == steps;
  }

  predicate LegacyRowAt(r: Row, branch: string, sha: Sha) {
    HasLegacyRef(r) && r.branch == branch && r.sha == sha
  }

  // The other legacy rows of the branch.
  ghost function Sharers(rows: map<Id, Row>, branch: string, id: Id): set<Id> {
    set k | k in rows && k != id && HasLegacyRef(rows[k]) && rows[k].branch == branch
  }

  // While `id` is there, another legacy row of its branch goes without the ref.
  lemma SharerGoes(s: Repo, id: Id, k: Id)
    requires s.releases == map[] && id in s.rows && HasLegacyRef(s.rows[id])
              && k in Sharers(s.rows, s.rows[id].branch, id)
    ensures Run(s, [Begin(0, k, Expire), Check(0), DeleteRow(0)], s.(rows := s.rows - {k}))
  {
    var s1 := Do(s, Begin(0, k, Expire));
    SharedLegacyRefWaits(s1, 0, id);
    var s2 := Do(s1, Check(0));
    var t := Do(s2, DeleteRow(0));
    assert t.releases == map[];
    RunThree(s, Begin(0, k, Expire), Check(0), DeleteRow(0));
  }

  lemma {:induction false} SharersGo(s: Repo, id: Id) returns (steps: seq<Step>, t: Repo)
    requires s.releases == map[] && id in s.rows && HasLegacyRef(s.rows[id])
    ensures Run(s, steps, t) && t.releases == map[] && t.refs == s.refs && id in t.rows && t.rows[id] == s.rows[id]
    ensures Sharers(t.rows, s.rows[id].branch, id) == {}
    decreases |Sharers(s.rows, s.rows[id].branch, id)|
  {
    var branch := s.rows[id].branch;
    if Sharers(s.rows, branch, id) == {} {
      steps, t := [], s;
    } else {
      var k :| k in Sharers(s.rows, branch, id);
      var m := s.(rows := s.rows - {k});
      SharerGoes(s, id, k);
      assert Sharers(m.rows, branch, id) == Sharers(s.rows, branch, id) - {k};
      var rest;
      rest, t := SharersGo(m, id);
      hide Run, Sharers;
      RunConcat(s, [Begin(0, k, Expire), Check(0), DeleteRow(0)], m, rest, t);
      steps := [Begin(0, k, Expire), Check(0), DeleteRow(0)] + rest;
    }
  }

  // The last one takes the ref with it.
  lemma LastOneTakesRef(s: Repo, id: Id) returns (steps: seq<Step>, t: Repo)
    requires s.releases == map[] && id in s.rows && HasLegacyRef(s.rows[id])
    requires Sharers(s.rows, s.rows[id].branch, id) == {}
    requires Holds(s.refs, LEGACY_PREFIX + s.rows[id].branch, s.rows[id].sha)
    ensures Run(s, steps, t) && LEGACY_PREFIX + s.rows[id].branch !in t.refs
  {
    NotShared(s.rows, s.rows[id].branch, id);
    var s3 := LastOneResolves(s, id);
    hide SharedLegacy, Sharers;
    t := Do(s3, DeleteRef(0));
    OneStep(s3, DeleteRef(0));
    hide Run;
    RunConcat(s, [Begin(0, id, Expire), Check(0), Resolve(0)], s3, [DeleteRef(0)], t);
    steps := [Begin(0, id, Expire), Check(0), Resolve(0)] + [DeleteRef(0)];
  }

  lemma NotShared(rows: map<Id, Row>, branch: string, id: Id)
    ensures Sharers(rows, branch, id) == {} <==> forall r: Row :: r.branch == branch ==> !SharedLegacy(rows, id, r)
  {
    if k :| k in Sharers(rows, branch, id) {
      assert SharedLegacy(rows, id, rows[k]);
    } else {
      forall k | k in rows && k != id ensures !(HasLegacyRef(rows[k]) && rows[k].branch == branch) {
        assert k !in Sharers(rows, branch, id);
      }
    }
  }

  lemma LastOneResolves(s: Repo, id: Id) returns (s3: Repo)
    requires s.releases == map[] && id in s.rows && HasLegacyRef(s.rows[id]) && !SharedLegacy(s.rows, id, s.rows[id])
    requires Holds(s.refs, LEGACY_PREFIX + s.rows[id].branch, s.rows[id].sha)
    ensures Run(s, [Begin(0, id, Expire), Check(0), Resolve(0)], s3)
    ensures s3.refs == s.refs && s3.releases == map[0 := Release(id, s.rows[id], Expire, Deleting)]
  {
    hide SharedLegacy;
    RunThree(s, Begin(0, id, Expire), Check(0), Resolve(0));
    s3 := Do(Do(Do(s, Begin(0, id, Expire)), Check(0)), Resolve(0));
  }

  /** Exactly: with no release under way, some run still removes a legacy ref if and only if
      a legacy row of the branch at the ref's commit is left. */
  lemma LegacyRefGoesExactly(s: Repo, branch: string, sha: Sha)
    requires Reachable(s) && s.releases == map[] && Holds(s.refs, LEGACY_PREFIX + branch, sha)
    ensures (exists steps, t :: Run(s, steps, t) && !Holds(t.refs, LEGACY_PREFIX + branch, sha))
            <==> exists id :: id in s.rows && LegacyRowAt(s.rows[id], branch, sha)
  {
    if id :| id in s.rows && LegacyRowAt(s.rows[id], branch, sha) {
      var xs, m := SharersGo(s, id);
      var ys, t := LastOneTakesRef(m, id);
      hide Run;
      RunConcat(s, xs, m, ys, t);
      assert !Holds(t.refs, LEGACY_PREFIX + branch, sha);
    } else {
      ReachableInv(s);
      assert Leaked(s, branch, sha);
      forall steps, t | Run(s, steps, t) ensures Holds(t.refs, LEGACY_PREFIX + branch, sha) {
        PassedOverLegacyRefStays(s, steps, t, branch, sha);
      }
    }
  }

  // --------------------------------------------------------------- forgotten event refs

  predicate EventRowAt(r: Row, id: Id, sha: Sha) {
    r.archiveRef == EventRef(id) && r.sha == sha
  }

  /** Somebody who could still remove the event's ref remembers it at its commit. */
  ghost predicate Remembered(s: Repo, id: Id, sha: Sha) {
    || (id in s.rows && EventRowAt(s.rows[id], id, sha))
    || (id in s.pending && s.pending[id].sha == sha)
    || (id in s.orphans && s.orphans[id].sha == sha)
    || exists p :: p in s.releases && s.releases[p].id == id && EventRowAt(s.releases[p].row, id, sha)
  }

  // Nobody comes to know an old event again.
  lemma StaysForgotten(s: Repo, step: Step, id: Id, sha: Sha)
    requires RowsInv(s) && ReleaseInv(s) && Guard(s, step) && id in s.used && !Remembered(s, id, sha)
    ensures id in Do(s, step).used && !Remembered(Do(s, step), id, sha)
  {
    var s' := Do(s, step);
    ForgottenRecords(s, step, id, sha);
    forall p | p in s'.releases && s'.releases[p].id == id ensures !EventRowAt(s'.releases[p].row, id, sha) {
      ForgottenRelease(s, step, id, sha, p);
    }
    hide Do, Guard, RowsInv, ReleaseInv, EventRowAt;
  }

  lemma ForgottenRecords(s: Repo, step: Step, id: Id, sha: Sha)
    requires RowsInv(s) && Guard(s, step) && id in s.used && !Remembered(s, id, sha)
    ensures var s' := Do(s, step);
            && id in s'.used
            && !(id in s'.rows && EventRowAt(s'.rows[id], id, sha))
            && !(id in s'.pending && s'.pending[id].sha == sha)
            && !(id in s'.orphans && s'.orphans[id].sha == sha)
  {
    hide SharedLegacy, Pruned, EventRef, ArchivalRef;
  }

  lemma ForgottenRelease(s: Repo, step: Step, id: Id, sha: Sha, p: nat)
    requires RowsInv(s) && Guard(s, step) && !Remembered(s, id, sha) && p in Do(s, step).releases
              && Do(s, step).releases[p].id == id
    ensures !EventRowAt(Do(s, step).releases[p].row, id, sha)
  {
    if step.Begin? && step.p == p {
      assert Do(s, step).releases[p].row == s.rows[id];
    } else {
      StageAfter(s, step, p);
      hide Do, Guard;
    }
  }

  lemma ForgottenRefStays(s: Repo, step: Step, id: Id, sha: Sha)
    requires RowsInv(s) && ReleaseInv(s) && Guard(s, step) && !Remembered(s, id, sha) && id in s.used
    requires Holds(s.refs, EventRef(id), sha)
    ensures Holds(Do(s, step).refs, EventRef(id), sha)
  {
    SpacesAreDisjoint(id, "");
    if step.DeleteRef? {
      ForgottenDelete(s, step.p, id, sha);
    } else if !Holds(Do(s, step).refs, EventRef(id), sha) {
      PaperbinRefMoves(s, step, EventRef(id), sha);
      PrefixInjective(EVENT_PREFIX, id, step.id);
    }
    hide Do, RowsInv, ReleaseInv;
  }

  // A release of another row names another ref; one of this row expects another commit.
  lemma ForgottenDelete(s: Repo, p: nat, id: Id, sha: Sha)
    requires RowsInv(s) && ReleaseInv(s) && At(s, p, Deleting) && !Remembered(s, id, sha)
    requires Holds(s.refs, EventRef(id), sha)
    ensures Holds(Do(s, DeleteRef(p)).refs, EventRef(id), sha)
  {
    var x := s.releases[p];
    assert ReleaseOk(s, x);
    SpacesAreDisjoint(id, x.row.branch);
    if x.row.archiveRef == EventRef(id) && x.id != id {
      PrefixInjective(EVENT_PREFIX, id, x.id);
    }
    assert x.id == id ==> !EventRowAt(x.row, id, sha);
    hide EventRef, RowsInv, ReleaseInv, SharedLegacy;
  }

  /** An event ref nobody remembers stays through every run. */
  lemma {:induction false} ForgottenEventRefStays(s: Repo, steps: seq<Step>, t: Repo, id: Id, sha: Sha)
    requires Inv(s) && Run(s, steps, t) && id in s.used && !Remembered(s, id, sha) && Holds(s.refs, EventRef(id), sha)
    ensures Holds(t.refs, EventRef(id), sha) && !Remembered(t, id, sha)
    decreases |steps|
  {
    assert RowsInv(s) && ReleaseInv(s);
    hide Inv, Guard, Do, Remembered, RowsInv, ReleaseInv, EventRef;
    if steps != [] {
      StepKeepsInv(s, steps[0]);
      StaysForgotten(s, steps[0], id, sha);
      ForgottenRefStays(s, steps[0], id, sha);
      ForgottenEventRefStays(Do(s, steps[0]), steps[1..], t, id, sha);
    }
  }

  lemma EventRowResolves(s: Repo, id: Id) returns (s3: Repo)
    requires s.releases == map[] && id in s.rows && EventRowAt(s.rows[id], id, s.rows[id].sha)
    requires Holds(s.refs, EventRef(id), s.rows[id].sha)
    ensures Run(s, [Begin(0, id, Expire), Check(0), Resolve(0)], s3)
    ensures s3.refs == s.refs && s3.releases == map[0 := Release(id, s.rows[id], Expire, Deleting)]
  {
    assert EventRef(id) != "";
    hide EventRef, SharedLegacy;
    RunThree(s, Begin(0, id, Expire), Check(0), Resolve(0));
    s3 := Do(Do(Do(s, Begin(0, id, Expire)), Check(0)), Resolve(0));
  }

  // An event row with nothing in the way takes its ref with it.
  lemma EventRowTakesRef(s: Repo, id: Id) returns (steps: seq<Step>, t: Repo)
    requires s.releases == map[] && id in s.rows && EventRowAt(s.rows[id], id, s.rows[id].sha)
    requires Holds(s.refs, EventRef(id), s.rows[id].sha)
    ensures Run(s, steps, t) && EventRef(id) !in t.refs
  {
    var s3 := EventRowResolves(s, id);
    assert EventRef(id) != "";
    hide EventRef;
    t := Do(s3, DeleteRef(0));
    OneStep(s3, DeleteRef(0));
    hide Run;
    RunConcat(s, [Begin(0, id, Expire), Check(0), Resolve(0)], s3, [DeleteRef(0)], t);
    steps := [Begin(0, id, Expire), Check(0), Resolve(0)] + [DeleteRef(0)];
  }

  lemma PendingTakesRef(s: Repo, id: Id) returns (steps: seq<Step>, t: Repo)
    requires RowsInv(s) && s.releases == map[] && id in s.pending && Holds(s.refs, EventRef(id), s.pending[id].sha)
    ensures Run(s, steps, t) && EventRef(id) !in t.refs
  {
    var m := Do(s, Insert);
    OneStep(s, Insert);
    hide EventRef, RowsInv;
    var rest;
    rest, t := EventRowTakesRef(m, id);
    hide Run;
    RunConcat(s, [Insert], m, rest, t);
    steps := [Insert] + rest;
  }

  lemma RememberedGoes(s: Repo, id: Id, sha: Sha) returns (steps: seq<Step>, t: Repo)
    requires Inv(s) && s.releases == map[] && Holds(s.refs, EventRef(id), sha) && Remembered(s, id, sha)
    ensures Run(s, steps, t) && !Holds(t.refs, EventRef(id), sha)
  {
    hide EventRef;
    if id in s.rows && EventRowAt(s.rows[id], id, sha) {
      steps, t := EventRowTakesRef(s, id);
    } else if id in s.pending && s.pending[id].sha == sha {
      steps, t := PendingTakesRef(s, id);
    } else {
      steps, t := [CleanOrphan(id)], Do(s, CleanOrphan(id));
      OneStep(s, CleanOrphan(id));
    }
  }

  /** Exactly: with no release under way, some run still removes an event ref if and only if
      the event's row, its record to be inserted, or the clean-up of its failed insert is left
      and has the ref's commit. */
  lemma EventRefGoesExactly(s: Repo, id: Id, sha: Sha)
    requires Reachable(s) && s.releases == map[] && id in s.used && Holds(s.refs, EventRef(id), sha)
    ensures (exists steps, t :: Run(s, steps, t) && !Holds(t.refs, EventRef(id), sha)) <==> Remembered(s, id, sha)
  {
    ReachableInv(s);
    if Remembered(s, id, sha) {
      var steps, t := RememberedGoes(s, id, sha);
      hide Run;
      assert Run(s, steps, t) && !Holds(t.refs, EventRef(id), sha);
    } else {
      forall steps, t | Run(s, steps, t) ensures Holds(t.refs, EventRef(id), sha) {
        ForgottenEventRefStays(s, steps, t, id, sha);
      }
    }
  }

  /** A restore goes on to drop the row when the release of its ref fails, and an expiry drops
      it when there is nothing on disk; if nobody else is at the row the ref is forgotten. */
  lemma FailedReleaseForgets(s: Repo, p: nat, skip: bool)
    requires Reachable(s) && p in s.releases && s.releases.Keys == {p}
    requires var x := s.releases[p];
             && x.row.archiveRef == EventRef(x.id) && Protected(s, x.id) && s.rows[x.id] == x.row
             && if skip then x.stage.Checking?
                else x.kind.Restore? && (x.stage.Checking? || x.stage.Resolving? || x.stage.Deleting?)
    ensures var x, step := s.releases[p], if skip then SkipRelease(p) else FailRelease(p);
            Guard(s, step) && Guard(Do(s, step), DeleteRow(p))
            && var t := Do(Do(s, step), DeleteRow(p));
            x.id !in t.rows && Holds(t.refs, EventRef(x.id), x.row.sha) && !Remembered(t, x.id, x.row.sha)
  {
    ReachableInv(s);
    var x := s.releases[p];
    assert ReleaseOk(s, x);
    assert EventRef(x.id) != "";
    var m := Do(s, if skip then SkipRelease(p) else FailRelease(p));
    var t := Do(m, DeleteRow(p));
    assert m.releases.Keys == {p} && t.releases == map[];
  }

  // ---------------------------------------------------------------------- restore

  // Another restore takes the branch to another commit.
  predicate TakesBranch(s: Repo, step: Step, branch: string, sha: Sha) {
    step.MakeBranch? && step.p in s.releases && s.releases[step.p].row.branch == branch
        && s.releases[step.p].row.sha != sha
  }

  /** One step: a branch that is not the checked-out one keeps its commit unless a restore of
      another commit takes it, and then it does not. */
  lemma BranchStays(s: Repo, step: Step, branch: string, sha: Sha)
    requires ReleaseInv(s) && Guard(s, step) && Holds(s.refs, HEADS_PREFIX + branch, sha)
              && HEADS_PREFIX + branch != s.head
    ensures Holds(Do(s, step).refs, HEADS_PREFIX + branch, sha) <==> !TakesBranch(s, step, branch, sha)
  {
    SpacesAreDisjoint(branch, "");
    hide SharedLegacy, Pruned;
    match step
    case Archive(id, _) => SpacesAreDisjoint(id, "");
    case CleanOrphan(id) => SpacesAreDisjoint(id, "");
    case MakeBranch(p) =>
      if HEADS_PREFIX + s.releases[p].row.branch == HEADS_PREFIX + branch {
        PrefixInjective(HEADS_PREFIX, s.releases[p].row.branch, branch);
      }
    case DeleteRef(p) => ArchivalRefIsNoBranch(s, p, branch);
    case _ =>
  }

  lemma ArchivalRefIsNoBranch(s: Repo, p: nat, branch: string)
    requires ReleaseInv(s) && p in s.releases
    ensures ArchivalRef(s.releases[p].row) != HEADS_PREFIX + branch
  {
    var x := s.releases[p];
    assert ReleaseOk(s, x);
    SpacesAreDisjoint(branch, "");
    SharedRefs(x.id, x.row, if x.id == "" then "x" else "", Row("", "", ""));
  }

  lemma HeadIsFixed(s: Repo, step: Step)
    requires Guard(s, step)
    ensures Do(s, step).head == s.head
  {
    hide SharedLegacy, Pruned, ArchivalRef;
  }

  /** And being the checked-out branch is what puts a restored one into a fetch's hands. */
  lemma FetchTakesOnlyTheHead(s: Repo, branch: string, sha: Sha)
    requires s.fetch.Before? && Holds(s.refs, HEADS_PREFIX + branch, sha)
    ensures (forall refs :: Guard(s, FetchMoves(refs)) ==> Holds(refs, HEADS_PREFIX + branch, sha)) <==>
              HEADS_PREFIX + branch != s.head
  {
    if HEADS_PREFIX + branch == s.head {
      SpacesAreDisjoint(branch, "");
      var refs := s.refs - {s.head};
      assert Guard(s, FetchMoves(refs)) && !Holds(refs, HEADS_PREFIX + branch, sha);
    }
  }

  ghost predicate NeverTaken(s: Repo, steps: seq<Step>, t: Repo, branch: string, sha: Sha)
    requires Run(s, steps, t)
    decreases |steps|
  {
    steps == [] || (!TakesBranch(s, steps[0], branch, sha) && NeverTaken(Do(s, steps[0]), steps[1..], t, branch, sha))
  }

  lemma {:induction false} BranchStaysAlong(s: Repo, steps: seq<Step>, t: Repo, branch: string, sha: Sha)
    requires Inv(s) && Run(s, steps, t) && Holds(s.refs, HEADS_PREFIX + branch, sha)
    requires HEADS_PREFIX + branch != s.head && NeverTaken(s, steps, t, branch, sha)
    ensures Holds(t.refs, HEADS_PREFIX + branch, sha)
    decreases |steps|
  {
    assert ReleaseInv(s);
    hide Inv, Guard, Do, TakesBranch;
    if steps != [] {
      StepKeepsInv(s, steps[0]);
      HeadIsFixed(s, steps[0]);
      BranchStays(s, steps[0], branch, sha);
      BranchStaysAlong(Do(s, steps[0]), steps[1..], t, branch, sha);
    }
  }

  /** Restore: the branch is made before the archival ref is touched, so the commit is
      reachable at every step of it and afterwards: by its archival ref until the
      branch exists, and by the branch from then on, if it is not the checked-out one,
      until another restore takes it to another commit. */
  lemma RestoreKeepsCommitReachable(s: Repo, p: nat, steps: seq<Step>, t: Repo)
    requires Reachable(s) && At(s, p, Branching) && Run(Do(s, MakeBranch(p)), steps, t)
    requires HEADS_PREFIX + s.releases[p].row.branch != s.head
    requires NeverTaken(Do(s, MakeBranch(p)), steps, t, s.releases[p].row.branch, s.releases[p].row.sha)
    ensures Protected(s, s.releases[p].id) ==> Protected(Do(s, MakeBranch(p)), s.releases[p].id)
    ensures Holds(t.refs, HEADS_PREFIX + s.releases[p].row.branch, s.releases[p].row.sha)
  {
    ReachableInv(s);
    StepKeepsInv(s, MakeBranch(p));
    if Protected(s, s.releases[p].id) {
      StepProtects(s, MakeBranch(p), s.releases[p].id);
    }
    BranchStaysAlong(Do(s, MakeBranch(p)), steps, t, s.releases[p].row.branch, s.releases[p].row.sha);
  }

  ghost predicate Held(refs: Refs, c: Sha) {
    exists r :: r in refs && refs[r] == c
  }

  /** Exactly: after a restore has made its branch a commit is held by some ref if and only
      if it is the restored one, or a ref other than that branch held it before. */
  lemma RestoreKeepsExactly(s: Repo, p: nat, c: Sha)
    requires At(s, p, Branching)
    ensures Held(Do(s, MakeBranch(p)).refs, c) <==>
              || c == s.releases[p].row.sha
              || exists r :: r in s.refs && r != HEADS_PREFIX + s.releases[p].row.branch && s.refs[r] == c
  {
    var ref, refs := HEADS_PREFIX + s.releases[p].row.branch, Do(s, MakeBranch(p)).refs;
    assert ref in refs && refs[ref] == s.releases[p].row.sha;
    if r :| r in s.refs && r != ref && s.refs[r] == c {
      assert r in refs && refs[r] == c;
    }
    if Held(refs, c) {
      var r :| r in refs && refs[r] == c;
      assert r != ref ==> r in s.refs && s.refs[r] == c;
    }
  }

  /** The condition is needed.  `git branch -f` lets the restore of a second event of
      the same branch take the branch over, and with it the only ref of a commit whose
      own restore has already released its archival ref. */
  lemma SecondRestoreDropsFirst(s: Repo, p: nat, sha: Sha)
    requires At(s, p, Branching) && s.releases[p].row.sha != sha
    requires Holds(s.refs, HEADS_PREFIX + s.releases[p].row.branch, sha)
    requires forall r :: r in s.refs && r != HEADS_PREFIX + s.releases[p].row.branch ==> s.refs[r] != sha
    ensures forall r :: r in Do(s, MakeBranch(p)).refs ==> Do(s, MakeBranch(p)).refs[r] != sha
  {
  }

  /** Any two deletions of one branch, restored one after the other, reach such a state. */
  lemma TwoRestoresOfOneBranch(id1: Id, id2: Id, branch: string, c1: Sha, c2: Sha) returns (s: Repo)
    requires id1 != id2 && c1 != c2
    ensures Reachable(s) && At(s, 1, Branching) && s.releases[1].row.branch == branch && s.releases[1].row.sha == c2
    ensures Holds(s.refs, HEADS_PREFIX + branch, c1) && id1 !in s.rows
    ensures forall r :: r in s.refs && r != HEADS_PREFIX + branch ==> s.refs[r] != c1
  {
    var row1, row2 := Row(branch, c1, EventRef(id1)), Row(branch, c2, EventRef(id2));
    SpacesAreDisjoint(id1, branch);
    SpacesAreDisjoint(id2, branch);
    SpacesAreDisjoint(branch, "");
    SharedRefs(id1, row1, id2, row2);
    assert EventRef(id1) != "" && EventRef(id2) != "";
    var rest := Repo("", map[EventRef(id1) := c1, EventRef(id2) := c2], map[id1 := row1, id2 := row2], NoFetch,
                     map[], map[], {id1, id2}, map[]);
    hide EventRef;
    var m := RestoreOne(rest, id1);
    s := Do(m, Begin(1, id2, Restore));
    var rest', steps :| AtRest(rest') && Run(rest', steps, m);
    OneStep(m, Begin(1, id2, Restore));
    RunConcat(rest', steps, m, [Begin(1, id2, Restore)], s);
  }

  // One whole restore from rest.
  lemma RestoreOne(rest: Repo, id: Id) returns (m: Repo)
    requires AtRest(rest) && Protected(rest, id) && !HasLegacyRef(rest.rows[id])
    requires ArchivalRef(rest.rows[id]) != HEADS_PREFIX + rest.rows[id].branch
    ensures Reachable(m)
    ensures var r := rest.rows[id];
            m == rest.(refs := rest.refs[HEADS_PREFIX + r.branch := r.sha] - {ArchivalRef(r)}, rows := rest.rows - {id})
  {
    assert rest.releases == map[];
    hide ArchivalRef, AtRest;
    var begun := Do(rest, Begin(0, id, Restore));
    var restore := ReleaseSteps(begun, 0);
    var r := rest.rows[id];
    m := begun.(refs := begun.refs[HEADS_PREFIX + r.branch := r.sha] - {ArchivalRef(r)}, rows := begun.rows - {id},
                releases := begun.releases - {0});
    OneStep(rest, Begin(0, id, Restore));
    RunConcat(rest, [Begin(0, id, Restore)], begun, restore, m);
    assert m.releases == map[];
  }

  lemma OneStep(s: Repo, step: Step)
    requires Guard(s, step)
    ensures Run(s, [step], Do(s, step))
  {
    assert [step][1..] == [];
    assert Run(Do(s, step), [], Do(s, step));
  }

  // An undisturbed restore: first the branch and the look at the ref,
  lemma ResolveSteps(s: Repo, p: nat) returns (steps: seq<Step>)
    requires At(s, p, Branching) && !HasLegacyRef(s.releases[p].row)
    requires Holds(s.refs, ArchivalRef(s.releases[p].row), s.releases[p].row.sha)
    requires ArchivalRef(s.releases[p].row) != HEADS_PREFIX + s.releases[p].row.branch
    ensures var x := s.releases[p];
            Run(s, steps, s.(refs := s.refs[HEADS_PREFIX + x.row.branch := x.row.sha],
                releases := s.releases[p := x.(stage := Deleting)]))
  {
    hide ArchivalRef;
    var x := s.releases[p];
    var s1 := Do(s, MakeBranch(p));
    var s2 := Do(s1, Check(p));
    var t := Do(s2, Resolve(p));
    assert t.releases == s.releases[p := x.(stage := Deleting)];
    RunThree(s, MakeBranch(p), Check(p), Resolve(p));
    steps := [MakeBranch(p), Check(p), Resolve(p)];
  }

  // then the ref and the row.
  lemma DropSteps(s: Repo, p: nat) returns (steps: seq<Step>)
    requires At(s, p, Deleting) && Holds(s.refs, ArchivalRef(s.releases[p].row), s.releases[p].row.sha)
    ensures var x := s.releases[p];
            Run(s, steps, s.(refs := s.refs - {ArchivalRef(x.row)}, rows := s.rows - {x.id},
                releases := s.releases - {p}))
  {
    hide ArchivalRef;
    var s1 := Do(s, DeleteRef(p));
    var t := Do(s1, DeleteRow(p));
    assert t.releases == s.releases - {p};
    steps := [DeleteRef(p), DeleteRow(p)];
    assert steps[1..] == [DeleteRow(p)] && steps[1..][1..] == [];
    assert Run(t, [], t);
  }

  lemma RunThree(s: Repo, a: Step, b: Step, c: Step)
    requires Guard(s, a) && Guard(Do(s, a), b) && Guard(Do(Do(s, a), b), c)
    ensures Run(s, [a, b, c], Do(Do(Do(s, a), b), c))
  {
    hide Guard, Do;
    var t := Do(Do(Do(s, a), b), c);
    assert [a, b, c][1..] == [b, c] && [b, c][1..] == [c] && [c][1..] == [];
    assert Run(t, [], t);
    assert Run(Do(Do(s, a), b), [c], t);
    assert Run(Do(s, a), [b, c], t);
  }

  lemma ReleaseSteps(s: Repo, p: nat) returns (steps: seq<Step>)
    requires At(s, p, Branching) && !HasLegacyRef(s.releases[p].row)
    requires Holds(s.refs, ArchivalRef(s.releases[p].row), s.releases[p].row.sha)
    requires ArchivalRef(s.releases[p].row) != HEADS_PREFIX + s.releases[p].row.branch
    ensures var x := s.releases[p];
            Run(s, steps, s.(refs := s.refs[HEADS_PREFIX + x.row.branch := x.row.sha] - {ArchivalRef(x.row)},
                             rows := s.rows - {x.id}, releases := s.releases - {p}))
  {
    hide ArchivalRef, Run, Do;
    var x := s.releases[p];
    var m := s.(refs := s.refs[HEADS_PREFIX + x.row.branch := x.row.sha],
        releases := s.releases[p := x.(stage := Deleting)]);
    var xs := ResolveSteps(s, p);
    var ys := DropSteps(m, p);
    assert m.releases - {p} == s.releases - {p};
    RunConcat(s, xs, m, ys, m.(refs := m.refs - {ArchivalRef(x.row)}, rows := m.rows - {x.id},
        releases := m.releases - {p}));
    steps := xs + ys;
  }

  lemma {:induction false} RunConcat(s: Repo, xs: seq<Step>, m: Repo, ys: seq<Step>, t: Repo)
    requires Run(s, xs, m) && Run(m, ys, t)
    ensures Run(s, xs + ys, t)
    decreases |xs|
  {
    hide Guard, Do;
    if xs == [] {
      assert xs + ys == ys;
    } else {
      RunConcat(Do(s, xs[0]), xs[1..], m, ys, t);
      assert (xs + ys)[1..] == xs[1..] + ys;
    }
  }
}
