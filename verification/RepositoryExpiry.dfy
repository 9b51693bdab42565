/** The expiry loop over soft-deleted repositories (performCleanup in
    internal/gitops/cleanup_worker.go): rows first, in one transaction, then the files.
    Paths are sequences of names; removing a directory removes everything below it.
  */
module RepositoryExpiry {
  import opened Wrappers
  import opened PaperbinWork

  type Id = string
  type Path = seq<string>

  // The storage path is parent + [base]; soft delete keeps its archive under parent/paperbin.
  datatype Repository = Repository(parent: Path, base: string, deletedAt: Option<int>, retentionDays: int)

  function StoragePath(r: Repository): Path {
    r.parent + [r.base]
  }

  function PaperbinPath(id: Id, r: Repository): Path {
    r.parent + ["paperbin", id]
  }

  function ArchivePath(id: Id, r: Repository): Path {
    r.parent + ["paperbin", id + ".tar.gz"]
  }

  /** What a repository owns: its checkout and its paperbin folder with all below them, and
      its archive. */
  predicate Owns(id: Id, r: Repository, f: Path) {
    StoragePath(r) <= f || PaperbinPath(id, r) <= f || f == ArchivePath(id, r)
  }

  /** The three places a repository's files are in. */
  lemma OwnsExactly(id: Id, r: Repository, f: Path)
    ensures Owns(id, r, f) <==>
              || r.parent + [r.base] <= f
              || r.parent + ["paperbin", id] <= f
              || f == r.parent + ["paperbin", id + ".tar.gz"]
  {
  }

  // -------------------------------------------------------------- who owns which file

  /** The names the service gives out: shards/ab/cd under the storage root, and there a
      directory named after the 36-character identifier. */
  predicate Canonical(root: Path, id: Id, r: Repository) {
    |id| == 36 && r.base == id && r.parent == root + ["shards", id[0..2], id[2..4]]
  }

  ghost predicate AllCanonical(root: Path, repos: map<Id, Repository>) {
    forall id :: id in repos ==> Canonical(root, id, repos[id])
  }

  // A repository's files have its identifier, or its archive's name, at a fixed depth.
  lemma OwnedNames(root: Path, id: Id, r: Repository, f: Path)
    requires Canonical(root, id, r) && Owns(id, r, f)
    ensures |f| >= |root| + 4
    ensures if f[|root| + 3] == "paperbin" then |f| >= |root| + 5
              && f[|root| + 4] in {id, id + ".tar.gz"} else f[|root| + 3] == id
  {
    var n := |root|;
    assert r.parent[n + 2] == id[2..4] && |r.parent| == n + 3;
    if StoragePath(r) <= f {
      assert f[n + 3] == StoragePath(r)[n + 3] == id;
    } else if PaperbinPath(id, r) <= f {
      assert f[n + 3] == PaperbinPath(id, r)[n + 3] == "paperbin";
      assert f[n + 4] == PaperbinPath(id, r)[n + 4] == id;
    } else {
      assert f[n + 3] == "paperbin" && f[n + 4] == id + ".tar.gz";
    }
  }

  /** No file lies in two repositories, neither the same nor one below the other's. */
  lemma FilesAreDisjoint(root: Path, id: Id, r: Repository, id': Id, r': Repository, f: Path)
    requires Canonical(root, id, r) && Canonical(root, id', r') && id != id'
    ensures !(Owns(id, r, f) && Owns(id', r', f))
  {
    if Owns(id, r, f) && Owns(id', r', f) {
      OwnedNames(root, id, r, f);
      OwnedNames(root, id', r', f);
      ArchiveNames(id, id');
      hide Owns, Canonical;
      assert false;
    }
  }

  lemma ArchiveNames(id: Id, id': Id)
    requires |id| == |id'| && id != id'
    ensures id + ".tar.gz" != id' + ".tar.gz" && id + ".tar.gz" != id' && id != id' + ".tar.gz"
  {
    assert (id + ".tar.gz")[..|id|] == id && (id' + ".tar.gz")[..|id|] == id';
  }

  /** The names matter: one repository's storage path below another's goes with it. */
  lemma NestedPathsAreShared(id: Id, r: Repository, id': Id, r': Repository)
    requires StoragePath(r) <= r'.parent
    ensures Owns(id, r, StoragePath(r')) && Owns(id', r', StoragePath(r'))
  {
    assert StoragePath(r')[..|r'.parent|] == r'.parent;
    assert StoragePath(r) == r'.parent[..|StoragePath(r)|] == StoragePath(r')[..|StoragePath(r)|];
  }

  // -------------------------------------------------------------------------- the loop

  // Soft-deleted, out of its retention, and the transaction commits.
  predicate Purges(r: Repository, now: int, committed: bool) {
    r.deletedAt.Some? && Expired(r.retentionDays, r.deletedAt.value, now) && committed
  }

  ghost function Purged(repos: map<Id, Repository>, now: int, commits: set<Id>): set<Id> {
    set id | id in repos && Purges(repos[id], now, id in commits)
  }

  // Everything the given repositories own, as far as it can be removed and their paths lie in the tree.
  ghost predicate Swept(repos: map<Id, Repository>, gone: set<Id>, inside: set<Path>, stuck: set<Path>, f: Path) {
    f !in stuck && exists id :: id in gone && id in repos && StoragePath(repos[id]) in inside && Owns(id, repos[id], f)
  }

  class Store {
    const root: Path
    var repos: map<Id, Repository>
    var branches: map<Id, Id>       // deleted_branches rows, by their repository
    var jobs: map<Id, Id>           // clone_jobs rows, by their repository
    var disk: set<Path>

    constructor (root: Path, repos: map<Id, Repository>, branches: map<Id, Id>, jobs: map<Id, Id>, disk: set<Path>)
      ensures this.root == root && this.repos == repos && this.branches == branches && this.jobs == jobs
                && this.disk == disk
    {
      this.root, this.repos, this.branches, this.jobs, this.disk := root, repos, branches, jobs, disk;
    }

    /** The pass with nobody else at work: rows go with all that belongs to them or not at all,
        and files only of repositories whose rows are gone: exactly what those own, `stuck`
        files apart. */
    method ExpireRepositories(now: int, commits: set<Id>, inside: set<Path>, stuck: set<Path>)
      modifies this
      ensures repos == old(repos) - Purged(old(repos), now, commits)
      ensures branches == Kept(old(branches), Purged(old(repos), now, commits))
      ensures jobs == Kept(old(jobs), Purged(old(repos), now, commits))
      ensures forall f :: f in disk <==>
                f in old(disk) && !Swept(old(repos), Purged(old(repos), now, commits), inside, stuck, f)
      ensures forall id :: id in old(repos) && id !in repos ==>
                && old(repos)[id].deletedAt.Some?
                && Expired(old(repos)[id].retentionDays, old(repos)[id].deletedAt.value, now)
      ensures AllCanonical(root, old(repos)) ==>
                forall id, f :: id in repos && Owns(id, repos[id], f) ==> (f in disk <==> f in old(disk))
    {
      PurgeListed(repos, now, commits, inside, stuck);
    }

    /** The loop over the repositories as they were listed.  Each transaction deletes by
        identifier and does not look at deleted_at again: a repository restored since the
        listing is purged, row and files, exactly if its listed row was due and the
        transaction commits. */
    method PurgeListed(listed: map<Id, Repository>, now: int, commits: set<Id>, inside: set<Path>, stuck: set<Path>)
      modifies this
      ensures repos == old(repos) - Purged(listed, now, commits)
      ensures forall id :: id in old(repos) && old(repos)[id].deletedAt.None? ==>
                (id !in repos <==> id in listed && Purges(listed[id], now, id in commits))
      ensures branches == Kept(old(branches), Purged(listed, now, commits))
      ensures jobs == Kept(old(jobs), Purged(listed, now, commits))
      ensures forall f :: f in disk <==>
                f in old(disk) && !Swept(listed, Purged(listed, now, commits), inside, stuck, f)
      // of a purged repository within the storage tree nothing removable is left
      ensures forall id, f ::
                && id in listed && Purges(listed[id], now, id in commits)
                && listed[id].parent + [listed[id].base] in inside
                && f in disk && f !in stuck ==>
                  && !(listed[id].parent + [listed[id].base] <= f)
                  && !(listed[id].parent + ["paperbin", id] <= f)
                  && f != listed[id].parent + ["paperbin", id + ".tar.gz"]
      ensures AllCanonical(root, listed) && AllCanonical(root, old(repos)) ==>
                forall id, f :: id in repos && Owns(id, repos[id], f) ==> (f in disk <==> f in old(disk))
    {
      var todo := listed.Keys;
      ghost var purged, was := Purged(listed, now, commits), repos;
      KeptAll(branches, purged - todo);
      KeptAll(jobs, purged - todo);
      assert purged - todo == {};
      while todo != {}
        invariant todo <= listed.Keys && repos == was - (purged - todo)
        invariant branches == Kept(old(branches), purged - todo) && jobs == Kept(old(jobs), purged - todo)
        invariant forall f :: f in disk <==> f in old(disk) && !Swept(listed, purged - todo, inside, stuck, f)
      {
        hide Owns, Swept, Kept;
        var id :| id in todo;
        var repo := listed[id];
        TakeOne(purged, todo, id);
        if Purges(repo, now, id in commits) {
          ghost var gone := purged - todo;
          DropRows(id, old(branches), old(jobs), gone);
          SweptMore(listed, gone, inside, stuck, id);
          if StoragePath(repo) in inside {
            RemoveFiles(id, repo, stuck);
          }
        }
        todo := todo - {id};
      }
      assert purged - todo == purged;
      NothingOwnedIsLeft(listed, now, commits, inside, stuck, disk);
      if AllCanonical(root, listed) && AllCanonical(root, was) {
        forall id, f | id in repos && Owns(id, repos[id], f) ensures f in disk <==> f in old(disk) {
          FilesFollowRows(root, listed, purged, inside, stuck, id, repos[id], f);
        }
      }
      hide Owns, Swept, Kept, AllCanonical, Purges;
    }

    // The transaction: the repository's branch and job rows, then its own.
    method DropRows(id: Id, ghost branches0: map<Id, Id>, ghost jobs0: map<Id, Id>, ghost gone: set<Id>)
      requires branches == Kept(branches0, gone) && jobs == Kept(jobs0, gone)
      modifies this`repos, this`branches, this`jobs
      ensures repos == old(repos) - {id}
      ensures branches == Kept(branches0, gone + {id}) && jobs == Kept(jobs0, gone + {id})
    {
      KeptMore(branches0, gone, id);
      KeptMore(jobs0, gone, id);
      branches := Without(branches, id);
      jobs := Without(jobs, id);
      repos := repos - {id};
    }

    // The archive, the paperbin directory and the checkout.
    method RemoveFiles(id: Id, r: Repository, stuck: set<Path>)
      modifies this`disk
      ensures forall f :: f in disk <==> f in old(disk) && !(f !in stuck && Owns(id, r, f))
      ensures forall f :: f in old(disk) && f !in disk <==>
                && f in old(disk) && f !in stuck
                && (r.parent + [r.base] <= f || r.parent + ["paperbin", id] <= f
                    || f == r.parent + ["paperbin", id + ".tar.gz"])
    {
      if ArchivePath(id, r) !in stuck {
        disk := disk - {ArchivePath(id, r)};
      }
      RemoveAll(PaperbinPath(id, r), stuck);
      RemoveAll(StoragePath(r), stuck);
    }

    // os.RemoveAll, as far as it gets.
    method RemoveAll(top: Path, stuck: set<Path>)
      modifies this`disk
      ensures forall f :: f in disk <==> f in old(disk) && (f in stuck || !(top <= f))
    {
      disk := set f | f in disk && (f in stuck || !(top <= f));
    }
  }

  // The rows that belong to none of the given repositories.
  ghost function Kept(rows: map<Id, Id>, gone: set<Id>): map<Id, Id> {
    map k | k in rows && rows[k] !in gone :: rows[k]
  }

  function Without(rows: map<Id, Id>, id: Id): map<Id, Id> {
    map k | k in rows && rows[k] != id :: rows[k]
  }

  lemma KeptMore(rows: map<Id, Id>, gone: set<Id>, id: Id)
    ensures Without(Kept(rows, gone), id) == Kept(rows, gone + {id})
  {
  }

  lemma KeptAll(rows: map<Id, Id>, gone: set<Id>)
    ensures gone == {} ==> Kept(rows, gone) == rows
  {
  }

  lemma NothingOwnedIsLeft(listed: map<Id, Repository>, now: int, commits: set<Id>, inside: set<Path>,
                           stuck: set<Path>, disk: set<Path>)
    requires forall f :: f in disk ==> !Swept(listed, Purged(listed, now, commits), inside, stuck, f)
    ensures forall id, f ::
              && id in listed && Purges(listed[id], now, id in commits)
              && listed[id].parent + [listed[id].base] in inside
              && f in disk && f !in stuck ==>
                && !(listed[id].parent + [listed[id].base] <= f)
                && !(listed[id].parent + ["paperbin", id] <= f)
                && f != listed[id].parent + ["paperbin", id + ".tar.gz"]
  {
    forall id, f |
      && id in listed && Purges(listed[id], now, id in commits) && listed[id].parent + [listed[id].base] in inside
      && f in disk && f !in stuck
      ensures !Owns(id, listed[id], f)
    {
      assert id in Purged(listed, now, commits);
      assert StoragePath(listed[id]) in inside;
      hide Owns, Purged;
    }
  }

  lemma SweptMore(repos: map<Id, Repository>, gone: set<Id>, inside: set<Path>, stuck: set<Path>, id: Id)
    requires id in repos
    ensures forall f :: Swept(repos, gone + {id}, inside, stuck, f) <==>
              Swept(repos, gone, inside, stuck, f)
                  || (f !in stuck && StoragePath(repos[id]) in inside && Owns(id, repos[id], f))
  {
    hide Owns, StoragePath;
  }

  /** A repository that keeps its row keeps every file, and a purged one inside the tree keeps
      none that could be removed. */
  lemma FilesFollowRows(root: Path, repos: map<Id, Repository>, gone: set<Id>, inside: set<Path>, stuck: set<Path>,
                        id: Id, r: Repository, f: Path)
    requires AllCanonical(root, repos) && Canonical(root, id, r) && Owns(id, r, f)
    ensures id !in gone ==> !Swept(repos, gone, inside, stuck, f)
    ensures id in gone && id in repos && repos[id] == r && StoragePath(r) in inside && f !in stuck ==>
              Swept(repos, gone, inside, stuck, f)
  {
    forall k | k in repos && k != id ensures !Owns(k, repos[k], f) {
      FilesAreDisjoint(root, id, r, k, repos[k], f);
    }
    hide Owns, StoragePath, Canonical;
  }
}
