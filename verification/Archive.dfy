/** Soft delete and restore of a repository's directory
    (internal/services/repository_service.go): the archive walk, the extractor, and the
    disk and row steps of DeleteRepository and RestoreRepository around them.
  */
module Archive {
  import opened Wrappers

  type Path = seq<string>

  datatype Item = Dir | File(content: string)

  // What lies under a directory, by path relative to it; the directory itself is [].
  type Items = map<Path, Item>

  datatype Entry = Entry(name: Path, item: Item)

  function Parent(p: Path): Path
    requires p != []
  {
    p[..|p| - 1]
  }

  predicate IsLocal(p: Path) {
    p == [] || p[0] != ".."
  }

  // Every path hangs from a directory.
  ghost predicate Tree(items: Items) {
    forall p :: p in items ==> IsLocal(p) && (p != [] ==> Parent(p) in items && items[Parent(p)].Dir?)
  }

  // ------------------------------------------------------------------------ listings

  // The entries are items under `top`, each once, and each after its parent.
  ghost predicate Listed(items: Items, top: Path, entries: seq<Entry>) {
    && (forall i :: 0 <= i < |entries| ==>
          top <= entries[i].name && entries[i].name in items && items[entries[i].name] == entries[i].item)
    && (forall i, j :: 0 <= i < j < |entries| ==> entries[i].name != entries[j].name)
    && (forall i :: 0 <= i < |entries| && entries[i].name != top ==> HasName(entries[..i], Parent(entries[i].name)))
  }

  predicate HasName(entries: seq<Entry>, p: Path) {
    exists i :: 0 <= i < |entries| && entries[i].name == p
  }

  /** A walk's result: all of the subtree at `top`, each once, parents first. */
  ghost predicate Listing(items: Items, top: Path, entries: seq<Entry>) {
    Listed(items, top, entries) && forall p :: p in items && top <= p ==> HasName(entries, p)
  }

  lemma HasNameAppend(xs: seq<Entry>, ys: seq<Entry>, p: Path)
    ensures HasName(xs + ys, p) <==> HasName(xs, p) || HasName(ys, p)
  {
    if HasName(xs, p) {
      var i :| 0 <= i < |xs| && xs[i].name == p;
      assert (xs + ys)[i].name == p;
    }
    if HasName(ys, p) {
      var i :| 0 <= i < |ys| && ys[i].name == p;
      assert (xs + ys)[|xs| + i].name == p;
    }
  }

  lemma ParentFound(items: Items, top: Path, entries: seq<Entry>, i: nat)
    requires Listed(items, top, entries) && i < |entries| && entries[i].name != top
    ensures HasName(entries[..i], Parent(entries[i].name))
  {
  }

  // A child's own entry hangs from `top`; what is below it hangs from its own listing.
  lemma ParentFoundBelow(items: Items, top: Path, xs: seq<Entry>, n: string, ys: seq<Entry>, k: nat)
    requires Listing(items, top + [n], ys) && HasName(xs, top) && k < |ys|
    ensures HasName(xs + ys[..k], Parent(ys[k].name))
  {
    HasNameAppend(xs, ys[..k], Parent(ys[k].name));
    if ys[k].name == top + [n] {
      assert Parent(top + [n]) == top;
    } else {
      ParentFound(items, top + [n], ys, k);
    }
    hide HasName;
  }

  lemma NamesStayDistinct(items: Items, top: Path, xs: seq<Entry>, n: string, ys: seq<Entry>)
    requires Listed(items, top, xs) && Listed(items, top + [n], ys)
    requires forall i :: 0 <= i < |xs| ==> !(top + [n] <= xs[i].name)
    ensures forall i, j :: 0 <= i < j < |xs + ys| ==> (xs + ys)[i].name != (xs + ys)[j].name
  {
    hide HasName;
    forall i, j | 0 <= i < j < |xs + ys| ensures (xs + ys)[i].name != (xs + ys)[j].name {
      if j < |xs| {
        assert (xs + ys)[i] == xs[i] && (xs + ys)[j] == xs[j];
      } else if i < |xs| {
        assert (xs + ys)[i] == xs[i] && (xs + ys)[j] == ys[j - |xs|];
      } else {
        assert (xs + ys)[i] == ys[i - |xs|] && (xs + ys)[j] == ys[j - |xs|];
      }
    }
  }

  lemma ItemsStayListed(items: Items, top: Path, xs: seq<Entry>, n: string, ys: seq<Entry>, i: nat)
    requires Listed(items, top, xs) && Listed(items, top + [n], ys) && i < |xs + ys|
    ensures var e := (xs + ys)[i]; top <= e.name && e.name in items && items[e.name] == e.item
  {
    hide HasName;
    if i >= |xs| {
      assert (xs + ys)[i] == ys[i - |xs|];
      assert top <= top + [n];
    }
  }

  // A subtree's listing may follow what is already listed above and beside it.
  lemma ListedAppend(items: Items, top: Path, xs: seq<Entry>, n: string, ys: seq<Entry>)
    requires Listed(items, top, xs) && Listing(items, top + [n], ys) && HasName(xs, top)
    requires forall i :: 0 <= i < |xs| ==> !(top + [n] <= xs[i].name)
    ensures Listed(items, top, xs + ys)
  {
    var zs := xs + ys;
    NamesStayDistinct(items, top, xs, n, ys);
    forall i | 0 <= i < |zs| ensures top <= zs[i].name && zs[i].name in items && items[zs[i].name] == zs[i].item {
      ItemsStayListed(items, top, xs, n, ys, i);
    }
    forall i | 0 <= i < |zs| && zs[i].name != top ensures HasName(zs[..i], Parent(zs[i].name)) {
      if i < |xs| {
        ParentFound(items, top, xs, i);
        assert zs[..i] == xs[..i];
      } else {
        ParentFoundBelow(items, top, xs, n, ys, i - |xs|);
        assert zs[..i] == xs + ys[..i - |xs|];
      }
      hide HasName, Listed, Listing;
    }
    hide HasName, Listing;
  }

  // ---------------------------------------------------------------------- extraction

  // Where the archive is unpacked: the path as stored, and what its parent resolves to.
  datatype Place = Place(parent: Path, realParent: Path, base: string)

  function Target(at: Place): Path {
    at.parent + [at.base]
  }

  // No link leads from the parent back below the destination, which does not exist yet.
  predicate Grounded(at: Place) {
    !(Target(at) <= at.realParent)
  }

  // filepath.Rel of the resolved target stays below the destination as it is written.
  predicate Contained(at: Place, name: Path) {
    Target(at) <= at.realParent + [at.base] + name
  }

  // Whether one entry can be written.
  predicate Accepts(at: Place, items: Items, e: Entry) {
    && IsLocal(e.name)
    && (e.name in items || e.name == [] || Parent(e.name) in items)
    && Contained(at, e.name)
    && (e.name in items ==> items[e.name].Dir? == e.item.Dir?)
    && (e.name !in items && e.name != [] ==> items[Parent(e.name)].Dir?)
  }

  // What is on disk once extraction stops, and whether it got through.
  function Extracted(at: Place, items: Items, entries: seq<Entry>): (Items, bool)
    decreases |entries|
  {
    if entries == [] then (items, true)
    else if !Accepts(at, items, entries[0]) then (items, false)
    else Extracted(at, items[entries[0].name := entries[0].item], entries[1..])
  }

  lemma PrefixOfInit(p: Path, q: Path, n: string)
    requires p <= q + [n] && |p| <= |q|
    ensures p <= q
  {
    assert (q + [n])[..|p|] == q[..|p|];
  }

  /** The extraction check compares a resolved target with an unresolved destination, so
      the first entry of any archive is accepted exactly when the destination's parent is
      its own resolution. */
  lemma ContainedExactly(at: Place, name: Path)
    requires Grounded(at)
    ensures Contained(at, []) <==> at.realParent == at.parent
    ensures at.realParent == at.parent ==> Contained(at, name)
  {
    var resolved := at.realParent + [at.base];
    assert resolved + [] == resolved;
    if Target(at) <= resolved {
      if |Target(at)| < |resolved| {
        PrefixOfInit(Target(at), at.realParent, at.base);
        assert false;
      }
      assert at.parent == Target(at)[..|at.parent|] && at.realParent == resolved[..|at.realParent|];
    }
  }

  // Part of a tree that holds the parent of everything it holds.
  ghost predicate Part(items: Items, part: Items) {
    forall p :: p in part ==> p in items && part[p] == items[p]
  }

  lemma {:induction false} ExtractRest(at: Place, items: Items, done: seq<Entry>, part: Items, rest: seq<Entry>)
    requires Tree(items) && at.realParent == at.parent && Listing(items, [], done + rest)
    requires Part(items, part) && forall p :: p in part <==> HasName(done, p)
    ensures Extracted(at, part, rest) == (items, true)
    decreases |rest|
  {
    hide Listing, HasName, Part, Accepts, Tree;
    if rest == [] {
      assert done + rest == done;
      NothingLeft(items, done, part);
    } else {
      var e := rest[0];
      NextAccepted(at, items, done, part, rest);
      NextPart(items, done, part, e);
      assert done + [e] + rest[1..] == done + rest;
      ExtractRest(at, items, done + [e], part[e.name := e.item], rest[1..]);
    }
  }

  lemma NothingLeft(items: Items, done: seq<Entry>, part: Items)
    requires Listing(items, [], done) && Part(items, part) && forall p :: p in part <==> HasName(done, p)
    ensures part == items
  {
    forall p | p in items ensures p in part {
      assert [] <= p;
    }
  }

  lemma NextAccepted(at: Place, items: Items, done: seq<Entry>, part: Items, rest: seq<Entry>)
    requires Tree(items) && at.realParent == at.parent && Listing(items, [], done + rest) && rest != []
    requires Part(items, part) && forall p :: p in part <==> HasName(done, p)
    ensures rest[0].name in items && items[rest[0].name] == rest[0].item && Accepts(at, part, rest[0])
  {
    var e, all := rest[0], done + rest;
    assert all[|done|] == e && all[..|done|] == done;
    assert Contained(at, e.name);
    if e.name != [] {
      assert HasName(all[..|done|], Parent(e.name));
    }
  }

  lemma NextPart(items: Items, done: seq<Entry>, part: Items, e: Entry)
    requires Part(items, part) && forall p :: p in part <==> HasName(done, p)
    requires e.name in items && items[e.name] == e.item
    ensures Part(items, part[e.name := e.item]) && forall p :: p in part[e.name := e.item] <==> HasName(done + [e], p)
  {
    forall p ensures p in part[e.name := e.item] <==> HasName(done + [e], p) {
      HasNameAppend(done, [e], p);
      assert HasName([e], p) <==> e.name == p by { assert [e][0].name == e.name; }
    }
  }

  /** The round trip: extracting any parents-first listing of a tree into an empty place
      gives back exactly its paths, kinds and contents. */
  lemma RoundTrip(at: Place, items: Items, entries: seq<Entry>)
    requires Tree(items) && at.realParent == at.parent && Listing(items, [], entries)
    ensures Extracted(at, map[], entries) == (items, true)
  {
    assert [] + entries == entries;
    assert forall p :: !HasName([], p);
    ExtractRest(at, items, [], map[], entries);
  }

  lemma {:induction false} ParentsPrecede(at: Place, done: seq<Entry>, part: Items, rest: seq<Entry>, i: nat)
    requires Tree(part) && (forall p :: p in part <==> HasName(done, p)) && Extracted(at, part, rest).1
    requires i < |rest| && rest[i].name != []
    ensures HasName(done + rest[..i], Parent(rest[i].name))
    decreases i
  {
    var e := rest[0];
    if i == 0 {
      assert done + rest[..0] == done;
    } else {
      WriteKeepsTree(at, part, e);
      var part' := part[e.name := e.item];
      forall p ensures p in part' <==> HasName(done + [e], p) {
        HasNameAppend(done, [e], p);
        assert HasName([e], p) <==> e.name == p by { assert [e][0].name == e.name; }
      }
      hide Tree, HasName, Accepts;
      ParentsPrecede(at, done + [e], part', rest[1..], i - 1);
      assert done + [e] + rest[1..][..i - 1] == done + rest[..i];
    }
  }

  /** A successful extraction leaves what was there and what the archive lists, nothing else, and
      each path as its last entry has it. */
  lemma {:induction false} ExtractedExactly(at: Place, items: Items, entries: seq<Entry>, p: Path)
    requires Extracted(at, items, entries).1
    ensures p in Extracted(at, items, entries).0 <==> p in items || HasName(entries, p)
    ensures !HasName(entries, p) && p in items ==> Extracted(at, items, entries).0[p] == items[p]
    ensures HasName(entries, p) ==> exists i ::
              && 0 <= i < |entries| && entries[i].name == p && !HasName(entries[i + 1..], p)
              && Extracted(at, items, entries).0[p] == entries[i].item
    decreases |entries|
  {
    if entries != [] {
      var e, rest := entries[0], entries[1..];
      ExtractedExactly(at, items[e.name := e.item], rest, p);
      assert entries == [e] + rest;
      HasNameAppend([e], rest, p);
      assert HasName([e], p) <==> e.name == p by { assert [e][0].name == e.name; }
      hide HasName, Accepts;
      if HasName(rest, p) {
        var i :| 0 <= i < |rest| && rest[i].name == p && !HasName(rest[i + 1..], p)
                 && Extracted(at, items[e.name := e.item], rest).0[p] == rest[i].item;
        assert entries[i + 1] == rest[i] && entries[i + 2..] == rest[i + 1..];
      }
    }
  }

  /** And every step of it was possible: an entry's parent is then a directory, and nothing is a
      file and a directory at once. */
  lemma {:induction false} ExtractedStaysATree(at: Place, items: Items, entries: seq<Entry>)
    requires Tree(items)
    ensures Tree(Extracted(at, items, entries).0)
    decreases |entries|
  {
    if entries != [] && Accepts(at, items, entries[0]) {
      WriteKeepsTree(at, items, entries[0]);
      hide Tree, Accepts;
      ExtractedStaysATree(at, items[entries[0].name := entries[0].item], entries[1..]);
    }
  }

  /** No archive writes outside its destination: an entry whose name begins with ".." stops the
      extraction, and no path beginning so is ever written. */
  lemma {:induction false} EscapeIsRefused(at: Place, items: Items, entries: seq<Entry>, i: nat)
    requires i < |entries| && entries[i].name != [] && entries[i].name[0] == ".."
    ensures !Extracted(at, items, entries).1
    ensures forall p :: p != [] && p[0] == ".." ==> (p in Extracted(at, items, entries).0 <==> p in items)
    decreases |entries|
  {
    hide Contained;
    if Accepts(at, items, entries[0]) {
      EscapeIsRefused(at, items[entries[0].name := entries[0].item], entries[1..], i - 1);
    }
  }

  /** The order is needed: an archive extracts into an empty place only if every entry
      comes after its parent. */
  lemma OrderIsNeeded(at: Place, entries: seq<Entry>, i: nat)
    requires Extracted(at, map[], entries).1 && i < |entries| && entries[i].name != []
    ensures HasName(entries[..i], Parent(entries[i].name))
  {
    assert forall p :: !HasName([], p);
    ParentsPrecede(at, [], map[], entries, i);
    assert [] + entries[..i] == entries[..i];
  }

  /** And below a linked parent nothing is ever extracted. */
  lemma LinkedParentFails(at: Place, items: Items, entries: seq<Entry>)
    requires Grounded(at) && at.realParent != at.parent && Listing(items, [], entries) && Tree(items) && items != map[]
    ensures Extracted(at, map[], entries) == (map[], false)
  {
    ContainedExactly(at, []);
    var p :| p in items;
    assert HasName(entries, p);
    RootComesFirst(items, entries);
  }

  lemma RootComesFirst(items: Items, entries: seq<Entry>)
    requires Listed(items, [], entries) && entries != []
    ensures entries[0].name == []
  {
    assert !HasName(entries[..0], []) && forall p :: !HasName(entries[..0], p);
  }

  // ------------------------------------------------------------------------- the disk

  ghost function Below(items: Items, top: Path): set<Path> {
    set p | p in items && top <= p
  }

  lemma BelowShrinks(items: Items, top: Path, n: string)
    requires top in items
    ensures |Below(items, top + [n])| < |Below(items, top)|
  {
    assert Below(items, top + [n]) <= Below(items, top) - {top};
    SubsetSize(Below(items, top + [n]), Below(items, top) - {top});
  }

  lemma {:induction false} SubsetSize<T>(a: set<T>, b: set<T>)
    requires a <= b
    ensures |a| <= |b|
  {
    if a != {} {
      var x :| x in a;
      SubsetSize(a - {x}, b - {x});
    }
  }

  // ------------------------------------------------------------------------- the walk

  // Nothing listed lies under the children still to be visited.
  ghost predicate Avoids(top: Path, todo: set<string>, entries: seq<Entry>) {
    forall i :: 0 <= i < |entries| && |entries[i].name| > |top| ==> entries[i].name[|top|] !in todo
  }

  // Everything under the children visited is listed, and so is `top`.
  ghost predicate Covered(items: Items, top: Path, seen: set<string>, entries: seq<Entry>) {
    forall p :: p in items && top <= p && (|p| == |top| || p[|top|] in seen) ==> HasName(entries, p)
  }

  lemma ChildIn(items: Items, top: Path, names: set<string>, n: string)
    requires names == set p | p in items && top < p && |p| == |top| + 1 :: p[|top|]
    requires n in names
    ensures top + [n] in items
  {
    var p :| p in items && top < p && |p| == |top| + 1 && p[|top|] == n;
    assert p == top + [n];
  }

  lemma WalkGrows(items: Items, top: Path, entries: seq<Entry>, names: set<string>, todo: set<string>, n: string,
                  below: seq<Entry>)
    requires todo <= names && n in todo && HasName(entries, top)
    requires Listed(items, top, entries) && Avoids(top, todo, entries) && Covered(items, top, names - todo, entries)
    requires Listing(items, top + [n], below)
    ensures HasName(entries + below, top) && Listed(items, top, entries + below)
    ensures Avoids(top, todo - {n}, entries + below) && Covered(items, top, names - (todo - {n}), entries + below)
  {
    assert forall i :: 0 <= i < |entries| && top + [n] <= entries[i].name ==>
        entries[i].name[|top|] == (top + [n])[|top|];
    ListedAppend(items, top, entries, n, below);
    HasNameAppend(entries, below, top);
    CoveredGrows(items, top, names - todo, n, entries, below);
    assert names - (todo - {n}) == names - todo + {n};
    assert forall i :: 0 <= i < |below| ==> top + [n] <= below[i].name && below[i].name[|top|] == (top + [n])[|top|];
  }

  lemma CoveredGrows(items: Items, top: Path, seen: set<string>, n: string, entries: seq<Entry>, below: seq<Entry>)
    requires Covered(items, top, seen, entries) && Listing(items, top + [n], below)
    ensures Covered(items, top, seen + {n}, entries + below)
  {
    forall p | p in items && top <= p && (|p| == |top| || p[|top|] in seen + {n}) ensures HasName(entries + below, p) {
      HasNameAppend(entries, below, p);
      if |p| > |top| && p[|top|] == n {
        assert p[..|top| + 1] == top + [n];
        assert top + [n] <= p;
      }
    }
  }

  lemma {:induction false} PrefixIn(items: Items, p: Path, k: nat)
    requires Tree(items) && p in items && k <= |p|
    ensures p[..k] in items
    decreases |p|
  {
    if k == |p| {
      assert p[..k] == p;
    } else {
      PrefixIn(items, Parent(p), k);
      assert Parent(p)[..k] == p[..k];
    }
  }

  lemma AllCovered(items: Items, top: Path, names: set<string>, entries: seq<Entry>)
    requires Tree(items) && names == set p | p in items && top < p && |p| == |top| + 1 :: p[|top|]
    requires Covered(items, top, names, entries)
    ensures forall p :: p in items && top <= p ==> HasName(entries, p)
  {
    forall p | p in items && top <= p ensures HasName(entries, p) {
      if |p| > |top| {
        PrefixIn(items, p, |top| + 1);
        assert p[..|top| + 1][|top|] == p[|top|];
      }
    }
  }

  class Checkout {
    const place: Place
    var tree: Items                      // the storage path; map[] when nothing is there
    var archive: Option<seq<Entry>>      // the paperbin archive
    var folder: Items                    // an uncompressed paperbin folder of old
    var deleted: bool                    // the row's deleted_at

    ghost predicate Valid()
      reads this
    {
      Tree(tree) && Tree(folder) && Grounded(place)
    }

    constructor (place: Place, tree: Items)
      requires Tree(tree) && Grounded(place)
      ensures Valid() && this.place == place && this.tree == tree && archive == None && folder == map[] && !deleted
    {
      this.place, this.tree := place, tree;
      archive, folder, deleted := None, map[], false;
    }

    /** The walk behind tarGzCompress, from one path down; children in any order. */
    method Walk(top: Path) returns (entries: seq<Entry>)
      requires Tree(tree) && top in tree
      ensures Listing(tree, top, entries)
      decreases |Below(tree, top)|
    {
      entries := [Entry(top, tree[top])];
      assert HasName(entries, top) by { assert entries[0].name == top; }
      var names := set p | p in tree && top < p && |p| == |top| + 1 :: p[|top|];
      var todo := names;
      while todo != {}
        invariant todo <= names && HasName(entries, top)
        invariant Listed(tree, top, entries) && Avoids(top, todo, entries) && Covered(tree, top, names - todo, entries)
      {
        hide Listed, Avoids, Covered, Tree, HasName;
        var n :| n in todo;
        ChildIn(tree, top, names, n);
        BelowShrinks(tree, top, n);
        var below := Walk(top + [n]);
        WalkGrows(tree, top, entries, names, todo, n, below);
        todo := todo - {n};
        entries := entries + below;
      }
      AllCovered(tree, top, names, entries);
      hide Tree, Avoids, Covered;
    }

    /** tarGzCompress of the storage path: on success the archive lists the whole tree; on
        failure it is whatever was written so far. */
    method Compress(writable: bool, leftover: Option<seq<Entry>>) returns (ok: bool)
      requires Valid()
      modifies this`archive
      ensures ok <==> writable && [] in tree
      ensures ok ==> archive.Some? && Listing(tree, [], archive.value)
      ensures !ok ==> archive == leftover
    {
      if writable && [] in tree {
        var entries := Walk([]);
        archive := Some(entries);
        return true;
      }
      archive := leftover;
      return false;
    }

    /** tarGzDecompress into the storage path: entry by entry, stopping at the first one
        that may not be written. */
    method Decompress(entries: seq<Entry>) returns (ok: bool)
      requires Valid()
      modifies this`tree
      ensures Valid() && (tree, ok) == Extracted(place, old(tree), entries)
      ensures (exists i :: 0 <= i < |entries| && entries[i].name != [] && entries[i].name[0] == "..") ==> !ok
    {
      if i :| 0 <= i < |entries| && entries[i].name != [] && entries[i].name[0] == ".." {
        EscapeIsRefused(place, tree, entries, i);
      }
      var i := 0;
      while i < |entries|
        invariant 0 <= i <= |entries| && Tree(tree)
        invariant Extracted(place, old(tree), entries) == Extracted(place, tree, entries[i..])
      {
        var e := entries[i];
        if !IsLocal(e.name) {
          return false;
        }
        if e.name !in tree && e.name != [] && Parent(e.name) !in tree {
          return false;
        }
        if !Contained(place, e.name) {
          return false;
        }
        match e.item {
          case Dir =>
            if (e.name in tree && !tree[e.name].Dir?)
                || (e.name !in tree && e.name != [] && !tree[Parent(e.name)].Dir?) {
              return false;
            }
          case File(_) =>
            if (e.name in tree && tree[e.name].Dir?)
                || (e.name !in tree && e.name != [] && !tree[Parent(e.name)].Dir?) {
              return false;
            }
        }
        assert Accepts(place, tree, e);
        WriteKeepsTree(place, tree, e);
        tree := tree[e.name := e.item];
        i := i + 1;
      }
      return true;
    }

    /** DeleteRepository.  It fails before touching the tree, or ends with the tree in the
        archive and the row deleted.  When the row cannot be deleted the tree comes back
        exactly when the parent of the storage path is its own resolution; below a linked
        parent tree and archive are both gone. */
    method Delete(pathOk: bool, writable: bool, leftover: Option<seq<Entry>>, rowDeleted: bool) returns (ok: bool)
      requires Valid()
      modifies this
      ensures Valid() && folder == old(folder) && (ok <==> !old(deleted) && deleted)
      ensures ok <==> !old(deleted) && pathOk && rowDeleted && (old(tree) == map[] || writable)
      ensures ok ==> tree == map[]
      ensures ok && old(tree) != map[] ==> archive.Some? && Listing(old(tree), [], archive.value)
      ensures old(deleted) || !pathOk ==> tree == old(tree) && archive == old(archive)
      ensures old(tree) != map[] && !writable ==> tree == old(tree)
      ensures !old(deleted) && pathOk && writable && !rowDeleted && old(tree) != map[] ==>
                archive == None && tree == if place.realParent == place.parent then old(tree) else map[]
      ensures !old(deleted) && pathOk && !rowDeleted && old(tree) == map[] ==>
                archive == None && tree == if old(archive).Some? then Extracted(place, map[], old(archive).value).0
                    else map[]
    {
      if deleted || !pathOk {
        return false;
      }
      if tree != map[] {
        RootIn(tree);
        archive := None;
        var packed := Compress(writable, leftover);
        if !packed {
          return false;
        }
        Recovers(place, tree, archive.value);
        tree := map[];
      }
      hide Tree, Listing, Extracted;
      if !rowDeleted {
        if archive.Some? {
          var unpacked := Decompress(archive.value);
          archive := None;
        }
        return false;
      }
      deleted := true;
      return true;
    }

    /** RestoreRepository.  A restore that cannot unpack keeps the archive; one that cannot
        restore the row packs the tree up again, and loses it when the archive cannot be
        written, because the tree is removed either way. */
    method Restore(pathOk: bool, writable: bool, leftover: Option<seq<Entry>>, rowRestored: bool) returns (ok: bool)
      requires Valid()
      modifies this
      ensures Valid() && (ok <==> old(deleted) && !deleted)
      ensures !old(deleted) || !pathOk ==> tree == old(tree) && archive == old(archive) && folder == old(folder)
      ensures ok ==> archive == None && tree == old(Restorable()).0
      ensures ok <==> old(deleted) && pathOk && old(Restorable()).1 && rowRestored
      ensures old(deleted) && pathOk && !old(Restorable()).1 ==> archive == old(archive) && folder == old(folder)
      ensures old(deleted) && pathOk && old(Restorable()).1 && !rowRestored && writable && [] in old(Restorable()).0 ==>
                tree == map[] && archive.Some? && Listing(old(Restorable()).0, [], archive.value)
      ensures old(deleted) && pathOk && old(Restorable()).1 && !rowRestored
                && !(writable && [] in old(Restorable()).0) ==>
                tree == map[] && archive == leftover
    {
      if !deleted || !pathOk {
        return false;
      }
      if archive.Some? {
        tree := map[];
        var unpacked := Decompress(archive.value);
        if !unpacked {
          return false;
        }
        archive := None;
      } else if folder != map[] {
        tree := folder;
        folder := map[];
      }
      hide Tree, Listing, Extracted;
      if !rowRestored {
        var packed := Compress(writable, leftover);
        tree := map[];
        return false;
      }
      deleted := false;
      return true;
    }

    // What a restore would put in place, and whether it can.
    ghost function Restorable(): (Items, bool)
      reads this
    {
      if archive.Some? then Extracted(place, map[], archive.value)
      else if folder != map[] then (folder, true)
      else (tree, true)
    }
  }

  lemma WriteKeepsTree(at: Place, items: Items, e: Entry)
    requires Tree(items) && Accepts(at, items, e)
    ensures Tree(items[e.name := e.item])
  {
  }

  lemma RootIn(items: Items)
    requires Tree(items) && items != map[]
    ensures [] in items
  {
    var p :| p in items;
    PrefixIn(items, p, 0);
    assert p[..0] == [];
  }

  lemma Recovers(at: Place, items: Items, entries: seq<Entry>)
    requires Tree(items) && items != map[] && Grounded(at) && Listing(items, [], entries)
    ensures Extracted(at, map[], entries) == if at.realParent == at.parent then (items, true) else (map[], false)
  {
    if at.realParent == at.parent {
      RoundTrip(at, items, entries);
    } else {
      LinkedParentFails(at, items, entries);
    }
  }

  /** Delete then restore, nothing else failing, gives the working tree back unless the
      parent of the storage path is linked; then the restore fails and keeps the archive. */
  method DeleteThenRestore(c: Checkout) returns (ok: bool)
    requires c.Valid() && !c.deleted && c.tree != map[]
    modifies c
    ensures ok <==> c.place.realParent == c.place.parent
    ensures ok ==> c.tree == old(c.tree) && !c.deleted
    ensures !ok ==> c.deleted && c.archive.Some? && Listing(old(c.tree), [], c.archive.value)
  {
    var gone := c.Delete(true, true, None, true);
    Recovers(c.place, old(c.tree), c.archive.value);
    hide Tree, Listing, Extracted;
    ok := c.Restore(true, true, None, true);
  }
}
