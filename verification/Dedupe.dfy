/** Disk accounting of the shared object pools (internal/gitops/dedupe_savings.go).  The
    pool of a URL and the size of a pool on disk are parameters.
  */
module Dedupe {
  import opened Wrappers

  datatype Savings = Savings(poolCount: int, sharedBytes: int, estimatedSavedBytes: int)

  // How many of the URLs use a pool.
  function Uses(urls: seq<string>, pool: string -> string, p: string): nat {
    if urls == [] then 0
    else Uses(urls[..|urls| - 1], pool, p) + if pool(urls[|urls| - 1]) == p then 1 else 0
  }

  ghost function PoolsOf(urls: seq<string>, pool: string -> string): set<string> {
    set u | u in urls :: pool(u)
  }

  /** What the disk would hold if every repository had its pool to itself. */
  ghost function Total(urls: seq<string>, pool: string -> string, size: string -> nat): nat {
    if urls == [] then 0
    else Total(urls[..|urls| - 1], pool, size) + size(pool(urls[|urls| - 1]))
  }

  // ------------------------------------------------------------------ sums over sets

  ghost function SumOver(s: set<string>, f: string -> int): int {
    if s == {} then 0
    else
      var x :| x in s;
      f(x) + SumOver(s - {x}, f)
  }

  /** The order in which a set is summed does not matter. */
  lemma {:induction false} SumAnyOrder(s: set<string>, f: string -> int, x: string)
    requires x in s
    ensures SumOver(s, f) == f(x) + SumOver(s - {x}, f)
  {
    var y :| y in s && SumOver(s, f) == f(y) + SumOver(s - {y}, f);
    if y != x {
      SumAnyOrder(s - {y}, f, x);
      SumAnyOrder(s - {x}, f, y);
      assert s - {y} - {x} == s - {x} - {y};
    }
  }

  lemma SumGrows(s: set<string>, f: string -> int, x: string)
    ensures x !in s ==> SumOver(s + {x}, f) == SumOver(s, f) + f(x)
  {
    if x !in s {
      SumAnyOrder(s + {x}, f, x);
      assert s + {x} - {x} == s;
    }
  }

  lemma {:induction false} SumSame(s: set<string>, f: string -> int, g: string -> int)
    requires forall x :: x in s ==> f(x) == g(x)
    ensures SumOver(s, f) == SumOver(s, g)
  {
    if s != {} {
      var x :| x in s;
      SumAnyOrder(s, f, x);
      SumAnyOrder(s, g, x);
      SumSame(s - {x}, f, g);
    }
  }

  lemma {:induction false} SumMinus(s: set<string>, f: string -> int, g: string -> int, h: string -> int)
    requires forall x :: x in s ==> f(x) == g(x) - h(x)
    ensures SumOver(s, f) == SumOver(s, g) - SumOver(s, h)
  {
    if s != {} {
      var x :| x in s;
      SumAnyOrder(s, f, x);
      SumAnyOrder(s, g, x);
      SumAnyOrder(s, h, x);
      SumMinus(s - {x}, f, g, h);
    }
  }

  // ------------------------------------------------------------------- the accounting

  ghost function SizeOf(size: string -> nat): string -> int {
    p => size(p)
  }

  ghost function Weight(urls: seq<string>, pool: string -> string, size: string -> nat): string -> int {
    p => size(p) * Uses(urls, pool, p)
  }

  ghost function Saved(urls: seq<string>, pool: string -> string, size: string -> nat): string -> int {
    p => Gain(size(p), Uses(urls, pool, p))
  }

  // What sharing saves on one pool.
  function Gain(size: nat, uses: int): int {
    size * (uses - 1)
  }

  lemma {:induction false} UsesOfPool(urls: seq<string>, pool: string -> string, p: string)
    ensures Uses(urls, pool, p) > 0 <==> p in PoolsOf(urls, pool)
  {
    if urls != [] {
      var n := |urls| - 1;
      UsesOfPool(urls[..n], pool, p);
      assert urls == urls[..n] + [urls[n]];
    }
  }

  lemma PoolsGrow(urls: seq<string>, pool: string -> string, u: string)
    ensures PoolsOf(urls + [u], pool) == PoolsOf(urls, pool) + {pool(u)}
    ensures (urls + [u])[..|urls|] == urls
  {
    forall p ensures p in PoolsOf(urls + [u], pool) <==> p in PoolsOf(urls, pool) + {pool(u)} {
      if p in PoolsOf(urls, pool) {
        var v :| v in urls && pool(v) == p;
        assert v in urls + [u];
      } else if p == pool(u) {
        assert u in urls + [u];
      }
    }
  }

  // One summand more, or one summand larger.
  lemma SumRaised(s: set<string>, f: string -> int, g: string -> int, x: string, more: int)
    requires (forall y :: y in s && y != x ==> g(y) == f(y)) && g(x) == f(x) + more
    requires x !in s ==> f(x) == 0
    ensures SumOver(s + {x}, g) == SumOver(s, f) + more
  {
    SumAnyOrder(s + {x}, g, x);
    assert s + {x} - {x} == s - {x};
    SumSame(s - {x}, f, g);
    if x in s {
      SumAnyOrder(s, f, x);
    } else {
      assert s - {x} == s;
    }
  }

  lemma WeightGrows(urls: seq<string>, pool: string -> string, size: string -> nat, u: string)
    ensures Uses(urls + [u], pool, pool(u)) == Uses(urls, pool, pool(u)) + 1
    ensures Weight(urls + [u], pool, size)(pool(u)) == Weight(urls, pool, size)(pool(u)) + size(pool(u))
    ensures forall p :: p != pool(u) ==> Weight(urls + [u], pool, size)(p) == Weight(urls, pool, size)(p)
  {
    var p := pool(u);
    assert (urls + [u])[..|urls|] == urls;
    assert size(p) * (Uses(urls, pool, p) + 1) == size(p) * Uses(urls, pool, p) + size(p);
    forall q | q != p ensures Weight(urls + [u], pool, size)(q) == Weight(urls, pool, size)(q) {
      assert Uses(urls + [u], pool, q) == Uses(urls, pool, q);
    }
  }

  // Summing URL by URL and pool by pool gives the same.
  lemma {:induction false} TotalByPool(urls: seq<string>, pool: string -> string, size: string -> nat)
    ensures Total(urls, pool, size) == SumOver(PoolsOf(urls, pool), Weight(urls, pool, size))
  {
    if urls != [] {
      var init, u := urls[..|urls| - 1], urls[|urls| - 1];
      assert urls == init + [u];
      TotalByPool(init, pool, size);
      PoolsGrow(init, pool, u);
      WeightGrows(init, pool, size, u);
      UsesOfPool(init, pool, pool(u));
      assert pool(u) !in PoolsOf(init, pool) ==> Weight(init, pool, size)(pool(u)) == 0;
      hide Weight, PoolsOf;
      SumRaised(PoolsOf(init, pool), Weight(init, pool, size), Weight(urls, pool, size), pool(u), size(pool(u)));
    }
  }

  /** The estimate is what sharing saves: all the URLs' pools counted once per URL, less
      each distinct pool once. */
  lemma SavedIsDifference(urls: seq<string>, pool: string -> string, size: string -> nat)
    ensures SumOver(PoolsOf(urls, pool), Saved(urls, pool, size))
            == Total(urls, pool, size) - SumOver(PoolsOf(urls, pool), SizeOf(size))
  {
    TotalByPool(urls, pool, size);
    var pools := PoolsOf(urls, pool);
    forall p | p in pools ensures Saved(urls, pool, size)(p) == Weight(urls, pool, size)(p) - SizeOf(size)(p) {
      assert size(p) * (Uses(urls, pool, p) - 1) == size(p) * Uses(urls, pool, p) - size(p);
    }
    SumMinus(pools, Saved(urls, pool, size), Weight(urls, pool, size), SizeOf(size));
  }

  // The pools that count: on disk, and used at least twice.
  ghost function Shared(urls: seq<string>, pool: string -> string, size: string -> nat): set<string> {
    SharedAmong(urls, pool, size, PoolsOf(urls, pool))
  }

  method CountPools(urls: seq<string>, pool: string -> string) returns (counts: map<string, int>)
    ensures counts.Keys == PoolsOf(urls, pool)
    ensures forall p :: p in counts ==> counts[p] == Uses(urls, pool, p) >= 1
  {
    counts := map[];
    var i := 0;
    while i < |urls|
      invariant 0 <= i <= |urls|
      invariant counts.Keys == PoolsOf(urls[..i], pool)
      invariant forall p :: p in counts ==> counts[p] == Uses(urls[..i], pool, p) >= 1
    {
      var p := pool(urls[i]);
      PoolsGrow(urls[..i], pool, urls[i]);
      UsesOfPool(urls[..i], pool, p);
      assert urls[..i + 1] == urls[..i] + [urls[i]];
      counts := counts[p := (if p in counts then counts[p] else 0) + 1];
      i := i + 1;
    }
    assert urls[..i] == urls;
  }

  /** computeDedupeSavings, for any order in which the map of pools is walked. */
  method ComputeDedupeSavings(urls: seq<string>, pool: string -> string, size: string -> nat) returns (savings: Savings)
    ensures savings.estimatedSavedBytes == Total(urls, pool, size) - SumOver(PoolsOf(urls, pool), SizeOf(size))
    ensures savings.poolCount == |Shared(urls, pool, size)|
    ensures savings.sharedBytes == SumOver(Shared(urls, pool, size), SizeOf(size))
  {
    var counts := CountPools(urls, pool);
    savings := Savings(0, 0, 0);
    var todo := counts.Keys;
    NothingSeen(urls, pool, size, savings);
    while todo != {}
      invariant todo <= counts.Keys && Accounted(urls, pool, size, counts.Keys - todo, savings)
      decreases todo
    {
      hide PoolsOf, Accounted;
      var p :| p in todo;
      savings := AddPool(urls, pool, size, counts.Keys - todo, p, counts[p], savings);
      TakeOne(counts.Keys, todo, p);
      todo := todo - {p};
    }
    assert counts.Keys - todo == counts.Keys;
    SavedIsDifference(urls, pool, size);
    hide SumOver, SizeOf, Saved, Total, PoolsOf;
  }

  lemma NothingSeen(urls: seq<string>, pool: string -> string, size: string -> nat, savings: Savings)
    requires savings == Savings(0, 0, 0)
    ensures forall keys :: Accounted(urls, pool, size, keys - keys, savings)
  {
    assert SharedAmong(urls, pool, size, {}) == {};
    assert Accounted(urls, pool, size, {}, savings);
    assert forall keys: set<string> :: keys - keys == {};
  }

  ghost function SharedAmong(urls: seq<string>, pool: string -> string, size: string -> nat,
                             pools: set<string>): set<string> {
    set p | p in pools && Uses(urls, pool, p) >= 2 && size(p) > 0
  }

  // The totals over the pools seen so far.
  ghost predicate Accounted(urls: seq<string>, pool: string -> string, size: string -> nat, seen: set<string>,
                            savings: Savings) {
    && savings.estimatedSavedBytes == SumOver(seen, Saved(urls, pool, size))
    && savings.poolCount == |SharedAmong(urls, pool, size, seen)|
    && savings.sharedBytes == SumOver(SharedAmong(urls, pool, size, seen), SizeOf(size))
  }

  lemma SharedGrows(urls: seq<string>, pool: string -> string, size: string -> nat, seen: set<string>, p: string)
    ensures var shared := SharedAmong(urls, pool, size, seen);
            p !in seen ==>
            p !in shared
            && SharedAmong(urls, pool, size, seen + {p})
               == if Uses(urls, pool, p) >= 2 && size(p) > 0 then shared + {p} else shared
  {
  }

  method AddPool(ghost urls: seq<string>, ghost pool: string -> string, size: string -> nat, ghost seen: set<string>,
                 p: string,
                 count: int, savings: Savings) returns (savings': Savings)
    requires Accounted(urls, pool, size, seen, savings) && p !in seen && count == Uses(urls, pool, p) >= 1
    ensures Accounted(urls, pool, size, seen + {p}, savings')
  {
    hide Accounted, Gain;
    if count >= 2 && size(p) != 0 {
      SharedPool(urls, pool, size, seen, p, savings);
      return Savings(savings.poolCount + 1, savings.sharedBytes + size(p),
          savings.estimatedSavedBytes + Gain(size(p), count));
    }
    UnsharedPool(urls, pool, size, seen, p, savings);
    return savings;
  }

  lemma SharedPool(urls: seq<string>, pool: string -> string, size: string -> nat, seen: set<string>, p: string,
                   savings: Savings)
    requires Accounted(urls, pool, size, seen, savings) && p !in seen && Uses(urls, pool, p) >= 2 && size(p) > 0
    ensures Accounted(urls, pool, size, seen + {p},
                      Savings(savings.poolCount + 1, savings.sharedBytes + size(p),
                              savings.estimatedSavedBytes + Gain(size(p), Uses(urls, pool, p))))
  {
    hide SumOver, Uses, Saved, SizeOf, Gain, SharedAmong;
    SavedAt(urls, pool, size, p);
    SharedGrows(urls, pool, size, seen, p);
    SumGrows(seen, Saved(urls, pool, size), p);
    SumGrows(SharedAmong(urls, pool, size, seen), SizeOf(size), p);
  }

  lemma UnsharedPool(urls: seq<string>, pool: string -> string, size: string -> nat, seen: set<string>, p: string,
                     savings: Savings)
    requires Accounted(urls, pool, size, seen, savings) && p !in seen && (Uses(urls, pool, p) == 1 || size(p) == 0)
    ensures Accounted(urls, pool, size, seen + {p}, savings)
  {
    hide SumOver, Uses, Saved, SizeOf, Gain, SharedAmong;
    SavedAt(urls, pool, size, p);
    SharedGrows(urls, pool, size, seen, p);
    SumGrows(seen, Saved(urls, pool, size), p);
  }

  // What a pool contributes; nothing unless it is on disk and used twice.
  lemma SavedAt(urls: seq<string>, pool: string -> string, size: string -> nat, p: string)
    ensures SizeOf(size)(p) == size(p)
    ensures Saved(urls, pool, size)(p) == Gain(size(p), Uses(urls, pool, p))
    ensures Uses(urls, pool, p) == 1 || size(p) == 0 ==> Saved(urls, pool, size)(p) == 0
  {
  }
}
