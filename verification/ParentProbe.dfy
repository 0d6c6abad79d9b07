/**
 The parents an expiring pool asks to have probed.
 */
module ParentProbe {
  import opened Sorting
  import opened Base
  import A = Alert
  import opened Dispatch

  function DependsOn(pool: Pool, x: string): seq<string>
    requires x in pool
  {
    pool[x].entry.row.dependsOn
  }

  /** Every place in the pool where an entry names the parent. */
  ghost function Places(pool: Pool, parent: string): set<(string, int)> {
    set x, i | x in pool && 0 <= i < |DependsOn(pool, x)| && DependsOn(pool, x)[i] == parent :: (x, i)
  }

  /** The places visited so far: all of the entries outside todo, and the first n names of entry at. */
  ghost function Visited(pool: Pool, todo: set<string>, at: string, n: int, parent: string): set<(string, int)> {
    set p | p in Places(pool, parent) && (p.0 !in todo || (p.0 == at && p.1 < n))
  }

  function CountOf(counts: map<string, nat>, p: string): nat {
    if p in counts then counts[p] else 0
  }

  function Bumped(counts: map<string, nat>, parent: string): map<string, nat> {
    counts[parent := CountOf(counts, parent) + 1]
  }

  ghost predicate TalliedFor(pool: Pool, counts: map<string, nat>, todo: set<string>, at: string, n: int, p: string) {
    CountOf(counts, p) == if p in pool then 0 else |Visited(pool, todo, at, n, p)|
  }

  ghost predicate Tallied(pool: Pool, counts: map<string, nat>, todo: set<string>, at: string, n: int) {
    forall p :: TalliedFor(pool, counts, todo, at, n, p)
  }

  lemma VisitNext(pool: Pool, todo: set<string>, at: string, n: nat, p: string)
    requires at in pool && at in todo && n < |DependsOn(pool, at)|
    ensures |Visited(pool, todo, at, n + 1, p)| ==
              |Visited(pool, todo, at, n, p)| + if DependsOn(pool, at)[n] == p then 1 else 0
  {
    assert (at, n) !in Visited(pool, todo, at, n, p);
    assert Visited(pool, todo, at, n + 1, p) ==
           Visited(pool, todo, at, n, p) + if DependsOn(pool, at)[n] == p then {(at, n)} else {};
  }

  /** Visiting one more name of an entry. */
  lemma TalliedNext(pool: Pool, counts: map<string, nat>, todo: set<string>, at: string, n: nat)
    requires at in pool && at in todo && n < |DependsOn(pool, at)| && Tallied(pool, counts, todo, at, n)
    ensures var parent := DependsOn(pool, at)[n];
            Tallied(pool, if parent in pool then counts else Bumped(counts, parent), todo, at, n + 1)
  {
    var parent := DependsOn(pool, at)[n];
    var next := if parent in pool then counts else Bumped(counts, parent);
    var m := n + 1;
    forall p ensures TalliedFor(pool, next, todo, at, m, p) {
      assert TalliedFor(pool, counts, todo, at, n, p);
      VisitNext(pool, todo, at, n, p);
    }
  }

  /** Moving between entries visits nothing. */
  lemma TalliedMoves(pool: Pool, counts: map<string, nat>, todo: set<string>, at: string, next: string)
    requires todo <= pool.Keys
    ensures Tallied(pool, counts, todo, at, 0) ==> Tallied(pool, counts, todo, next, 0)
    ensures at in todo && Tallied(pool, counts, todo, at, |DependsOn(pool, at)|) ==>
              Tallied(pool, counts, todo - {at}, next, 0)
  {
    forall p
      ensures Tallied(pool, counts, todo, at, 0) ==> TalliedFor(pool, counts, todo, next, 0, p)
      ensures at in todo && Tallied(pool, counts, todo, at, |DependsOn(pool, at)|) ==>
                TalliedFor(pool, counts, todo - {at}, next, 0, p)
    {
      assert Visited(pool, todo, at, 0, p) == Visited(pool, todo, next, 0, p);
      assert Tallied(pool, counts, todo, at, 0) ==> TalliedFor(pool, counts, todo, at, 0, p);
      if at in todo {
        var n := |DependsOn(pool, at)|;
        assert Visited(pool, todo, at, n, p) == Visited(pool, todo - {at}, next, 0, p);
        assert Tallied(pool, counts, todo, at, n) ==> TalliedFor(pool, counts, todo, at, n, p);
      }
    }
  }

  /** A parent worth probing: outside a pool of at least two, and named there at least twice. */
  ghost predicate Hot(pool: Pool, parent: string) {
    |pool| >= 2 && parent !in pool && |Places(pool, parent)| >= 2
  }

  /** The hot parents, sorted. */
  method HotParents(pool: Pool) returns (hot: seq<string>)
    ensures Ascending(hot)
    ensures forall p :: p in hot <==> Hot(pool, p)
  {
    if |pool| < 2 {
      return [];
    }
    var counts: map<string, nat> := map[];
    var todo := pool.Keys;
    forall p ensures TalliedFor(pool, counts, todo, "", 0, p) {
      assert Visited(pool, todo, "", 0, p) == {};
    }
    while todo != {}
      invariant todo <= pool.Keys && Tallied(pool, counts, todo, "", 0)
      decreases |todo|
    {
      var x :| x in todo;
      TalliedMoves(pool, counts, todo, "", x);
      var deps := DependsOn(pool, x);
      for i := 0 to |deps|
        invariant Tallied(pool, counts, todo, x, i)
      {
        TalliedNext(pool, counts, todo, x, i);
        if deps[i] in pool {
          continue;
        }
        counts := Bumped(counts, deps[i]);
      }
      TalliedMoves(pool, counts, todo, x, "");
      todo := todo - {x};
    }
    forall p ensures CountOf(counts, p) == if p in pool then 0 else |Places(pool, p)| {
      assert TalliedFor(pool, counts, {}, "", 0, p) && Visited(pool, {}, "", 0, p) == Places(pool, p);
    }
    hot := SortedKeys(set p | p in counts && counts[p] >= 2);
  }

  /** List a set of slugs in order. */
  method SortedKeys(keys: set<string>) returns (s: seq<string>)
    ensures Lists(s, keys)
  {
    var todo := keys;
    s := [];
    ghost var done: set<string> := {};
    while todo != {}
      invariant todo <= keys && done == keys - todo && Lists(s, done)
      decreases |todo|
    {
      var k :| k in todo;
      InsertLists(s, done, k);
      s := Insert(s, k);
      done := done + {k};
      todo := todo - {k};
    }
  }

  ghost predicate Shared(pool: Pool, parent: string) {
    exists x, y :: x in pool && y in pool && x != y && parent in DependsOn(pool, x) && parent in DependsOn(pool, y)
  }

  ghost predicate NamedTwiceBy(pool: Pool, parent: string, x: string) {
    && x in pool
    && exists i, j :: 0 <= i < j < |DependsOn(pool, x)| && DependsOn(pool, x)[i] == DependsOn(pool, x)[j] == parent
  }

  lemma TwoPlaces(s: set<(string, int)>)
    ensures |s| >= 2 <==> exists a, b :: a in s && b in s && a != b
  {
    if a, b :| a in s && b in s && a != b {
      assert {a, b} <= s && |{a, b}| == 2;
      assert s == {a, b} + (s - {a, b});
    }
    if |s| >= 2 {
      var a :| a in s;
      assert |s - {a}| >= 1;
      var b :| b in s - {a};
    }
  }

  lemma SharedIsNamedTwice(pool: Pool, parent: string)
    requires Shared(pool, parent)
    ensures exists a, b :: a in Places(pool, parent) && b in Places(pool, parent) && a != b
  {
    var x, y :| x in pool && y in pool && x != y && parent in DependsOn(pool, x) && parent in DependsOn(pool, y);
    var i :| 0 <= i < |DependsOn(pool, x)| && DependsOn(pool, x)[i] == parent;
    var j :| 0 <= j < |DependsOn(pool, y)| && DependsOn(pool, y)[j] == parent;
    assert (x, i) in Places(pool, parent) && (y, j) in Places(pool, parent);
  }

  lemma ListedTwiceIsNamedTwice(pool: Pool, parent: string, x: string)
    requires NamedTwiceBy(pool, parent, x)
    ensures exists a, b :: a in Places(pool, parent) && b in Places(pool, parent) && a != b
  {
    var i, j :| 0 <= i < j < |DependsOn(pool, x)| && DependsOn(pool, x)[i] == DependsOn(pool, x)[j] == parent;
    assert (x, i) in Places(pool, parent) && (x, j) in Places(pool, parent);
  }

  lemma TwoPlacesNameIt(pool: Pool, parent: string, a: (string, int), b: (string, int))
    requires a in Places(pool, parent) && b in Places(pool, parent) && a != b
    ensures Shared(pool, parent) || NamedTwiceBy(pool, parent, a.0)
  {
    assert parent in DependsOn(pool, a.0) && parent in DependsOn(pool, b.0);
  }

  /** What is counted: a parent is named twice when two entries share it, or when one entry lists it twice. */
  lemma HotIff(pool: Pool, parent: string)
    ensures |Places(pool, parent)| >= 2 <==> Shared(pool, parent) || exists x :: NamedTwiceBy(pool, parent, x)
  {
    TwoPlaces(Places(pool, parent));
    if a, b :| a in Places(pool, parent) && b in Places(pool, parent) && a != b {
      TwoPlacesNameIt(pool, parent, a, b);
    }
    if Shared(pool, parent) {
      SharedIsNamedTwice(pool, parent);
    }
    if x :| NamedTwiceBy(pool, parent, x) {
      ListedTwiceIsNamedTwice(pool, parent, x);
    }
  }

  /** Sharing takes two entries. */
  lemma SharedNeedsTwo(pool: Pool, parent: string)
    requires Shared(pool, parent)
    ensures |pool| >= 2
  {
    var x, y :| x in pool && y in pool && x != y && parent in DependsOn(pool, x) && parent in DependsOn(pool, y);
    SubsetSize({x, y}, pool.Keys);
    assert |pool.Keys| == |pool|;
  }

  /**
   The hot parents are the shared ones outside the pool iff, in a pool of at least two, no entry lists an unshared one
   twice.
   */
  lemma HotIsSharedIff(pool: Pool)
    ensures (forall p :: Hot(pool, p) <==> p !in pool && Shared(pool, p)) <==>
              (|pool| >= 2 ==> forall p, x :: p !in pool && NamedTwiceBy(pool, p, x) ==> Shared(pool, p))
  {
    forall p
      ensures |Places(pool, p)| >= 2 <==> Shared(pool, p) || exists x :: NamedTwiceBy(pool, p, x)
      ensures Shared(pool, p) ==> |pool| >= 2
    {
      HotIff(pool, p);
      if Shared(pool, p) {
        SharedNeedsTwo(pool, p);
      }
    }
  }

  function Waiting(slug: string, dependsOn: seq<string>): PendingEntry {
    PendingEntry(Entry(MemberInfo(slug, slug, [], ""), A.MonitorRow(slug, dependsOn, A.Up, None, None), None, []), 1)
  }

  /** The two do differ: a lists p twice and b lists nothing, so p is hot without being shared. */
  lemma HotWithoutSharing()
    ensures var pool := map["a" := Waiting("a", ["p", "p"]), "b" := Waiting("b", [])];
            Hot(pool, "p") && !Shared(pool, "p")
  {
    var pool := map["a" := Waiting("a", ["p", "p"]), "b" := Waiting("b", [])];
    assert DependsOn(pool, "a")[0] == DependsOn(pool, "a")[1] == "p" && DependsOn(pool, "b") == [];
    assert NamedTwiceBy(pool, "p", "a");
    HotIff(pool, "p");
    assert pool.Keys == {"a", "b"};
  }
}
