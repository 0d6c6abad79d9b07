/**
 The order on slugs that every operator-facing list is sorted by, and the
 sorted listing of a set of slugs.
 */
module Sorting {

  /** Strict lexicographic order on strings. */
  predicate Before(a: string, b: string) {
    if b == [] then false
    else if a == [] then true
    else a[0] < b[0] || (a[0] == b[0] && Before(a[1..], b[1..]))
  }

  lemma {:induction false} BeforeTotal(a: string, b: string)
    ensures a == b || Before(a, b) || Before(b, a)
  {
    if a != [] && b != [] && a[0] == b[0] {
      BeforeTotal(a[1..], b[1..]);
      assert a == [a[0]] + a[1..] && b == [b[0]] + b[1..];
    }
  }

  lemma {:induction false} BeforeTransitive(a: string, b: string, c: string)
    requires Before(a, b) && Before(b, c)
    ensures Before(a, c)
  {
    if a != [] && a[0] == b[0] == c[0] {
      BeforeTransitive(a[1..], b[1..], c[1..]);
    }
  }

  lemma {:induction false} BeforeIrreflexive(a: string)
    ensures !Before(a, a)
  {
    if a != [] {
      BeforeIrreflexive(a[1..]);
    }
  }

  /** Strictly ascending, hence sorted and free of duplicates. */
  ghost predicate Ascending(s: seq<string>) {
    forall i, j :: 0 <= i < j < |s| ==> Before(s[i], s[j])
  }

  /** s lists exactly the given keys, sorted and without duplicates. */
  ghost predicate Lists(s: seq<string>, keys: set<string>) {
    Ascending(s) && forall k :: k in s <==> k in keys
  }

  /** Insert a key into an ascending list at its place. */
  function Insert(s: seq<string>, k: string): seq<string> {
    if s == [] || Before(k, s[0]) then [k] + s
    else [s[0]] + Insert(s[1..], k)
  }

  lemma {:induction false} InsertLists(s: seq<string>, keys: set<string>, k: string)
    requires Lists(s, keys) && k !in keys
    ensures Lists(Insert(s, k), keys + {k})
  {
    if s == [] {
    } else if Before(k, s[0]) {
      forall j | 0 <= j < |s| ensures Before(k, s[j]) {
        if j > 0 { BeforeTransitive(k, s[0], s[j]); }
      }
      assert forall x :: x in [k] + s <==> x == k || x in s;
    } else {
      BeforeTotal(k, s[0]);
      BeforeIrreflexive(s[0]);
      var rest := keys - {s[0]};
      assert s == [s[0]] + s[1..];
      assert s[0] !in s[1..];
      assert Lists(s[1..], rest);
      InsertLists(s[1..], rest, k);
      var r := Insert(s[1..], k);
      forall j | 0 <= j < |r| ensures Before(s[0], r[j]) {
        assert r[j] in r;
        if r[j] != k {
          assert r[j] in s[1..];
        }
      }
      assert forall x :: x in [s[0]] + r <==> x == s[0] || x in r;
    }
  }

  lemma {:induction false} ListsExists(keys: set<string>)
    ensures exists s :: Lists(s, keys)
  {
    if keys == {} {
      assert Lists([], keys);
    } else {
      var k :| k in keys;
      ListsExists(keys - {k});
      var s :| Lists(s, keys - {k});
      InsertLists(s, keys - {k}, k);
      assert keys - {k} + {k} == keys;
    }
  }

  lemma EmptyIffNoElement(s: seq<string>)
    ensures s == [] <==> forall k :: k !in s
  {
    if s != [] { assert s[0] in s; }
  }

  /** A set of slugs has only one sorted listing. */
  lemma {:induction false} ListsUnique(a: seq<string>, b: seq<string>, keys: set<string>)
    requires Lists(a, keys) && Lists(b, keys)
    ensures a == b
  {
    if a == [] {
      EmptyIffNoElement(b);
    } else {
      assert a[0] in a && a[0] in b;
      assert b[0] in b && b[0] in a;
      var i :| 0 <= i < |b| && b[i] == a[0];
      var j :| 0 <= j < |a| && a[j] == b[0];
      if i > 0 && j > 0 {
        BeforeTransitive(a[0], a[j], a[0]);
      }
      BeforeIrreflexive(a[0]);
      BeforeIrreflexive(b[0]);
      assert a[0] == b[0];
      assert a == [a[0]] + a[1..] && b == [b[0]] + b[1..];
      assert a[0] !in a[1..] && b[0] !in b[1..];
      ListsUnique(a[1..], b[1..], keys - {a[0]});
    }
  }

  /** The sorted listing of a set of slugs. */
  ghost function Listing(keys: set<string>): (s: seq<string>)
    ensures Lists(s, keys)
  {
    ListsExists(keys);
    var s :| Lists(s, keys);
    s
  }

  lemma ListingIs(s: seq<string>, keys: set<string>)
    requires Lists(s, keys)
    ensures s == Listing(keys)
  {
    ListsUnique(s, Listing(keys), keys);
  }

  lemma ListingEmpty(keys: set<string>)
    ensures Listing(keys) == [] <==> keys == {}
  {
    EmptyIffNoElement(Listing(keys));
    assert keys != {} ==> exists k :: k in keys;
  }

  /** xs holds exactly the given keys, each once, in any order. */
  ghost predicate Collects(xs: seq<string>, keys: set<string>) {
    (forall i, j :: 0 <= i < j < |xs| ==> xs[i] != xs[j]) && forall k :: k in xs <==> k in keys
  }

  lemma CollectsOneMore(xs: seq<string>, keys: set<string>, k: string)
    requires Collects(xs, keys) && k !in keys
    ensures Collects(xs + [k], keys + {k})
  {
  }

  /** Sort a list of distinct slugs. */
  function Sort(xs: seq<string>): seq<string> {
    if xs == [] then [] else Insert(Sort(xs[..|xs| - 1]), xs[|xs| - 1])
  }

  lemma {:induction false} SortLists(xs: seq<string>, keys: set<string>)
    requires Collects(xs, keys)
    ensures Lists(Sort(xs), keys) && Sort(xs) == Listing(keys)
  {
    if xs == [] {
      assert Lists([], keys);
    } else {
      var n := |xs| - 1;
      var k := xs[n];
      assert xs == xs[..n] + [k];
      assert k in xs;
      SortLists(xs[..n], keys - {k});
      InsertLists(Sort(xs[..n]), keys - {k}, k);
      assert keys - {k} + {k} == keys;
    }
    ListingIs(Sort(xs), keys);
  }
}
