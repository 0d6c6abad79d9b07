/**
 The full list of matched rules, characterised without the walk: exactly the
 places whose rule and every ancestor match, in document order.
 */
module CascadeOrder {
  import opened Base
  import opened Cascade

  /** The rule at a place among siblings whose first has index k, provided it and all its ancestors match. */
  function Lookup<W, C>(m: W -> bool, rules: seq<Rule<W, C>>, k: nat, place: Place): Option<Rule<W, C>>
    decreases place
  {
    if place == [] || place[0] < k || place[0] - k >= |rules| then None
    else
      var r := rules[place[0] - k];
      if !m(r.when) then None
      else if |place| == 1 then Some(r)
      else Lookup(m, r.nested, 0, place[1..])
  }

  /** Document order: a rule comes before its descendants, and siblings in order. */
  predicate DocBefore(a: Place, b: Place) {
    if b == [] then false
    else if a == [] then true
    else a[0] < b[0] || (a[0] == b[0] && DocBefore(a[1..], b[1..]))
  }

  predicate Under(place: Place, parent: Place) {
    |parent| <= |place| && place[..|parent|] == parent
  }

  lemma {:induction false} DocBeforeUnder(parent: Place, a: Place, b: Place)
    ensures DocBefore(parent + a, parent + b) <==> DocBefore(a, b)
  {
    if parent == [] {
      assert parent + a == a && parent + b == b;
    } else {
      assert (parent + a)[1..] == parent[1..] + a && (parent + b)[1..] == parent[1..] + b;
      DocBeforeUnder(parent[1..], a, b);
    }
  }

  ghost predicate InOrder<W, C>(items: seq<Item<W, C>>) {
    forall i, j :: 0 <= i < j < |items| ==> DocBefore(items[i].hit.place, items[j].hit.place)
  }

  /** An item's size reaches over exactly its descendants. */
  ghost predicate Sized<W, C>(items: seq<Item<W, C>>) {
    forall i, j :: 0 <= i < j < |items| ==> (j < End(items, i) <==> Under(items[j].hit.place, items[i].hit.place))
  }

  /** The item is the rule found at its own place. */
  ghost predicate Found<W, C>(m: W -> bool, rules: seq<Rule<W, C>>, parent: Place, k: nat, h: Hit<W, C>) {
    && Under(h.place, parent)
    && var r := Lookup(m, rules, k, h.place[|parent|..]);
       r.Some? && h == HitOf(r.value, h.place)
  }

  ghost predicate Listed<W, C>(items: seq<Item<W, C>>, place: Place) {
    exists i :: 0 <= i < |items| && items[i].hit.place == place
  }

  /** The list of a sibling range: found, complete, in order and rightly sized. */
  ghost predicate Exact<W, C>(m: W -> bool, rules: seq<Rule<W, C>>, parent: Place, k: nat, items: seq<Item<W, C>>) {
    && (forall i :: 0 <= i < |items| ==> Found(m, rules, parent, k, items[i].hit))
    && (forall path :: Lookup(m, rules, k, path).Some? ==> Listed(items, parent + path))
    && InOrder(items) && Nested(items) && Sized(items)
  }

  lemma ListedConcat<W, C>(a: seq<Item<W, C>>, b: seq<Item<W, C>>, place: Place)
    requires Listed(a, place) || Listed(b, place)
    ensures Listed(a + b, place)
  {
    if Listed(a, place) {
      var i :| 0 <= i < |a| && a[i].hit.place == place;
      assert (a + b)[i].hit.place == place;
    } else {
      var i :| 0 <= i < |b| && b[i].hit.place == place;
      assert (a + b)[|a| + i].hit.place == place;
    }
  }

  lemma OrderAcross(parent: Place, a: Place, b: Place)
    requires Under(a, parent) && Under(b, parent) && |a| > |parent| && |b| > |parent| && a[|parent|] < b[|parent|]
    ensures DocBefore(a, b)
  {
    DocBeforeUnder(parent, a[|parent|..], b[|parent|..]);
    assert a == parent + a[|parent|..] && b == parent + b[|parent|..];
  }

  lemma OrderBelow(parent: Place, b: Place)
    requires Under(b, parent) && |b| > |parent|
    ensures DocBefore(parent, b)
  {
  }

  /** What the first sibling contributes. */
  ghost predicate ExactFirst<W, C>(m: W -> bool, rules: seq<Rule<W, C>>, parent: Place, k: nat, a: seq<Item<W, C>>)
    requires rules != []
  {
    && InOrder(a) && Nested(a) && Sized(a)
    && (forall i :: 0 <= i < |a| ==>
          Found(m, rules, parent, k, a[i].hit) && |a[i].hit.place| > |parent| && a[i].hit.place[|parent|] == k)
    && (forall path :: Lookup(m, rules, k, path).Some? && path[0] == k ==> Listed(a, parent + path))
  }

  /** A rule above its descendants keeps the list in order and rightly sized. */
  lemma AboveOrdered<W, C>(h: Hit<W, C>, sub: seq<Item<W, C>>)
    requires InOrder(sub) && Nested(sub) && Sized(sub)
    requires forall j :: 0 <= j < |sub| ==> Under(sub[j].hit.place, h.place) && |sub[j].hit.place| > |h.place|
    ensures var a := Above(h, sub); InOrder(a) && Nested(a) && Sized(a)
  {
    var a := Above(h, sub);
    forall i | 0 < i < |a| ensures a[i] == sub[i - 1] && End(a, i) == 1 + End(sub, i - 1) && End(sub, i - 1) <= |sub| {
    }
    forall i, j | 0 <= i < j < |a|
      ensures DocBefore(a[i].hit.place, a[j].hit.place)
      ensures j < End(a, i) <==> Under(a[j].hit.place, a[i].hit.place)
    {
      if i == 0 {
        OrderBelow(h.place, sub[j - 1].hit.place);
      } else {
        assert j - 1 < End(sub, i - 1) <==> Under(sub[j - 1].hit.place, sub[i - 1].hit.place);
      }
    }
  }

  lemma BelowParent<W, C>(m: W -> bool, rules: seq<Rule<W, C>>, parent: Place, k: nat, h: Hit<W, C>)
    requires Found(m, rules, parent, k, h)
    ensures Under(h.place, parent) && |h.place| > |parent|
  {
  }

  lemma {:induction false} FirstExact<W, C>(m: W -> bool, rules: seq<Rule<W, C>>, parent: Place, k: nat)
    requires rules != []
    ensures ExactFirst(m, rules, parent, k, Flat(m, rules[0], parent + [k]))
    decreases rules, 0
  {
    var r := rules[0];
    var a := Flat(m, r, parent + [k]);
    if m(r.when) {
      var sub := FlatAll(m, r.nested, parent + [k], 0);
      AllExact(m, r.nested, parent + [k], 0);
      forall i | 0 <= i < |sub| ensures Under(sub[i].hit.place, parent + [k]) && |sub[i].hit.place| > |parent + [k]| {
        BelowParent(m, r.nested, parent + [k], 0, sub[i].hit);
      }
      AboveOrdered(HitOf(r, parent + [k]), sub);
      forall i | 0 <= i < |a|
        ensures Found(m, rules, parent, k, a[i].hit) && |a[i].hit.place| > |parent| && a[i].hit.place[|parent|] == k
      {
      }
      forall path | Lookup(m, rules, k, path).Some? && path[0] == k ensures Listed(a, parent + path) {
        if |path| == 1 {
          assert path == [k] && a[0].hit.place == parent + path;
        } else {
          assert Listed(sub, parent + [k] + path[1..]);
          assert parent + [k] + path[1..] == parent + path;
          ListedConcat([a[0]], sub, parent + path);
        }
      }
    }
  }

  /** Every rule that matches with all its ancestors is listed, nothing else is, and the list is in document order. */
  lemma {:induction false} AllExact<W, C>(m: W -> bool, rules: seq<Rule<W, C>>, parent: Place, k: nat)
    ensures Exact(m, rules, parent, k, FlatAll(m, rules, parent, k))
    decreases rules, 1
  {
    if rules == [] {
    } else {
      var a, b := Flat(m, rules[0], parent + [k]), FlatAll(m, rules[1..], parent, k + 1);
      FirstExact(m, rules, parent, k);
      AllExact(m, rules[1..], parent, k + 1);
      Join(m, rules, parent, k, a, b);
    }
  }

  /** Two lists whose places part ways right under the parent. */
  lemma JoinOrdered<W, C>(parent: Place, k: nat, a: seq<Item<W, C>>, b: seq<Item<W, C>>)
    requires InOrder(a) && Nested(a) && Sized(a) && InOrder(b) && Nested(b) && Sized(b)
    requires forall i :: 0 <= i < |a| ==>
               Under(a[i].hit.place, parent) && |a[i].hit.place| > |parent| && a[i].hit.place[|parent|] == k
    requires forall i :: 0 <= i < |b| ==>
               Under(b[i].hit.place, parent) && |b[i].hit.place| > |parent| && b[i].hit.place[|parent|] > k
    ensures InOrder(a + b) && Nested(a + b) && Sized(a + b)
  {
    var items := a + b;
    NestedConcat(a, b);
    forall i, j | 0 <= i < j < |items|
      ensures DocBefore(items[i].hit.place, items[j].hit.place)
      ensures j < End(items, i) <==> Under(items[j].hit.place, items[i].hit.place)
    {
      if j < |a| {
        assert End(items, i) == End(a, i);
      } else if i < |a| {
        OrderAcross(parent, a[i].hit.place, b[j - |a|].hit.place);
        assert End(items, i) == End(a, i) <= |a|;
        assert items[j].hit.place[|parent|] != items[i].hit.place[|parent|];
      } else {
        assert End(items, |a| + (i - |a|)) == |a| + End(b, i - |a|);
        assert j - |a| < End(b, i - |a|) <==> Under(b[j - |a|].hit.place, b[i - |a|].hit.place);
      }
    }
  }

  lemma Join<W, C>(m: W -> bool, rules: seq<Rule<W, C>>, parent: Place, k: nat, a: seq<Item<W, C>>, b: seq<Item<W, C>>)
    requires rules != [] && ExactFirst(m, rules, parent, k, a) && Exact(m, rules[1..], parent, k + 1, b)
    ensures Exact(m, rules, parent, k, a + b)
  {
    var items := a + b;
    forall i | 0 <= i < |b|
      ensures Found(m, rules, parent, k, b[i].hit) && |b[i].hit.place| > |parent| && b[i].hit.place[|parent|] > k
    {
    }
    JoinOrdered(parent, k, a, b);
    forall path | Lookup(m, rules, k, path).Some? ensures Listed(items, parent + path) {
      if path[0] != k {
        assert rules[1..][path[0] - (k + 1)] == rules[path[0] - k];
        assert Lookup(m, rules[1..], k + 1, path) == Lookup(m, rules, k, path);
      }
      ListedConcat(a, b, parent + path);
    }
  }

  /**
   The walk in closed form: the matched chain is the document-order list of the rules that match with all their
   ancestors, cut right after the subtree of the first final rule to finish; the walk halts iff some listed rule is
   final.
   */
  lemma WalkClosedForm<W, C>(m: W -> bool, rules: seq<Rule<W, C>>)
    ensures exists items, c ::
              && Exact(m, rules, [], 0, items) && IsCut(items, c)
              && VisitAll(m, rules, [], 0) == (Hits(items)[..c], HasFinal(items))
  {
    var items := FlatAll(m, rules, [], 0);
    AllExact(m, rules, [], 0);
    var c := VisitAllExplained(m, rules, [], 0);
    assert Exact(m, rules, [], 0, items) && IsCut(items, c);
  }
}
