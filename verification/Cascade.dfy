/**
 The cascading rule tree shared by ingress discovery and alert routing: the
 walk in document order with its halting final rules, and its closed form.
 */
module Cascade {
  import opened Base

  datatype Rule<W, C> = Rule(when: W, ignore: Option<bool>, final: bool, config: C, nested: seq<Rule<W, C>>)

  /** A rule's place in the tree: its index at the top, then its index among each parent's nested rules. */
  type Place = seq<nat>

  /** One matched rule, as the walk records it. */
  datatype Hit<W, C> = Hit(place: Place, when: W, ignore: Option<bool>, final: bool, config: C)

  function HitOf<W, C>(r: Rule<W, C>, place: Place): Hit<W, C> {
    Hit(place, r.when, r.ignore, r.final, r.config)
  }

  // ----- the walk

  /** Visit one rule: the matched rules of its subtree up to the halt, and whether the whole walk halts. */
  function Visit<W, C>(m: W -> bool, r: Rule<W, C>, place: Place): (seq<Hit<W, C>>, bool)
    decreases r, 1
  {
    if !m(r.when) then ([], false)
    else
      var (sub, halted) := VisitAll(m, r.nested, place, 0);
      ([HitOf(r, place)] + sub, halted || r.final)
  }

  /** Visit sibling rules in order, the first of which has index k under the given parent. */
  function VisitAll<W, C>(m: W -> bool, rules: seq<Rule<W, C>>, parent: Place, k: nat): (seq<Hit<W, C>>, bool)
    decreases rules, 0
  {
    if rules == [] then ([], false)
    else
      var (first, halted) := Visit(m, rules[0], parent + [k]);
      if halted then (first, true)
      else
        var (rest, later) := VisitAll(m, rules[1..], parent, k + 1);
        (first + rest, later)
  }

  /** A loop over siblings has found the rules done so far and is about to visit the i-th, unless the walk halted. */
  ghost predicate Midway<W, C>(
    m: W -> bool, rules: seq<Rule<W, C>>, parent: Place, i: nat, done: seq<Hit<W, C>>, halted: bool)
  {
    && i <= |rules|
    && var all := VisitAll(m, rules, parent, 0);
       if halted then all.0 == done && all.1
       else var rest := VisitAll(m, rules[i..], parent, i); all.0 == done + rest.0 && all.1 == rest.1
  }

  lemma MidwayStep<W, C>(m: W -> bool, rules: seq<Rule<W, C>>, parent: Place, i: nat, done: seq<Hit<W, C>>)
    requires i < |rules| && Midway(m, rules, parent, i, done, false)
    ensures var first := Visit(m, rules[i], parent + [i]);
            Midway(m, rules, parent, i + 1, done + first.0, first.1)
  {
  }

  lemma MidwayEnd<W, C>(m: W -> bool, rules: seq<Rule<W, C>>, parent: Place, i: nat, done: seq<Hit<W, C>>, halted: bool)
    requires Midway(m, rules, parent, i, done, halted) && (halted || i == |rules|)
    ensures VisitAll(m, rules, parent, 0).0 == done && VisitAll(m, rules, parent, 0).1 == halted
  {
  }

  // ----- the closed form

  /** A matched rule with the number of matched rules in its subtree. */
  datatype Item<W, C> = Item(hit: Hit<W, C>, size: nat)

  /** Every rule that matches together with its ancestors, in document order, as if nothing halted. */
  function Flat<W, C>(m: W -> bool, r: Rule<W, C>, place: Place): seq<Item<W, C>>
    decreases r, 1
  {
    if !m(r.when) then []
    else
      var sub := FlatAll(m, r.nested, place, 0);
      Above(HitOf(r, place), sub)
  }

  function FlatAll<W, C>(m: W -> bool, rules: seq<Rule<W, C>>, parent: Place, k: nat): seq<Item<W, C>>
    decreases rules, 0
  {
    if rules == [] then [] else Flat(m, rules[0], parent + [k]) + FlatAll(m, rules[1..], parent, k + 1)
  }

  function Hits<W, C>(items: seq<Item<W, C>>): seq<Hit<W, C>> {
    seq(|items|, i requires 0 <= i < |items| => items[i].hit)
  }

  /** The position right after the subtree of item i. */
  function End<W, C>(items: seq<Item<W, C>>, i: int): int
    requires 0 <= i < |items|
  {
    i + items[i].size
  }

  ghost predicate Nested<W, C>(items: seq<Item<W, C>>) {
    forall i :: 0 <= i < |items| ==> i < End(items, i) <= |items|
  }

  ghost predicate HasFinal<W, C>(items: seq<Item<W, C>>) {
    exists i :: 0 <= i < |items| && items[i].hit.final
  }

  /** c is the end of the first final rule to finish its subtree, or the end of the list when there is none. */
  ghost predicate IsCut<W, C>(items: seq<Item<W, C>>, c: int) {
    && 0 <= c <= |items|
    && (forall i :: 0 <= i < |items| && items[i].hit.final ==> c <= End(items, i))
    && if HasFinal(items) then exists i :: 0 <= i < |items| && items[i].hit.final && End(items, i) == c
       else c == |items|
  }

  /** What a walk must produce, stated over the full list. */
  ghost predicate Explains<W, C>(items: seq<Item<W, C>>, walk: (seq<Hit<W, C>>, bool), c: int) {
    Nested(items) && IsCut(items, c) && walk.0 == Hits(items)[..c] && (walk.1 <==> HasFinal(items))
  }

  lemma NestedConcat<W, C>(a: seq<Item<W, C>>, b: seq<Item<W, C>>)
    requires Nested(a) && Nested(b)
    ensures Nested(a + b)
    ensures forall i :: 0 <= i < |a| ==> End(a + b, i) == End(a, i)
    ensures forall i :: 0 <= i < |b| ==> End(a + b, |a| + i) == |a| + End(b, i)
  {
    var items := a + b;
    forall i | 0 <= i < |items| ensures i < End(items, i) <= |items| {
      if i < |a| {
        assert items[i] == a[i] && i < End(a, i) <= |a|;
      } else {
        assert items[i] == b[i - |a|] && i - |a| < End(b, i - |a|) <= |b|;
      }
    }
  }

  /** Siblings: a halt in the first cuts there, otherwise the cut is in the rest. */
  lemma CutConcat<W, C>(a: seq<Item<W, C>>, b: seq<Item<W, C>>, ca: int, cb: int)
    requires Nested(a) && Nested(b) && IsCut(a, ca) && IsCut(b, cb)
    ensures HasFinal(a + b) <==> HasFinal(a) || HasFinal(b)
    ensures IsCut(a + b, if HasFinal(a) then ca else |a| + cb)
  {
    var items := a + b;
    NestedConcat(a, b);
    assert forall i :: 0 <= i < |a| ==> items[i] == a[i];
    assert forall i {:trigger b[i]} :: 0 <= i < |b| ==> items[|a| + i] == b[i];
    if HasFinal(a) {
      var i :| 0 <= i < |a| && a[i].hit.final && End(a, i) == ca;
      assert items[i].hit.final && End(items, i) == ca;
      forall j | 0 <= j < |items| && items[j].hit.final ensures ca <= End(items, j) {
        if j < |a| { assert End(items, j) == End(a, j); }
      }
    } else {
      if HasFinal(b) {
        var i :| 0 <= i < |b| && b[i].hit.final && End(b, i) == cb;
        assert items[|a| + i].hit.final && End(items, |a| + i) == |a| + cb;
      }
      forall j | 0 <= j < |items| && items[j].hit.final ensures |a| <= j && |a| + cb <= End(items, j) {
        assert End(items, |a| + (j - |a|)) == |a| + End(b, j - |a|);
      }
      if HasFinal(items) {
        var j :| 0 <= j < |items| && items[j].hit.final;
        assert b[j - |a|].hit.final;
      }
    }
  }

  function Above<W, C>(h: Hit<W, C>, sub: seq<Item<W, C>>): seq<Item<W, C>> {
    [Item(h, 1 + |sub|)] + sub
  }

  lemma AboveFinal<W, C>(h: Hit<W, C>, sub: seq<Item<W, C>>)
    ensures HasFinal(Above(h, sub)) <==> h.final || HasFinal(sub)
  {
    var items := Above(h, sub);
    if j :| 0 <= j < |items| && items[j].hit.final {
      if j > 0 {
        assert sub[j - 1].hit.final;
      }
    }
    if h.final { assert items[0].hit.final; }
    if i :| 0 <= i < |sub| && sub[i].hit.final {
      assert items[i + 1].hit.final;
    }
  }

  /** A rule above its subtree: a halt below cuts first, and the rule itself ends with its subtree. */
  lemma CutNode<W, C>(h: Hit<W, C>, sub: seq<Item<W, C>>, c: int)
    requires Nested(sub) && IsCut(sub, c)
    ensures Nested(Above(h, sub)) && IsCut(Above(h, sub), 1 + c)
  {
    var items := Above(h, sub);
    AboveFinal(h, sub);
    forall j | 0 <= j < |items|
      ensures j < End(items, j) <= |items|
      ensures items[j].hit.final ==> 1 + c <= End(items, j)
    {
      if j > 0 {
        assert j - 1 < End(sub, j - 1) <= |sub|;
      }
    }
    if HasFinal(sub) {
      var i :| 0 <= i < |sub| && sub[i].hit.final && End(sub, i) == c;
      assert items[i + 1].hit.final && End(items, i + 1) == 1 + c;
    } else if h.final {
      assert items[0].hit.final && End(items, 0) == 1 + c;
    }
  }

  /** A rule above an explained walk of its subtree. */
  lemma NodeExplained<W, C>(h: Hit<W, C>, sub: seq<Item<W, C>>, walk: (seq<Hit<W, C>>, bool), c: int)
    requires Explains(sub, walk, c)
    ensures Explains(Above(h, sub), ([h] + walk.0, walk.1 || h.final), 1 + c)
  {
    CutNode(h, sub, c);
    AboveFinal(h, sub);
    assert Hits(Above(h, sub)) == [h] + Hits(sub);
    assert ([h] + Hits(sub))[..1 + c] == [h] + Hits(sub)[..c];
  }

  /** Two explained walks one after the other, the second only if the first did not halt. */
  lemma SiblingsExplained<W, C>(
    a: seq<Item<W, C>>, b: seq<Item<W, C>>,
    first: (seq<Hit<W, C>>, bool), rest: (seq<Hit<W, C>>, bool), ca: int, cb: int)
    requires Explains(a, first, ca) && Explains(b, rest, cb)
    ensures Explains(a + b, if first.1 then first else (first.0 + rest.0, rest.1), if first.1 then ca else |a| + cb)
  {
    CutConcat(a, b, ca, cb);
    NestedConcat(a, b);
    assert !first.1 ==> Hits(a)[..ca] == Hits(a);
  }

  lemma {:induction false} VisitExplained<W, C>(m: W -> bool, r: Rule<W, C>, place: Place) returns (c: int)
    ensures Explains(Flat(m, r, place), Visit(m, r, place), c)
    decreases r, 1
  {
    if !m(r.when) {
      c := 0;
    } else {
      c := VisitAllExplained(m, r.nested, place, 0);
      NodeExplained(HitOf(r, place), FlatAll(m, r.nested, place, 0), VisitAll(m, r.nested, place, 0), c);
      c := 1 + c;
    }
  }

  lemma {:induction false} VisitAllExplained<W, C>(m: W -> bool, rules: seq<Rule<W, C>>, parent: Place, k: nat)
    returns (c: int)
    ensures Explains(FlatAll(m, rules, parent, k), VisitAll(m, rules, parent, k), c)
    decreases rules, 0
  {
    if rules == [] {
      c := 0;
    } else {
      var ca := VisitExplained(m, rules[0], parent + [k]);
      var cb := VisitAllExplained(m, rules[1..], parent, k + 1);
      var a, b := Flat(m, rules[0], parent + [k]), FlatAll(m, rules[1..], parent, k + 1);
      var first, rest := Visit(m, rules[0], parent + [k]), VisitAll(m, rules[1..], parent, k + 1);
      SiblingsExplained(a, b, first, rest, ca, cb);
      c := if first.1 then ca else |a| + cb;
    }
  }

}
