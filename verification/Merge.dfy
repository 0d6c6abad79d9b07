/**
 Merging the layers of a cascade: deepest-wins values and union lists with
 positional override, as folds and in closed form.
 */
module Merge {
  import opened Base

  // ----- lists

  /** First occurrences, in order. */
  function Dedup(s: seq<string>): seq<string> {
    if s == [] then [] else
    var d := Dedup(s[..|s| - 1]);
    if s[|s| - 1] in d then d else d + [s[|s| - 1]]
  }

  /** One layer's say on a list: whether it sets it, with what, and whether it discards what came before. */
  datatype Layer = Layer(isSet: bool, values: seq<string>, override: bool)

  function MergeStrings(accum: seq<string>, incoming: seq<string>, override: bool): seq<string> {
    if override then Dedup(incoming) else Dedup(accum + incoming)
  }

  /** The running merge over a stack of layers, shallow first. */
  function FoldList(layers: seq<Layer>): seq<string> {
    if layers == [] then [] else
    var accum, top := FoldList(layers[..|layers| - 1]), layers[|layers| - 1];
    if top.isSet then MergeStrings(accum, top.values, top.override) else accum
  }

  /** Everything the layers that set the list contribute, in order. */
  function Contributed(layers: seq<Layer>): seq<string> {
    if layers == [] then [] else
    var rest, top := Contributed(layers[..|layers| - 1]), layers[|layers| - 1];
    if top.isSet then rest + top.values else rest
  }

  /** b is the position of the deepest layer that overrides, or the bottom when none does. */
  ghost predicate IsBaseline(layers: seq<Layer>, b: nat) {
    && b <= |layers|
    && (forall i :: b < i < |layers| ==> !(layers[i].isSet && layers[i].override))
    && (b == 0 || (b < |layers| && layers[b].isSet && layers[b].override))
  }

  lemma {:induction false} DedupExact(s: seq<string>)
    ensures Distinct(Dedup(s)) && forall x :: x in Dedup(s) <==> x in s
  {
    if s != [] {
      var n := |s| - 1;
      DedupExact(s[..n]);
      assert s == s[..n] + [s[n]];
    }
  }

  lemma {:induction false} DedupDistinct(s: seq<string>)
    requires Distinct(s)
    ensures Dedup(s) == s
  {
    if s != [] {
      var n := |s| - 1;
      DedupDistinct(s[..n]);
      assert s == s[..n] + [s[n]];
    }
  }

  /** Deduplicating a prefix early changes nothing. */
  lemma {:induction false} DedupAbsorbs(a: seq<string>, b: seq<string>)
    ensures Dedup(Dedup(a) + b) == Dedup(a + b)
  {
    DedupExact(a);
    if b == [] {
      assert a + b == a && Dedup(a) + b == Dedup(a);
      DedupDistinct(Dedup(a));
    } else {
      var n := |b| - 1;
      DedupAbsorbs(a, b[..n]);
      assert (a + b)[..|a + b| - 1] == a + b[..n];
      assert (Dedup(a) + b)[..|Dedup(a) + b| - 1] == Dedup(a) + b[..n];
    }
  }

  lemma ContributedSnoc(layers: seq<Layer>, b: nat)
    requires b < |layers|
    ensures var n := |layers| - 1;
            Contributed(layers[b..]) ==
              if layers[n].isSet then Contributed(layers[..n][b..]) + layers[n].values
              else Contributed(layers[..n][b..])
  {
    var n := |layers| - 1;
    assert layers[b..][..n - b] == layers[..n][b..] && layers[b..][n - b] == layers[n];
  }

  lemma {:induction false} ContributedFirstOnly(layers: seq<Layer>)
    requires layers != [] && layers[0].isSet && forall j :: 0 < j < |layers| ==> !layers[j].isSet
    ensures Contributed(layers) == layers[0].values
  {
    var n := |layers| - 1;
    if n == 0 {
      assert layers[..0] == [];
    } else {
      ContributedFirstOnly(layers[..n]);
    }
  }

  lemma {:induction false} ContributedHas(layers: seq<Layer>, i: nat, x: string)
    requires i < |layers| && layers[i].isSet && x in layers[i].values
    ensures x in Contributed(layers)
  {
    if i < |layers| - 1 {
      ContributedHas(layers[..|layers| - 1], i, x);
    }
  }

  /**
   Closed form of the merged list: the deduplicated contributions from the deepest overriding layer on. Hence it never
   repeats a value.
   */
  lemma {:induction false} FoldListClosedForm(layers: seq<Layer>, b: nat)
    requires IsBaseline(layers, b)
    ensures FoldList(layers) == Dedup(Contributed(layers[b..]))
    ensures Distinct(FoldList(layers))
  {
    if layers != [] {
      var n := |layers| - 1;
      var pre, top := layers[..n], layers[n];
      if b == n && top.isSet && top.override {
        assert layers[b..] == [top] && Contributed([top]) == top.values;
      } else {
        FoldListClosedForm(pre, b);
        ContributedSnoc(layers, b);
        DedupAbsorbs(Contributed(pre[b..]), top.values);
      }
    }
    DedupExact(Contributed(layers[b..]));
  }

  lemma {:induction false} BaselineExists(layers: seq<Layer>) returns (b: nat)
    ensures IsBaseline(layers, b)
  {
    if layers == [] {
      b := 0;
    } else {
      var n := |layers| - 1;
      b := BaselineExists(layers[..n]);
      if (layers[n].isSet && layers[n].override) || b == n {
        b := if layers[n].isSet && layers[n].override then n else 0;
      }
    }
  }

  // ----- the list merge as it runs

  /** Append the values not seen yet. */
  method AppendNew(start: seq<string>, incoming: seq<string>) returns (out: seq<string>, added: seq<string>)
    requires Distinct(start)
    ensures out == Dedup(start + incoming) && out == start + added
  {
    out, added := start, [];
    var seen := set x | x in start;
    DedupDistinct(start);
    assert start + incoming[..0] == start;
    for i := 0 to |incoming|
      invariant out == Dedup(start + incoming[..i]) && out == start + added
      invariant forall x :: x in seen <==> x in out
    {
      var all := start + incoming[..i + 1];
      assert all[..|all| - 1] == start + incoming[..i] && all[|all| - 1] == incoming[i];
      if incoming[i] in seen {
        continue;
      }
      seen := seen + {incoming[i]};
      out := out + [incoming[i]];
      added := added + [incoming[i]];
    }
    assert incoming[..|incoming|] == incoming;
  }

  method MergeLists(accum: seq<string>, incoming: seq<string>, override: bool) returns (out: seq<string>)
    ensures out == MergeStrings(accum, incoming, override)
  {
    var added;
    if override {
      out, added := AppendNew([], incoming);
      assert [] + incoming == incoming;
      return;
    }
    out, added := AppendNew([], accum);
    assert [] + accum == accum;
    DedupExact(accum);
    out, added := AppendNew(out, incoming);
    DedupAbsorbs(accum, incoming);
  }

  // ----- deepest wins

  /** The value of the deepest layer that has one. */
  function Deepest<T>(layers: seq<Option<T>>, none: T): T {
    if layers == [] then none
    else if layers[|layers| - 1].Some? then layers[|layers| - 1].value
    else Deepest(layers[..|layers| - 1], none)
  }

  lemma {:induction false} DeepestIs<T>(layers: seq<Option<T>>, none: T, i: nat)
    requires i < |layers| && layers[i].Some? && forall j :: i < j < |layers| ==> layers[j].None?
    ensures Deepest(layers, none) == layers[i].value
  {
    if i < |layers| - 1 {
      DeepestIs(layers[..|layers| - 1], none, i);
    }
  }
}
