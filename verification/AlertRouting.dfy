/**
 Routing an Alertmanager alert through its match tree: the second walker over
 the cascade, its merge, and the mark on the step that ignored the alert.
 */
module AlertRouting {
  import opened Base
  import opened Cascade
  import opened Merge

  /** An empty slack is unset; a notify list is set when it has values or overrides. */
  datatype Routing = Routing(slack: string, notify: seq<string>, override: bool)

  const NO_ROUTING := Routing("", [], false)

  datatype Layered = Layered(cfg: Routing, ignore: Option<bool>)

  /** A step of the rule chain; ignoring is the mark of the rule that ignored the alert. */
  datatype Step<W> = Step(place: Place, when: W, final: bool, ignoring: bool)

  datatype Resolved<W> = Resolved(ignored: bool, channel: string, notify: seq<string>, chain: seq<Step<W>>, final: bool)

  type AmRule<W> = Rule<W, Option<Routing>>
  type AmHit<W> = Hit<W, Option<Routing>>

  /** How a rule's block reaches the stack: lowered where present, empty otherwise. */
  function Block(lower: (Place, Routing) -> Routing, place: Place, config: Option<Routing>): Routing {
    if config.Some? then lower(place, config.value) else NO_ROUTING
  }

  function LayerOf<W>(lower: (Place, Routing) -> Routing, h: AmHit<W>): Layered {
    Layered(Block(lower, h.place, h.config), h.ignore)
  }

  function StackOf<W>(lower: (Place, Routing) -> Routing, hits: seq<AmHit<W>>): seq<Layered> {
    seq(|hits|, i requires 0 <= i < |hits| => LayerOf(lower, hits[i]))
  }

  function ChainOf<W>(hits: seq<AmHit<W>>): seq<Step<W>> {
    seq(|hits|, i requires 0 <= i < |hits| => Step(hits[i].place, hits[i].when, hits[i].final, false))
  }

  // ----- the merge

  function SlackLayers(stack: seq<Layered>): seq<Option<string>> {
    seq(|stack|, i requires 0 <= i < |stack| => if stack[i].cfg.slack != "" then Some(stack[i].cfg.slack) else None)
  }

  function NotifyLayers(stack: seq<Layered>): seq<Layer> {
    seq(|stack|, i requires 0 <= i < |stack| =>
      Layer(stack[i].cfg.notify != [] || stack[i].cfg.override, stack[i].cfg.notify, stack[i].cfg.override))
  }

  /** The deepest channel, and the deduplicated recipients from the deepest override on. */
  ghost predicate Merges(stack: seq<Layered>, channel: string, notify: seq<string>) {
    && channel == Deepest(SlackLayers(stack), "")
    && Distinct(notify)
    && forall b: nat :: IsBaseline(NotifyLayers(stack), b) ==> notify == Dedup(Contributed(NotifyLayers(stack)[b..]))
  }

  method ResolveStack(stack: seq<Layered>) returns (channel: string, notify: seq<string>)
    ensures Merges(stack, channel, notify)
  {
    channel, notify := "", [];
    ghost var slacks, lists := SlackLayers(stack), NotifyLayers(stack);
    for i := 0 to |stack|
      invariant channel == Deepest(slacks[..i], "") && notify == FoldList(lists[..i])
    {
      assert slacks[..i + 1][..i] == slacks[..i] && lists[..i + 1][..i] == lists[..i];
      var cfg := stack[i].cfg;
      if cfg.slack != "" {
        channel := cfg.slack;
      }
      if cfg.notify != [] || cfg.override {
        notify := MergeLists(notify, cfg.notify, cfg.override);
      }
    }
    assert slacks[..|stack|] == slacks && lists[..|stack|] == lists;
    var b0 := BaselineExists(lists);
    FoldListClosedForm(lists, b0);
    forall b: nat | IsBaseline(lists, b) ensures notify == Dedup(Contributed(lists[b..])) {
      FoldListClosedForm(lists, b);
    }
  }

  /** The block a matched rule contributes says nothing about the channel. */
  predicate NoChannel<W>(lower: (Place, Routing) -> Routing, h: AmHit<W>) {
    h.config.None? || lower(h.place, h.config.value).slack == ""
  }

  predicate NoRecipients<W>(lower: (Place, Routing) -> Routing, h: AmHit<W>) {
    h.config.None? || (lower(h.place, h.config.value).notify == [] && !lower(h.place, h.config.value).override)
  }

  /** The channel of a route is that of the last matched rule whose lowered block names one. */
  lemma ChannelComesFrom<W>(
    lower: (Place, Routing) -> Routing, hits: seq<AmHit<W>>, channel: string, notify: seq<string>, i: nat)
    requires Merges(StackOf(lower, hits), channel, notify)
    requires i < |hits| && !NoChannel(lower, hits[i]) && forall j :: i < j < |hits| ==> NoChannel(lower, hits[j])
    ensures channel == lower(hits[i].place, hits[i].config.value).slack
  {
    var layers := SlackLayers(StackOf(lower, hits));
    assert layers[i] == Some(lower(hits[i].place, hits[i].config.value).slack);
    DeepestIs(layers, "", i);
  }

  /** The recipients of a route whose last word is an override are that rule's, without repeats. */
  lemma OverrideRoutes<W>(
    lower: (Place, Routing) -> Routing, hits: seq<AmHit<W>>, channel: string, notify: seq<string>, i: nat)
    requires Merges(StackOf(lower, hits), channel, notify)
    requires i < |hits| && hits[i].config.Some? && lower(hits[i].place, hits[i].config.value).override
    requires forall j :: i < j < |hits| ==> NoRecipients(lower, hits[j])
    ensures notify == Dedup(lower(hits[i].place, hits[i].config.value).notify)
  {
    var layers := NotifyLayers(StackOf(lower, hits));
    assert IsBaseline(layers, i);
    ContributedFirstOnly(layers[i..]);
  }

  /** Without an override the recipients of every matched rule are kept. */
  lemma UnionRoutes<W>(
    lower: (Place, Routing) -> Routing, hits: seq<AmHit<W>>, channel: string, notify: seq<string>, i: nat, x: string)
    requires Merges(StackOf(lower, hits), channel, notify)
    requires forall j :: 0 <= j < |hits| && hits[j].config.Some? ==>
               !lower(hits[j].place, hits[j].config.value).override
    requires i < |hits| && hits[i].config.Some? && x in lower(hits[i].place, hits[i].config.value).notify
    ensures x in notify
  {
    var layers := NotifyLayers(StackOf(lower, hits));
    assert IsBaseline(layers, 0) && layers[0..] == layers;
    assert layers[i].isSet && x in layers[i].values;
    ContributedHas(layers, i, x);
    DedupExact(Contributed(layers));
  }

  // ----- the directive

  /** Entry i carries the deepest directive, and it says ignore. */
  ghost predicate Ignores(stack: seq<Layered>, i: int) {
    0 <= i < |stack| && stack[i].ignore == Some(true) && forall j :: i < j < |stack| ==> stack[j].ignore.None?
  }

  method DeepestDirective(stack: seq<Layered>) returns (ignored: bool, at: int)
    ensures -1 <= at < |stack|
    ensures ignored <==> exists i :: Ignores(stack, i)
    ensures forall i :: Ignores(stack, i) <==> ignored && i == at
  {
    ignored, at := false, -1;
    for i := 0 to |stack|
      invariant -1 <= at < i
      invariant if at == -1 then !ignored else stack[at].ignore == Some(ignored)
      invariant forall j :: at < j < i ==> stack[j].ignore.None?
    {
      if stack[i].ignore.Some? {
        ignored, at := stack[i].ignore.value, i;
      }
    }
    if ignored {
      assert Ignores(stack, at);
    }
  }

  // ----- the walk and its outcome

  class Walker<W> {
    const matches: W -> bool
    const lower: (Place, Routing) -> Routing
    var stack: seq<Layered>
    var chain: seq<Step<W>>

    constructor (matches: W -> bool, lower: (Place, Routing) -> Routing)
      ensures this.matches == matches && this.lower == lower && stack == [] && chain == []
    {
      this.matches, this.lower, stack, chain := matches, lower, [], [];
    }

    /** This call pushed exactly the given matched rules, on stack and chain alike. */
    twostate predicate Pushed(new hits: seq<AmHit<W>>)
      reads this
    {
      stack == old(stack) + StackOf(lower, hits) && chain == old(chain) + ChainOf(hits)
    }

    method VisitRule(r: AmRule<W>, place: Place) returns (halt: bool)
      modifies this
      ensures Pushed(Visit(matches, r, place).0)
      ensures halt == Visit(matches, r, place).1
      decreases r, 1
    {
      if !matches(r.when) {
        return false;
      }
      Push(r, place);
      halt := WalkRules(r.nested, place);
      return halt || r.final;
    }

    /** Record a matched rule; one without a block pushes an empty layer. */
    method Push(r: AmRule<W>, place: Place)
      modifies this
      ensures Pushed([HitOf(r, place)])
    {
      chain := chain + [Step(place, r.when, r.final, false)];
      var cfg := NO_ROUTING;
      if r.config.Some? {
        cfg := lower(place, r.config.value);
      }
      stack := stack + [Layered(cfg, r.ignore)];
    }

    method WalkRules(rules: seq<AmRule<W>>, parent: Place) returns (halted: bool)
      modifies this
      ensures Pushed(VisitAll(matches, rules, parent, 0).0)
      ensures halted == VisitAll(matches, rules, parent, 0).1
      decreases rules, 0
    {
      ghost var done: seq<AmHit<W>> := [];
      halted := false;
      var i := 0;
      while i < |rules| && !halted
        invariant Midway(matches, rules, parent, i, done, halted) && Pushed(done)
        decreases |rules| - i
      {
        ghost var first := Visit(matches, rules[i], parent + [i]).0;
        halted := VisitRule(rules[i], parent + [i]);
        MidwayStep(matches, rules, parent, i, done);
        done := done + first;
        i := i + 1;
      }
      MidwayEnd(matches, rules, parent, i, done, halted);
    }
  }

  /**
   Routes one alert. The chain is the matched rules in order; a step is marked iff its own rule carries the deepest
   directive and that directive ignores; an ignored alert has no route, any other gets the merge of the stack.
   */
  method Evaluate<W>(m: W -> bool, lower: (Place, Routing) -> Routing, rules: seq<AmRule<W>>) returns (res: Resolved<W>)
    ensures var hits := VisitAll(m, rules, [], 0).0;
            && |res.chain| == |hits|
            && (forall i :: 0 <= i < |hits| ==>
                  res.chain[i] == Step(hits[i].place, hits[i].when, hits[i].final, Ignores(StackOf(lower, hits), i)))
            && (res.ignored <==> exists i :: Ignores(StackOf(lower, hits), i))
            && (if res.ignored then res.channel == "" && res.notify == []
                else Merges(StackOf(lower, hits), res.channel, res.notify))
    ensures res.final == VisitAll(m, rules, [], 0).1
  {
    var walker := new Walker(m, lower);
    var final := walker.WalkRules(rules, []);
    ghost var hits := VisitAll(m, rules, [], 0).0;
    assert walker.stack == StackOf(lower, hits) && walker.chain == ChainOf(hits);
    var ignored, at := DeepestDirective(walker.stack);
    var chain := walker.chain;
    if ignored && 0 <= at < |chain| {
      chain := chain[at := chain[at].(ignoring := true)];
    }
    if ignored {
      return Resolved(true, "", [], chain, final);
    }
    var channel, notify := ResolveStack(walker.stack);
    res := Resolved(false, channel, notify, chain, final);
  }
}
