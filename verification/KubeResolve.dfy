/**
 Resolving the discovery tree for one ingress host: the walk with its merge
 stack and chain, the outcome, and what lowering the source blocks means for it.
 */
module KubeResolve {
  import opened Base
  import opened Cascade
  import opened KubeConfig
  import opened Lowering
  import opened Merge

  /** A line of the rule chain: the rule's place, its selector, and whether it is final. */
  datatype Step<W> = Step(place: Place, when: W, final: bool)

  /** What a walk accumulates. */
  datatype Walked<W> = Walked(
    stack: seq<StackEntry>, chain: seq<Step<W>>, provenance: seq<Provenance>, warnings: seq<Warning>)

  function Nothing<W>(): Walked<W> {
    Walked([], [], [], [])
  }

  function Plus<W>(a: Walked<W>, b: Walked<W>): Walked<W> {
    Walked(a.stack + b.stack, a.chain + b.chain, a.provenance + b.provenance, a.warnings + b.warnings)
  }

  function One<W>(env: Env, h: Hit<W, Config>): Walked<W> {
    var l := LowerAll(env, h.place, h.config);
    Walked([StackEntry(l.cfg, h.ignore)], [Step(h.place, h.when, h.final)], l.provenance, l.warnings)
  }

  /** What the matched rules leave behind, in order. */
  function Gather<W>(env: Env, hits: seq<Hit<W, Config>>): Walked<W> {
    if hits == [] then Nothing() else Plus(One(env, hits[0]), Gather(env, hits[1..]))
  }

  lemma PlusAssociates<W>(a: Walked<W>, b: Walked<W>, c: Walked<W>)
    ensures Plus(Plus(a, b), c) == Plus(a, Plus(b, c)) && Plus(a, Nothing()) == a == Plus(Nothing(), a)
  {
  }

  lemma {:induction false} GatherConcat<W>(env: Env, a: seq<Hit<W, Config>>, b: seq<Hit<W, Config>>)
    ensures Gather(env, a + b) == Plus(Gather(env, a), Gather(env, b))
  {
    PlusAssociates(Nothing(), Gather(env, b), Nothing());
    if a == [] {
      assert a + b == b;
    } else {
      assert (a + b)[0] == a[0] && (a + b)[1..] == a[1..] + b;
      GatherConcat(env, a[1..], b);
      PlusAssociates(One(env, a[0]), Gather(env, a[1..]), Gather(env, b));
    }
  }

  /** Stack and chain are index-aligned: entry i of each belongs to the i-th matched rule. */
  lemma {:induction false} Aligned<W>(env: Env, hits: seq<Hit<W, Config>>)
    ensures var w := Gather(env, hits);
            && |w.stack| == |w.chain| == |hits|
            && forall i :: 0 <= i < |hits| ==>
                 && w.chain[i] == Step(hits[i].place, hits[i].when, hits[i].final)
                 && w.stack[i] == StackEntry(LowerAll(env, hits[i].place, hits[i].config).cfg, hits[i].ignore)
  {
    if hits != [] {
      Aligned(env, hits[1..]);
      var w, rest := Gather(env, hits), Gather(env, hits[1..]);
      forall i | 0 < i < |hits|
        ensures w.stack[i] == rest.stack[i - 1] && w.chain[i] == rest.chain[i - 1] && hits[i] == hits[1..][i - 1]
      {
      }
    }
  }

  // ----- the outcome

  datatype Problem =
    | WildcardHost | BadPath | BadMethod | NoStatusCodes | BadInterval | BadTimeout | BadRetries | BadRetryBackoff
    | BadReminderInterval | BadSslAlert | BadSslEscalation | BadSslReminder | NoSlack | TimeoutReachesInterval
    | SslAlertNotAboveEscalation

  const METHODS := {"GET", "HEAD", "POST", "PUT", "DELETE"}

  /** What each complaint about the resolved values means. */
  predicate Violated(c: Config, p: Problem) {
    match p
    case BadPath => !("/" <= c.Get(Path).AsText())
    case BadMethod => c.Get(HttpMethod).AsText() !in METHODS
    case NoStatusCodes => c.codes == []
    case BadInterval => c.Get(Interval).AsSpan() <= 0
    case BadTimeout => c.Get(Timeout).AsSpan() <= 0
    case BadRetries => c.Get(Retries).AsNumber() < 0
    case BadRetryBackoff => c.Get(RetryBackoff).AsSpan() <= 0
    case BadReminderInterval => c.Get(ReminderInterval).AsSpan() <= 0
    case BadSslAlert => c.Get(SslAlertThreshold).AsSpan() <= 0
    case BadSslEscalation => c.Get(SslEscalationThreshold).AsSpan() <= 0
    case BadSslReminder => c.Get(SslReminderInterval).AsSpan() <= 0
    case NoSlack => c.Get(Slack).AsText() == ""
    case TimeoutReachesInterval => c.Get(Timeout).AsSpan() >= c.Get(Interval).AsSpan()
    case SslAlertNotAboveEscalation =>
      && c.Get(Scheme).AsText() in {"", "https"}
      && c.Get(SslAlertThreshold).AsSpan() <= c.Get(SslEscalationThreshold).AsSpan()
    case WildcardHost => false
  }

  /**
   The order of the checks: every field the root must set, then the relations between fields. The escalation threshold
   is not examined again for https: it is positive by then.
   */
  const CHECKS := [
    BadPath, BadMethod, NoStatusCodes, BadInterval, BadTimeout, BadRetries, BadRetryBackoff, BadReminderInterval,
    BadSslAlert, BadSslEscalation, BadSslReminder, NoSlack, TimeoutReachesInterval, SslAlertNotAboveEscalation]

  function FirstViolated(c: Config, checks: seq<Problem>): Option<Problem> {
    if checks == [] then None
    else if Violated(c, checks[0]) then Some(checks[0])
    else FirstViolated(c, checks[1..])
  }

  function CheckResolved(c: Config): Option<Problem> {
    FirstViolated(c, CHECKS)
  }

  /** There is no complaint iff no check is violated, and a complaint is the first violated one. */
  lemma {:induction false} FirstComplaint(c: Config, checks: seq<Problem>)
    ensures FirstViolated(c, checks).None? <==> forall i :: 0 <= i < |checks| ==> !Violated(c, checks[i])
    ensures FirstViolated(c, checks).Some? ==>
              exists i :: 0 <= i < |checks| && FirstViolated(c, checks) == Some(checks[i]) && Violated(c, checks[i])
                          && forall j :: 0 <= j < i ==> !Violated(c, checks[j])
  {
    if checks != [] && !Violated(c, checks[0]) {
      FirstComplaint(c, checks[1..]);
      assert forall i :: 0 < i < |checks| ==> checks[i] == checks[1..][i - 1];
      if FirstViolated(c, checks[1..]).Some? {
        var i :| && 0 <= i < |checks[1..]| && FirstViolated(c, checks[1..]) == Some(checks[1..][i])
                 && Violated(c, checks[1..][i])
                 && forall j :: 0 <= j < i ==> !Violated(c, checks[1..][j]);
        assert checks[i + 1] == checks[1..][i];
        assert forall j {:trigger checks[j]} :: 0 < j < i + 1 ==> checks[j] == checks[1..][j - 1];
      }
    }
  }

  /** The checks in order, up to the first that fails. */
  method CheckValues(c: Config) returns (err: Option<Problem>)
    ensures err == CheckResolved(c)
  {
    assert CHECKS[0..] == CHECKS;
    for i := 0 to |CHECKS|
      invariant CheckResolved(c) == FirstViolated(c, CHECKS[i..])
    {
      assert CHECKS[i..][1..] == CHECKS[i + 1..] && CHECKS[i..][0] == CHECKS[i];
      if Violated(c, CHECKS[i]) {
        return Some(CHECKS[i]);
      }
    }
    return None;
  }

  datatype Resolution<W> = Resolution(
    config: Config, chain: seq<Step<W>>, provenance: seq<Provenance>, warnings: seq<Warning>,
    ignored: bool, matched: bool, wildcardHost: bool, err: Option<Problem>)
  {
    /** The resolution without the record of where values came from. */
    function Outcome(): Resolution<W> {
      this.(provenance := [], warnings := [])
    }
  }

  /** An ignored host has no error; a wildcard host outranks the value checks. */
  function Classified(ignored: bool, wildcard: bool, c: Config): Option<Problem> {
    if ignored then None else if wildcard then Some(WildcardHost) else CheckResolved(c)
  }

  function Concluded<W>(w: Walked<W>, host: string): Resolution<W> {
    if w.stack == [] then Resolution(EMPTY, w.chain, w.provenance, w.warnings, false, false, false, None)
    else
      var config, ignored, wildcard := ResolveStack(w.stack), Ignored(w.stack), '*' in host;
      var err := Classified(ignored, wildcard, config);
      Resolution(config, w.chain, w.provenance, w.warnings, ignored, true, wildcard, err)
  }

  function Resolve<W>(m: W -> bool, rules: seq<Rule<W, Config>>, env: Env, host: string): Resolution<W> {
    Concluded(Gather(env, VisitAll(m, rules, [], 0).0), host)
  }

  /** What is asked of how a monitor is probed. */
  predicate ProbeSound(c: Config) {
    && |c.Get(Path).AsText()| > 0 && c.Get(Path).AsText()[0] == '/'
    && (var verb := c.Get(HttpMethod).AsText();
        verb == "GET" || verb == "HEAD" || verb == "POST" || verb == "PUT" || verb == "DELETE")
    && |c.codes| > 0
    && |c.Get(Slack).AsText()| > 0
  }

  /** What is asked of its timing. */
  predicate TimingSound(c: Config) {
    && 0 < c.Get(Timeout).AsSpan() < c.Get(Interval).AsSpan()
    && c.Get(Retries).AsNumber() >= 0 && c.Get(RetryBackoff).AsSpan() > 0
    && c.Get(ReminderInterval).AsSpan() > 0
  }

  /** What is asked of its certificate thresholds; their order matters to https only, which is the default. */
  predicate SslSound(c: Config) {
    && c.Get(SslAlertThreshold).AsSpan() > 0 && c.Get(SslEscalationThreshold).AsSpan() > 0
    && c.Get(SslReminderInterval).AsSpan() > 0
    && (c.Get(Scheme).AsText() == "" || c.Get(Scheme).AsText() == "https" ==>
          c.Get(SslAlertThreshold).AsSpan() > c.Get(SslEscalationThreshold).AsSpan())
  }

  function RankOf(p: Problem): (i: nat)
    requires p != WildcardHost
    ensures i < |CHECKS| && CHECKS[i] == p
  {
    match p
    case BadPath => 0 case BadMethod => 1 case NoStatusCodes => 2 case BadInterval => 3 case BadTimeout => 4
    case BadRetries => 5 case BadRetryBackoff => 6 case BadReminderInterval => 7 case BadSslAlert => 8
    case BadSslEscalation => 9 case BadSslReminder => 10 case NoSlack => 11 case TimeoutReachesInterval => 12
    case SslAlertNotAboveEscalation => 13
  }

  lemma EveryCheckCounts(c: Config, p: Problem)
    ensures Violated(c, p) ==> CheckResolved(c).Some?
    ensures CheckResolved(c).Some? ==> Violated(c, CheckResolved(c).value)
  {
    FirstComplaint(c, CHECKS);
    if Violated(c, p) {
      assert Violated(c, CHECKS[RankOf(p)]);
    }
  }

  lemma ProbeSoundIff(c: Config)
    ensures ProbeSound(c) <==>
              !Violated(c, BadPath) && !Violated(c, BadMethod) && !Violated(c, NoStatusCodes) && !Violated(c, NoSlack)
  {
  }

  lemma TimingSoundIff(c: Config)
    ensures TimingSound(c) <==>
              && !Violated(c, BadInterval) && !Violated(c, BadTimeout) && !Violated(c, TimeoutReachesInterval)
              && !Violated(c, BadRetries) && !Violated(c, BadRetryBackoff) && !Violated(c, BadReminderInterval)
  {
  }

  lemma SslSoundIff(c: Config)
    ensures SslSound(c) <==>
              && !Violated(c, BadSslAlert) && !Violated(c, BadSslEscalation) && !Violated(c, BadSslReminder)
              && !Violated(c, SslAlertNotAboveEscalation)
  {
  }

  /** A config is accepted exactly when all of its required values are usable and agree with each other. */
  lemma AcceptedIff(c: Config)
    ensures CheckResolved(c).None? <==> ProbeSound(c) && TimingSound(c) && SslSound(c)
  {
    ProbeSoundIff(c);
    TimingSoundIff(c);
    SslSoundIff(c);
    forall p: Problem ensures Violated(c, p) ==> CheckResolved(c).Some? {
      EveryCheckCounts(c, p);
    }
    if CheckResolved(c).Some? {
      EveryCheckCounts(c, CheckResolved(c).value);
    }
  }

  /** The deepest directive of the matched rules, if any, says ignore. */
  ghost predicate DeepestIgnores<W>(hits: seq<Hit<W, Config>>) {
    exists i :: 0 <= i < |hits| && hits[i].ignore == Some(true) && forall j :: i < j < |hits| ==> hits[j].ignore.None?
  }

  lemma IgnoredMeans<W>(env: Env, hits: seq<Hit<W, Config>>)
    ensures Ignored(Gather(env, hits).stack) <==> DeepestIgnores(hits)
  {
    Aligned(env, hits);
    var layers := Directives(Gather(env, hits).stack);
    DeepestTrue(layers);
    assert |layers| == |hits| && forall i :: 0 <= i < |hits| ==> layers[i] == hits[i].ignore;
    if i :| SaysYes(layers, i) {
      assert hits[i].ignore == Some(true);
    }
    if i :| 0 <= i < |hits| && hits[i].ignore == Some(true) && forall j :: i < j < |hits| ==> hits[j].ignore.None? {
      assert SaysYes(layers, i);
    }
  }

  /** The outcome of a resolution, said from the matched rules, the host and the resolved values. */
  lemma OutcomeMeans<W>(m: W -> bool, rules: seq<Rule<W, Config>>, env: Env, host: string)
    ensures var res, hits := Resolve(m, rules, env, host), VisitAll(m, rules, [], 0).0;
            && (res.matched <==> hits != []) && (res.ignored <==> DeepestIgnores(hits))
            && (res.wildcardHost <==> hits != [] && '*' in host)
            && (res.err == Some(WildcardHost) <==> res.matched && !res.ignored && '*' in host)
            && (res.err.None? <==>
                  || !res.matched || res.ignored
                  || ('*' !in host && ProbeSound(res.config) && TimingSound(res.config) && SslSound(res.config)))
  {
    var hits := VisitAll(m, rules, [], 0).0;
    Aligned(env, hits);
    IgnoredMeans(env, hits);
    var c := Resolve(m, rules, env, host).config;
    AcceptedIff(c);
    EveryCheckCounts(c, WildcardHost);
  }

  /** Layer i is the deepest that says anything, and it says yes. */
  ghost predicate SaysYes(layers: seq<Option<bool>>, i: int) {
    0 <= i < |layers| && layers[i] == Some(true) && forall j :: i < j < |layers| ==> layers[j].None?
  }

  lemma SaysYesPrefix(layers: seq<Option<bool>>, i: int)
    requires layers != [] && layers[|layers| - 1].None?
    ensures SaysYes(layers, i) <==> SaysYes(layers[..|layers| - 1], i)
  {
  }

  lemma {:induction false} DeepestTrue(layers: seq<Option<bool>>)
    ensures Deepest(layers, false) <==> exists i :: SaysYes(layers, i)
  {
    if layers != [] {
      var n := |layers| - 1;
      if layers[n].None? {
        DeepestTrue(layers[..n]);
        if i :| SaysYes(layers, i) {
          SaysYesPrefix(layers, i);
        }
        if i :| SaysYes(layers[..n], i) {
          SaysYesPrefix(layers, i);
        }
      } else {
        assert layers[n] == Some(true) ==> SaysYes(layers, n);
      }
    }
  }

  /** A resolved scalar is the value of the last matched rule whose block, once lowered, sets it. */
  lemma ScalarComesFrom<W>(m: W -> bool, rules: seq<Rule<W, Config>>, env: Env, host: string, k: Key, i: nat)
    requires var hits := VisitAll(m, rules, [], 0).0;
             && i < |hits| && LowerAll(env, hits[i].place, hits[i].config).cfg.IsSet(Value(k))
             && forall j :: i < j < |hits| ==> !LowerAll(env, hits[j].place, hits[j].config).cfg.IsSet(Value(k))
    ensures var h := VisitAll(m, rules, [], 0).0[i];
            Resolve(m, rules, env, host).config.Get(k) == LowerAll(env, h.place, h.config).cfg.Get(k)
  {
    var hits := VisitAll(m, rules, [], 0).0;
    Aligned(env, hits);
    var stack := Gather(env, hits).stack;
    ScalarIsDeepest(stack, k);
    DeepestIs(ScalarLayers(stack, k), ZeroOf(k), i);
  }

  // ----- lowering preserves meaning

  function MapRule<W, C, D>(f: C -> D, r: Rule<W, C>): Rule<W, D>
    decreases r, 1
  {
    Rule(r.when, r.ignore, r.final, f(r.config), MapRules(f, r.nested))
  }

  /** The same tree with another config block at every rule. */
  function MapRules<W, C, D>(f: C -> D, rules: seq<Rule<W, C>>): (mapped: seq<Rule<W, D>>)
    decreases rules, 0
  {
    if rules == [] then [] else [MapRule(f, rules[0])] + MapRules(f, rules[1..])
  }

  function MapHits<W, C, D>(f: C -> D, hits: seq<Hit<W, C>>): seq<Hit<W, D>> {
    seq(|hits|, i requires 0 <= i < |hits| =>
      Hit(hits[i].place, hits[i].when, hits[i].ignore, hits[i].final, f(hits[i].config)))
  }

  lemma {:induction false} VisitMapped<W, C, D>(m: W -> bool, f: C -> D, r: Rule<W, C>, place: Place)
    ensures Visit(m, MapRule(f, r), place).0 == MapHits(f, Visit(m, r, place).0)
    ensures Visit(m, MapRule(f, r), place).1 == Visit(m, r, place).1
    decreases r, 1
  {
    if m(r.when) {
      VisitAllMapped(m, f, r.nested, place, 0);
      assert MapHits(f, [HitOf(r, place)]) == [HitOf(MapRule(f, r), place)];
    }
  }

  /** The walk looks at selectors and final marks only: other configs, same walk. */
  lemma {:induction false} VisitAllMapped<W, C, D>(
    m: W -> bool, f: C -> D, rules: seq<Rule<W, C>>, parent: Place, k: nat)
    ensures VisitAll(m, MapRules(f, rules), parent, k).0 == MapHits(f, VisitAll(m, rules, parent, k).0)
    ensures VisitAll(m, MapRules(f, rules), parent, k).1 == VisitAll(m, rules, parent, k).1
    decreases rules, 0
  {
    if rules != [] {
      VisitMapped(m, f, rules[0], parent + [k]);
      VisitAllMapped(m, f, rules[1..], parent, k + 1);
      assert MapRules(f, rules)[0] == MapRule(f, rules[0]) && MapRules(f, rules)[1..] == MapRules(f, rules[1..]);
    }
  }

  /** What a block lowers to, as literals. */
  function LoweredBlock(env: Env, c: Config): Config {
    LowerAll(env, [], c).cfg.Literal()
  }

  lemma LoweredBlockLowersToItself(env: Env, place: Place, c: Config)
    ensures LowerAll(env, place, LoweredBlock(env, c)).cfg.Literal() == LowerAll(env, place, c).cfg.Literal()
  {
    LowerFromNoSources(env, place, Lowered(LoweredBlock(env, c), [], []), SOURCE_ORDER);
    LowerFromShape(env, place, [], Lowered(c, [], []), Lowered(c, [], []), SOURCE_ORDER);
  }

  /** Two walks whose stacks hold the same literals and directives conclude alike. */
  lemma SameConclusion<W>(v: Walked<W>, w: Walked<W>, host: string)
    requires v.chain == w.chain && |v.stack| == |w.stack|
    requires forall i :: 0 <= i < |v.stack| ==> v.stack[i].ignore == w.stack[i].ignore
    requires forall i :: 0 <= i < |v.stack| ==> v.stack[i].cfg.Literal() == w.stack[i].cfg.Literal()
    ensures Concluded(v, host).Outcome() == Concluded(w, host).Outcome()
  {
    ResolveStackLiteral(v.stack, w.stack);
    assert Directives(v.stack) == Directives(w.stack);
  }

  /** The same matched rules with other blocks that push the same literals. */
  lemma SameLiterals<W>(env: Env, f: Config -> Config, a: seq<Hit<W, Config>>, host: string)
    requires forall i :: 0 <= i < |a| ==>
               LowerAll(env, a[i].place, a[i].config).cfg.Literal() ==
               LowerAll(env, a[i].place, f(a[i].config)).cfg.Literal()
    ensures Concluded(Gather(env, a), host).Outcome() == Concluded(Gather(env, MapHits(f, a)), host).Outcome()
  {
    var b := MapHits(f, a);
    Aligned(env, a);
    Aligned(env, b);
    SameConclusion(Gather(env, a), Gather(env, b), host);
  }

  /** Blocks without sources leave no provenance and no warning. */
  lemma {:induction false} NoSourcesNoRecord<W>(env: Env, hits: seq<Hit<W, Config>>)
    requires forall i :: 0 <= i < |hits| ==> hits[i].config.sources == map[]
    ensures Gather(env, hits).provenance == [] && Gather(env, hits).warnings == []
  {
    if hits != [] {
      LowerFromNoSources(env, hits[0].place, Lowered(hits[0].config, [], []), SOURCE_ORDER);
      NoSourcesNoRecord(env, hits[1..]);
    }
  }

  /**
   Lowering preserves meaning: the tree with its source blocks resolves to the same config, chain, ignore and error as
   the tree in which every block is replaced by the literals it lowers to, and that tree has nothing left to record.
   */
  lemma LoweringPreservesMeaning<W>(m: W -> bool, rules: seq<Rule<W, Config>>, env: Env, host: string)
    ensures var lowered := Resolve(m, MapRules((c: Config) => LoweredBlock(env, c), rules), env, host);
            && Resolve(m, rules, env, host).Outcome() == lowered.Outcome()
            && lowered == lowered.Outcome()
  {
    var f := (c: Config) => LoweredBlock(env, c);
    VisitAllMapped(m, f, rules, [], 0);
    var a := VisitAll(m, rules, [], 0).0;
    var b := MapHits(f, a);
    forall i | 0 <= i < |a|
      ensures LowerAll(env, a[i].place, a[i].config).cfg.Literal() ==
              LowerAll(env, a[i].place, f(a[i].config)).cfg.Literal()
    {
      LoweredBlockLowersToItself(env, a[i].place, a[i].config);
    }
    SameLiterals(env, f, a, host);
    NoSourcesNoRecord(env, b);
  }

  /**
   When every source of the matched rules is absent or refused and no default steps in, the source blocks might as well
   be deleted.
   */
  lemma SilentSourcesDeletable<W>(m: W -> bool, rules: seq<Rule<W, Config>>, env: Env, host: string)
    requires forall h :: h in VisitAll(m, rules, [], 0).0 ==> Mute(env, h.config)
    ensures Resolve(m, rules, env, host).Outcome() == Resolve(m, MapRules((c: Config) => c.Literal(), rules), env, host)
  {
    var f := (c: Config) => c.Literal();
    VisitAllMapped(m, f, rules, [], 0);
    var a := VisitAll(m, rules, [], 0).0;
    var b := MapHits(f, a);
    forall i | 0 <= i < |a|
      ensures LowerAll(env, a[i].place, a[i].config).cfg.Literal() ==
              LowerAll(env, a[i].place, f(a[i].config)).cfg.Literal()
    {
      assert a[i] in a;
      SilentIffMute(env, a[i].config);
      LowerFromNoSources(env, a[i].place, Lowered(f(a[i].config), [], []), SOURCE_ORDER);
      LowerFromSilent(env, a[i].place, Lowered(a[i].config, [], []), SOURCE_ORDER);
    }
    SameLiterals(env, f, a, host);
    NoSourcesNoRecord(env, b);
  }

  // ----- the walk as it runs

  class Walker<W> {
    const matches: W -> bool
    const resolver: Resolver
    var stack: seq<StackEntry>
    var chain: seq<Step<W>>

    ghost function View(): Walked<W>
      reads this, resolver
    {
      Walked(stack, chain, resolver.provenance, resolver.warnings)
    }

    constructor (matches: W -> bool, resolver: Resolver)
      ensures this.matches == matches && this.resolver == resolver && stack == [] && chain == []
    {
      this.matches, this.resolver, stack, chain := matches, resolver, [], [];
    }

    /** Apply one rule: push it if it matches, descend, and say whether the whole walk halts. */
    method VisitRule(r: Rule<W, Config>, place: Place) returns (halt: bool)
      modifies this, resolver
      ensures View() == Plus(old(View()), Gather(resolver.env, Visit(matches, r, place).0))
      ensures halt == Visit(matches, r, place).1
      decreases r, 1
    {
      PlusAssociates(View(), Nothing(), Nothing());
      if !matches(r.when) {
        return false;
      }
      ghost var hits := VisitAll(matches, r.nested, place, 0).0;
      ghost var h := HitOf(r, place);
      chain := chain + [Step(place, r.when, r.final)];
      var cfg := resolver.Apply(place, r.config);
      stack := stack + [StackEntry(cfg, r.ignore)];
      assert View() == Plus(old(View()), One(resolver.env, h));
      halt := WalkRules(r.nested, place);
      PlusAssociates(old(View()), One(resolver.env, h), Gather(resolver.env, hits));
      assert ([h] + hits)[1..] == hits;
      return halt || r.final;
    }

    /** Sibling rules in order, up to the first that halts the walk. */
    method WalkRules(rules: seq<Rule<W, Config>>, parent: Place) returns (halted: bool)
      modifies this, resolver
      ensures View() == Plus(old(View()), Gather(resolver.env, VisitAll(matches, rules, parent, 0).0))
      ensures halted == VisitAll(matches, rules, parent, 0).1
      decreases rules, 0
    {
      ghost var done: seq<Hit<W, Config>> := [];
      ghost var gained: Walked<W> := Nothing();
      halted := false;
      var i := 0;
      PlusAssociates(View(), Nothing(), Nothing());
      while i < |rules| && !halted
        invariant Midway(matches, rules, parent, i, done, halted)
        invariant gained == Gather(resolver.env, done) && View() == Plus(old(View()), gained)
        decreases |rules| - i
      {
        ghost var first := Visit(matches, rules[i], parent + [i]).0;
        halted := VisitRule(rules[i], parent + [i]);
        MidwayStep(matches, rules, parent, i, done);
        GatherConcat(resolver.env, done, first);
        PlusAssociates(old(View()), gained, Gather(resolver.env, first));
        gained, done := Plus(gained, Gather(resolver.env, first)), done + first;
        i := i + 1;
      }
      MidwayEnd(matches, rules, parent, i, done, halted);
    }
  }

  method ResolveTree<W>(m: W -> bool, rules: seq<Rule<W, Config>>, env: Env, host: string) returns (res: Resolution<W>)
    ensures res == Resolve(m, rules, env, host)
  {
    var resolver := new Resolver(env);
    var walker := new Walker(m, resolver);
    var halted := walker.WalkRules(rules, []);
    PlusAssociates(Gather(env, VisitAll(m, rules, [], 0).0), Nothing(), Nothing());
    res := Conclude(walker.stack, walker.chain, resolver.provenance, resolver.warnings, host);
  }

  /** The outcome of a finished walk. */
  method Conclude<W>(
    stack: seq<StackEntry>, chain: seq<Step<W>>, provenance: seq<Provenance>, warnings: seq<Warning>, host: string)
    returns (res: Resolution<W>)
    ensures res == Concluded(Walked(stack, chain, provenance, warnings), host)
  {
    if stack == [] {
      return Resolution(EMPTY, chain, provenance, warnings, false, false, false, None);
    }
    var ignored := DeepestIgnore(stack);
    var config := Collapse(stack);
    var wildcard := '*' in host;
    var err: Option<Problem> := None;
    if !ignored {
      if wildcard {
        err := Some(WildcardHost);
      } else {
        err := CheckValues(config);
      }
    }
    res := Resolution(config, chain, provenance, warnings, ignored, true, wildcard, err);
  }

  method DeepestIgnore(stack: seq<StackEntry>) returns (ignored: bool)
    ensures ignored == Ignored(stack)
  {
    ignored := false;
    ghost var layers := Directives(stack);
    for i := 0 to |stack|
      invariant ignored == Deepest(layers[..i], false)
    {
      assert layers[..i + 1][..i] == layers[..i];
      if stack[i].ignore.Some? {
        ignored := stack[i].ignore.value;
      }
    }
    assert layers[..|stack|] == layers;
  }

  method Collapse(stack: seq<StackEntry>) returns (out: Config)
    ensures out == ResolveStack(stack)
  {
    out := EMPTY;
    for i := 0 to |stack|
      invariant out == ResolveStack(stack[..i])
    {
      assert stack[..i + 1][..i] == stack[..i];
      out := CollapseLayer(out, stack[i].cfg);
    }
    assert stack[..|stack|] == stack;
  }

  /** Copy the scalars a layer sets, replace its codes, and merge its lists. */
  method CollapseLayer(accum: Config, c: Config) returns (out: Config)
    ensures out == Layered(accum, c)
  {
    var notify, tags, dependsOn := accum.notify, accum.tags, accum.dependsOn;
    if c.IsSet(Notify) {
      var values := MergeLists(notify.values, c.notify.values, c.notify.override);
      notify := UnionList(values, false);
    }
    if c.IsSet(Tags) {
      var values := MergeLists(tags.values, c.tags.values, c.tags.override);
      tags := UnionList(values, false);
    }
    if c.IsSet(DependsOn) {
      var values := MergeLists(dependsOn.values, c.dependsOn.values, c.dependsOn.override);
      dependsOn := UnionList(values, false);
    }
    out := accum.(
      scalars := map k: Key | true :: if c.IsSet(Value(k)) then c.Get(k) else accum.Get(k),
      codes := if c.IsSet(Codes) then c.codes else accum.codes,
      notify := notify, tags := tags, dependsOn := dependsOn);
  }
}
