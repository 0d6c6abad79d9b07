/**
 Where a source's value lands: what a lowered block holds field by field, said
 from the annotations and defaults alone, and what the resolved tree makes of it.
 */
module Landing {
  import opened Base
  import opened Annotations
  import opened KubeConfig
  import opened Cascade
  import opened Lowering
  import opened KubeResolve
  import opened Merge

  /** What a block says about one field. */
  datatype Content = Content(isSet: bool, scalar: Scalar, list: UnionList, codes: seq<int>)

  function ContentOf(c: Config, f: Field): Content {
    var scalar := if f.Value? then c.Get(f.key) else Flag(false);
    Content(c.IsSet(f), scalar, ListOf(c, f), if f == Codes then c.codes else [])
  }

  predicate IsOverrideKey(k: SourceKey) {
    k == NotifyOverrideFrom || k == TagsOverrideFrom
  }

  /** What a source that speaks says: its annotation if that is usable, and its default otherwise. */
  ghost function Says(env: Env, k: SourceKey, src: ValueSource): Content {
    var raw, usable := Raw(env, src), Usable(env, k, src);
    match KindOf(k)
    case ScalarKind => Content(true, Text(if usable then TrimSpace(raw) else src.defaultScalar), NO_LIST, [])
    case ListKind =>
      var values := if usable then Kept(env, FieldOf(k), SplitList(raw)) else src.defaultList;
      Content(true, Flag(false), UnionList(values, IsOverrideKey(k)), [])
    case CodesKind =>
      Content(true, Flag(false), NO_LIST, GoodCodes(if usable then SplitList(raw) else src.defaultList))
  }

  // ----- one write

  predicate Fits(k: SourceKey, w: Write) {
    match KindOf(k)
    case ScalarKind => w.OneText?
    case ListKind => w.Names?
    case CodesKind => w.CodeList?
  }

  function Carries(k: SourceKey, w: Write): Content
    requires Fits(k, w)
  {
    match w
    case OneText(t) => Content(true, Text(t), NO_LIST, [])
    case Names(v) => Content(true, Flag(false), UnionList(v, IsOverrideKey(k)), [])
    case CodeList(v) => Content(true, Flag(false), NO_LIST, v)
  }

  /** A write lands in its own field and touches no other. */
  lemma WriteLands(c: Config, k: SourceKey, w: Write, f: Field)
    requires Fits(k, w)
    ensures ContentOf(Written(c, k, w), f) == if f == FieldOf(k) then Carries(k, w) else ContentOf(c, f)
    ensures Written(c, k, w).sources == c.sources
  {
  }

  /** A source that writes, writes what it says. */
  lemma ContributesWhatItSays(env: Env, k: SourceKey, src: ValueSource)
    requires Speaks(env, k, src)
    ensures var w := Contribute(env, k, src).write;
            w.Some? && Fits(k, w.value) && Carries(k, w.value) == Says(env, k, src)
  {
    WritesIff(env, k, src);
    match KindOf(k) {
      case ScalarKind =>
      case ListKind => KeptExact(env, FieldOf(k), SplitList(Raw(env, src)));
      case CodesKind => GoodCodesSome(SplitList(Raw(env, src)));
    }
  }

  // ----- one block

  /** The source of the field that has the last word among the given keys. */
  ghost predicate HasLastWord(env: Env, c: Config, keys: seq<SourceKey>, i: int) {
    && 0 <= i < |keys| && keys[i] in c.sources && Speaks(env, keys[i], c.sources[keys[i]])
    && forall j :: i < j < |keys| ==> !Rivals(env, c, keys[j], FieldOf(keys[i]))
  }

  ghost predicate Rivals(env: Env, c: Config, k: SourceKey, f: Field) {
    k in c.sources && FieldOf(k) == f && Speaks(env, k, c.sources[k])
  }

  lemma LowerOneLands(env: Env, place: Place, acc: Lowered, k: SourceKey, src: ValueSource, f: Field)
    ensures ContentOf(Lower(env, place, acc, k, src).cfg, f) ==
              if FieldOf(k) == f && Speaks(env, k, src) then Says(env, k, src) else ContentOf(acc.cfg, f)
  {
    WritesIff(env, k, src);
    if Speaks(env, k, src) {
      ContributesWhatItSays(env, k, src);
      WriteLands(acc.cfg, k, Contribute(env, k, src).write.value, f);
    }
  }

  /** No source among the keys speaks for the field. */
  ghost predicate NoRivals(env: Env, c: Config, keys: seq<SourceKey>, f: Field) {
    forall j :: 0 <= j < |keys| ==> !Rivals(env, c, keys[j], f)
  }

  lemma LowerNextLands(env: Env, place: Place, acc: Lowered, keys: seq<SourceKey>, f: Field)
    requires keys != []
    ensures var n := |keys| - 1;
            ContentOf(LowerFrom(env, place, acc, keys).cfg, f) ==
              if Rivals(env, acc.cfg, keys[n], f) then Says(env, keys[n], acc.cfg.sources[keys[n]])
              else ContentOf(LowerFrom(env, place, acc, keys[..n]).cfg, f)
  {
    var n := |keys| - 1;
    if keys[n] in acc.cfg.sources {
      LowerOneLands(env, place, LowerFrom(env, place, acc, keys[..n]), keys[n], acc.cfg.sources[keys[n]], f);
    }
  }

  lemma {:induction false} LowerFromStays(env: Env, place: Place, acc: Lowered, keys: seq<SourceKey>, f: Field)
    requires NoRivals(env, acc.cfg, keys, f)
    ensures ContentOf(LowerFrom(env, place, acc, keys).cfg, f) == ContentOf(acc.cfg, f)
  {
    if keys != [] {
      LowerFromStays(env, place, acc, keys[..|keys| - 1], f);
      LowerNextLands(env, place, acc, keys, f);
    }
  }

  lemma {:induction false} LowerFromLands(env: Env, place: Place, acc: Lowered, keys: seq<SourceKey>, i: int)
    requires HasLastWord(env, acc.cfg, keys, i)
    ensures ContentOf(LowerFrom(env, place, acc, keys).cfg, FieldOf(keys[i])) ==
              Says(env, keys[i], acc.cfg.sources[keys[i]])
  {
    var n := |keys| - 1;
    LowerNextLands(env, place, acc, keys, FieldOf(keys[i]));
    if i < n {
      assert !Rivals(env, acc.cfg, keys[n], FieldOf(keys[i]));
      LowerFromLands(env, place, acc, keys[..n], i);
    }
  }

  /** The key that overrides comes later and so has the last word over its plain twin. */
  predicate Outranks(later: SourceKey, k: SourceKey) {
    (later == NotifyOverrideFrom && k == NotifyFrom) || (later == TagsOverrideFrom && k == TagsFrom)
  }

  function PositionOf(k: SourceKey): (i: nat)
    ensures i < |SOURCE_ORDER| && SOURCE_ORDER[i] == k
  {
    match k
    case PathFrom => 0 case SlackFrom => 1 case NotifyFrom => 2 case NotifyOverrideFrom => 3
    case TagsFrom => 4 case TagsOverrideFrom => 5 case CodesFrom => 6
  }

  /**
   A source that speaks, and whose overriding twin does not, leaves in its field exactly what it says: the usable
   annotation or the default, as an override iff its key is one.
   */
  lemma SourceLands(env: Env, place: Place, c: Config, k: SourceKey)
    requires k in c.sources && Speaks(env, k, c.sources[k])
    requires forall later :: later in c.sources && Outranks(later, k) ==> !Speaks(env, later, c.sources[later])
    ensures ContentOf(LowerAll(env, place, c).cfg, FieldOf(k)) == Says(env, k, c.sources[k])
  {
    var i := PositionOf(k);
    forall j | i < j < |SOURCE_ORDER| ensures !Rivals(env, c, SOURCE_ORDER[j], FieldOf(k)) {
      assert PositionOf(SOURCE_ORDER[j]) == j;
      assert FieldOf(SOURCE_ORDER[j]) == FieldOf(k) ==> Outranks(SOURCE_ORDER[j], k);
    }
    assert HasLastWord(env, c, SOURCE_ORDER, i);
    LowerFromLands(env, place, Lowered(c, [], []), SOURCE_ORDER, i);
  }

  /** No source of the field speaks. */
  ghost predicate Unspoken(env: Env, c: Config, f: Field) {
    forall k :: k in c.sources ==> !Rivals(env, c, k, f)
  }

  /** A field none of whose sources speaks is left as the block has it. */
  lemma OtherFieldsStay(env: Env, place: Place, c: Config, f: Field)
    requires Unspoken(env, c, f)
    ensures ContentOf(LowerAll(env, place, c).cfg, f) == ContentOf(c, f)
  {
    forall j | 0 <= j < |SOURCE_ORDER| ensures !Rivals(env, c, SOURCE_ORDER[j], f) {
      assert SOURCE_ORDER[j] in c.sources ==> !Rivals(env, c, SOURCE_ORDER[j], f);
    }
    LowerFromStays(env, place, Lowered(c, [], []), SOURCE_ORDER, f);
  }

  // ----- the tree

  /** The rule has nothing to say about the field, neither literally nor by a source that speaks. */
  ghost predicate Quiet(env: Env, c: Config, f: Field) {
    !c.IsSet(f) && Unspoken(env, c, f)
  }

  lemma QuietStaysUnset(env: Env, place: Place, c: Config, f: Field)
    requires Quiet(env, c, f)
    ensures !LowerAll(env, place, c).cfg.IsSet(f)
  {
    OtherFieldsStay(env, place, c, f);
    assert ContentOf(LowerAll(env, place, c).cfg, f).isSet == c.IsSet(f);
  }

  /** An override with nothing said after it is the resolved list. */
  lemma LastOverrideResolves(stack: seq<StackEntry>, f: Field, i: nat)
    requires f in {Notify, Tags, DependsOn} && i < |stack|
    requires var layers := ListLayers(stack, f);
             layers[i].isSet && layers[i].override && forall j :: i < j < |layers| ==> !layers[j].isSet
    ensures ListOf(ResolveStack(stack), f).values == Dedup(ListLayers(stack, f)[i].values)
  {
    var layers := ListLayers(stack, f);
    assert IsBaseline(layers, i);
    ListClosedForm(stack, f, i);
    ContributedFirstOnly(layers[i..]);
  }

  /**
   The tree: if the last matched rule that says anything about a list says it through an overriding source, the resolved
   list is what that source says, without repeats, whatever the rules above contributed.
   */
  lemma OverrideSourceReplaces<W>(
    m: W -> bool, rules: seq<Rule<W, Config>>, env: Env, host: string, k: SourceKey, i: nat)
    requires IsOverrideKey(k) && i < |VisitAll(m, rules, [], 0).0|
    requires var c := VisitAll(m, rules, [], 0).0[i].config; k in c.sources && Speaks(env, k, c.sources[k])
    requires var hits := VisitAll(m, rules, [], 0).0;
             forall j :: i < j < |hits| ==> Quiet(env, hits[j].config, FieldOf(k))
    ensures var src := VisitAll(m, rules, [], 0).0[i].config.sources[k];
            ListOf(Resolve(m, rules, env, host).config, FieldOf(k)).values == Dedup(Says(env, k, src).list.values)
  {
    var hits, f := VisitAll(m, rules, [], 0).0, FieldOf(k);
    Aligned(env, hits);
    var stack := Gather(env, hits).stack;
    var layers := ListLayers(stack, f);
    SourceLands(env, hits[i].place, hits[i].config, k);
    assert ContentOf(stack[i].cfg, f) == Says(env, k, hits[i].config.sources[k]);
    forall j | i < j < |hits| ensures !layers[j].isSet {
      QuietStaysUnset(env, hits[j].place, hits[j].config, f);
    }
    LastOverrideResolves(stack, f, i);
  }

  /** The source reads the given key of the given annotations: the namespace's if it names a key there. */
  predicate ReadsFrom(env: Env, src: ValueSource, key: string, table: map<string, string>) {
    || (src.namespaceAnnotation == "" && src.annotation == key && table == env.ingress)
    || (src.namespaceAnnotation != "" && src.namespaceAnnotation == key && table == env.namespace)
  }

  /** A source reads its key, and an annotation that is not there is blank. */
  lemma ReadsKey(env: Env, src: ValueSource, key: string, table: map<string, string>)
    requires ReadsFrom(env, src, key, table)
    ensures Raw(env, src) == (if key in table then table[key] else "") && KeyOf(src) == key
  {
  }

  /** The same for a usable annotation: the resolved list is its usable entries, without repeats. */
  lemma UsableOverrideReplaces<W>(
    m: W -> bool, rules: seq<Rule<W, Config>>, env: Env, host: string,
    k: SourceKey, i: nat, key: string, table: map<string, string>)
    requires IsOverrideKey(k) && i < |VisitAll(m, rules, [], 0).0|
    requires var c := VisitAll(m, rules, [], 0).0[i].config;
             k in c.sources && ReadsFrom(env, c.sources[k], key, table) && key in table
    requires exists e :: e in SplitList(table[key]) && CheckEntry(env, FieldOf(k), e).None?
    requires var hits := VisitAll(m, rules, [], 0).0;
             forall j :: i < j < |hits| ==> Quiet(env, hits[j].config, FieldOf(k))
    ensures ListOf(Resolve(m, rules, env, host).config, FieldOf(k)).values ==
              Dedup(Kept(env, FieldOf(k), SplitList(table[key])))
  {
    var src := VisitAll(m, rules, [], 0).0[i].config.sources[k];
    ReadsKey(env, src, key, table);
    if TrimSpace(table[key]) == "" {
      BlankHasNoEntries(table[key]);
    }
    assert Usable(env, k, src);
    OverrideSourceReplaces(m, rules, env, host, k, i);
  }

  /** Without an override, what any layer that sets a list says is among the resolved values. */
  lemma {:induction false} NoOverrideKeeps(stack: seq<StackEntry>, f: Field, j: nat, x: string)
    requires f in {Notify, Tags, DependsOn} && forall i :: 0 <= i < |stack| ==> !ListOf(stack[i].cfg, f).override
    requires j < |stack| && stack[j].cfg.IsSet(f) && x in ListOf(stack[j].cfg, f).values
    ensures x in ListOf(ResolveStack(stack), f).values
  {
    var layers := ListLayers(stack, f);
    assert IsBaseline(layers, 0) && layers[0..] == layers;
    ListClosedForm(stack, f, 0);
    ContributedHas(layers, j, x);
    DedupExact(Contributed(layers));
  }

  /**
   The tree: where no rule overrides, a plain list source adds what it says to the resolved list, and takes nothing away
   from what any other matched rule contributes.
   */
  lemma UnionSourceAdds<W>(
    m: W -> bool, rules: seq<Rule<W, Config>>, env: Env, host: string, k: SourceKey, i: nat, j: nat, x: string)
    requires k in {NotifyFrom, TagsFrom} && i < |VisitAll(m, rules, [], 0).0| && j < |VisitAll(m, rules, [], 0).0|
    requires var c := VisitAll(m, rules, [], 0).0[i].config;
             && k in c.sources && Speaks(env, k, c.sources[k])
             && forall later :: later in c.sources && Outranks(later, k) ==> !Speaks(env, later, c.sources[later])
    requires var hits := VisitAll(m, rules, [], 0).0;
             forall n :: 0 <= n < |hits| && n != i ==>
               !ListOf(LowerAll(env, hits[n].place, hits[n].config).cfg, FieldOf(k)).override
    requires var h := VisitAll(m, rules, [], 0).0[j];
             var l := LowerAll(env, h.place, h.config).cfg;
             if j == i then x in Says(env, k, h.config.sources[k]).list.values
             else l.IsSet(FieldOf(k)) && x in ListOf(l, FieldOf(k)).values
    ensures x in ListOf(Resolve(m, rules, env, host).config, FieldOf(k)).values
  {
    var hits, f := VisitAll(m, rules, [], 0).0, FieldOf(k);
    Aligned(env, hits);
    var stack := Gather(env, hits).stack;
    SourceLands(env, hits[i].place, hits[i].config, k);
    assert ContentOf(stack[i].cfg, f) == Says(env, k, hits[i].config.sources[k]);
    NoOverrideKeeps(stack, f, j, x);
  }

  /** The tree: a scalar whose last word is a source resolves to what that source says. */
  lemma ScalarSourceResolves<W>(
    m: W -> bool, rules: seq<Rule<W, Config>>, env: Env, host: string, k: SourceKey, i: nat)
    requires KindOf(k) == ScalarKind && i < |VisitAll(m, rules, [], 0).0|
    requires var c := VisitAll(m, rules, [], 0).0[i].config; k in c.sources && Speaks(env, k, c.sources[k])
    requires var hits := VisitAll(m, rules, [], 0).0;
             forall j :: i < j < |hits| ==> Quiet(env, hits[j].config, FieldOf(k))
    ensures var src := VisitAll(m, rules, [], 0).0[i].config.sources[k];
            Resolve(m, rules, env, host).config.Get(FieldOf(k).key) == Says(env, k, src).scalar
  {
    var hits, f := VisitAll(m, rules, [], 0).0, FieldOf(k);
    SourceLands(env, hits[i].place, hits[i].config, k);
    assert ContentOf(LowerAll(env, hits[i].place, hits[i].config).cfg, f) == Says(env, k, hits[i].config.sources[k]);
    forall j | i < j < |hits| ensures !LowerAll(env, hits[j].place, hits[j].config).cfg.IsSet(f) {
      QuietStaysUnset(env, hits[j].place, hits[j].config, f);
    }
    ScalarComesFrom(m, rules, env, host, f.key, i);
  }

  // ----- the record

  /** Why a default stood in: nothing was there to read, or nothing that was there could be used. */
  ghost function CauseOf(env: Env, k: SourceKey, src: ValueSource): Cause {
    if Usable(env, k, src) then NoCause
    else if TrimSpace(Raw(env, src)) == "" || (KindOf(k) == CodesKind && SplitList(Raw(env, src)) == []) then Absent
    else Rejected
  }

  /** The value as the record shows it; a default list of codes is shown as it was written. */
  ghost function ShownAs(env: Env, k: SourceKey, src: ValueSource): Write {
    match KindOf(k)
    case ScalarKind => OneText(Says(env, k, src).scalar.AsText())
    case ListKind => Names(Says(env, k, src).list.values)
    case CodesKind => if Usable(env, k, src) then CodeList(Says(env, k, src).codes) else Names(src.defaultList)
  }

  /** What the record says of a source: where its value came from, and why not from the annotation. */
  ghost function RecordOf(env: Env, place: Place, k: SourceKey, src: ValueSource): seq<Provenance> {
    if !Speaks(env, k, src) then []
    else
      var scope := if !Usable(env, k, src) then FromDefault
                   else if src.namespaceAnnotation != "" then FromNamespace else FromIngress;
      [Provenance(place, FieldOf(k), KeyOf(src), scope, ShownAs(env, k, src), CauseOf(env, k, src))]
  }

  lemma {:induction false} CodesSplit(entries: seq<string>)
    ensures |GoodCodes(entries)| + |BadCodes(entries)| == |entries|
  {
    if entries != [] {
      CodesSplit(entries[..|entries| - 1]);
    }
  }

  lemma RecordsWhatItSays(env: Env, place: Place, c: Config, k: SourceKey, src: ValueSource)
    ensures Effect(place, c, k, src, Contribute(env, k, src)).provenance == RecordOf(env, place, k, src)
  {
    WritesIff(env, k, src);
    if Speaks(env, k, src) {
      ContributesWhatItSays(env, k, src);
      ScopeAndCause(env, k, src);
    }
  }

  lemma ScopeAndCause(env: Env, k: SourceKey, src: ValueSource)
    requires Speaks(env, k, src)
    ensures var con := Contribute(env, k, src);
            && con.scope == (if Usable(env, k, src) then ScopeOf(src) else FromDefault)
            && con.cause == CauseOf(env, k, src)
  {
    match KindOf(k) {
      case ScalarKind =>
      case ListKind => KeptExact(env, FieldOf(k), SplitList(Raw(env, src)));
      case CodesKind =>
        GoodCodesSome(SplitList(Raw(env, src)));
        CodesSplit(SplitList(Raw(env, src)));
    }
  }

  ghost function RecordsOf(env: Env, place: Place, c: Config, keys: seq<SourceKey>): seq<Provenance> {
    if keys == [] then []
    else
      var n := |keys| - 1;
      RecordsOf(env, place, c, keys[..n]) +
      if keys[n] in c.sources then RecordOf(env, place, keys[n], c.sources[keys[n]]) else []
  }

  /** The record of a block has one line per source that speaks, in the fixed order of the sources. */
  lemma {:induction false} BlockRecords(env: Env, place: Place, c: Config, keys: seq<SourceKey>)
    ensures LowerFrom(env, place, Lowered(c, [], []), keys).provenance == RecordsOf(env, place, c, keys)
  {
    if keys != [] {
      var n := |keys| - 1;
      BlockRecords(env, place, c, keys[..n]);
      if keys[n] in c.sources {
        var before := LowerFrom(env, place, Lowered(c, [], []), keys[..n]).cfg;
        RecordsWhatItSays(env, place, before, keys[n], c.sources[keys[n]]);
      }
    }
  }

  /** The warnings of a block: for each of its sources in order, the values refused. */
  ghost function WarningsOf(env: Env, place: Place, c: Config, keys: seq<SourceKey>): seq<Warning> {
    if keys == [] then []
    else
      var n := |keys| - 1;
      WarningsOf(env, place, c, keys[..n]) +
      if keys[n] !in c.sources then []
      else Warns(place, keys[n], c.sources[keys[n]], Contribute(env, keys[n], c.sources[keys[n]]).refused)
  }

  /** The warning about a refused value names the rule, the field, and the annotation that was read. */
  function WarningFor(place: Place, k: SourceKey, src: ValueSource, bad: Rejection): Warning {
    if src.namespaceAnnotation != "" then Warning(place, FieldOf(k), src.namespaceAnnotation, FromNamespace, bad)
    else Warning(place, FieldOf(k), src.annotation, FromIngress, bad)
  }

  function Warns(place: Place, k: SourceKey, src: ValueSource, bad: seq<Rejection>): seq<Warning> {
    seq(|bad|, i requires 0 <= i < |bad| => WarningFor(place, k, src, bad[i]))
  }

  lemma SourceWarns(place: Place, k: SourceKey, src: ValueSource, bad: seq<Rejection>)
    ensures Warned(place, k, src, bad) == Warns(place, k, src, bad)
  {
    var a, b := Warned(place, k, src, bad), Warns(place, k, src, bad);
    forall i | 0 <= i < |bad| ensures a[i] == b[i] {
      assert b[i] == WarningFor(place, k, src, bad[i]);
      assert a[i] == Warning(place, FieldOf(k), KeyOf(src), ScopeOf(src), bad[i]);
    }
  }

  lemma {:induction false} BlockWarns(env: Env, place: Place, c: Config, keys: seq<SourceKey>)
    ensures LowerFrom(env, place, Lowered(c, [], []), keys).warnings == WarningsOf(env, place, c, keys)
  {
    if keys != [] {
      var n := |keys| - 1;
      BlockWarns(env, place, c, keys[..n]);
      if keys[n] in c.sources {
        var src := c.sources[keys[n]];
        SourceWarns(place, keys[n], src, Contribute(env, keys[n], src).refused);
      }
    }
  }

  ghost function TreeRecords<W>(env: Env, hits: seq<Hit<W, Config>>): seq<Provenance> {
    if hits == [] then []
    else RecordsOf(env, hits[0].place, hits[0].config, SOURCE_ORDER) + TreeRecords(env, hits[1..])
  }

  ghost function TreeWarnings<W>(env: Env, hits: seq<Hit<W, Config>>): seq<Warning> {
    if hits == [] then []
    else WarningsOf(env, hits[0].place, hits[0].config, SOURCE_ORDER) + TreeWarnings(env, hits[1..])
  }

  lemma {:induction false} GatherRecords<W>(env: Env, hits: seq<Hit<W, Config>>)
    ensures Gather(env, hits).provenance == TreeRecords(env, hits)
    ensures Gather(env, hits).warnings == TreeWarnings(env, hits)
  {
    if hits != [] {
      BlockRecords(env, hits[0].place, hits[0].config, SOURCE_ORDER);
      BlockWarns(env, hits[0].place, hits[0].config, SOURCE_ORDER);
      GatherRecords(env, hits[1..]);
    }
  }

  /** A resolution records, rule by rule and source by source, where each value came from and what was refused. */
  lemma ResolutionRecords<W>(m: W -> bool, rules: seq<Rule<W, Config>>, env: Env, host: string)
    ensures var res, hits := Resolve(m, rules, env, host), VisitAll(m, rules, [], 0).0;
            res.provenance == TreeRecords(env, hits) && res.warnings == TreeWarnings(env, hits)
  {
    GatherRecords(env, VisitAll(m, rules, [], 0).0);
  }

  // ----- what is refused

  /** What a field accepts. */
  predicate Acceptable(env: Env, f: Field, v: string) {
    match f
    case Value(Path) => |v| > 0 && v[0] == '/'
    case Value(Slack) => env.slackChannels.None? || v in env.slackChannels.value
    case Notify =>
      && !(|v| > 0 && v[0] == '<' && v[|v| - 1] == '>')
      && (env.userMapping.None? || v in env.userMapping.value)
    case Tags => env.validTag(v)
    case Codes => Atoi(v).Some? && 100 <= Atoi(v).value <= 599
    case _ => true
  }

  lemma AcceptsIff(env: Env, f: Field, v: string)
    ensures f in {Value(Path), Value(Slack)} ==> (CheckScalar(env, f, v).None? <==> Acceptable(env, f, v))
    ensures f in {Notify, Tags} ==> (CheckEntry(env, f, v).None? <==> Acceptable(env, f, v))
    ensures CheckCode(v).None? <==> Acceptable(env, Codes, v)
  {
  }

  /** Why a value is refused. */
  lemma ReasonsMean(env: Env, v: string)
    ensures CheckScalar(env, Value(Path), v) in {None, Some(NoLeadingSlash)}
    ensures CheckScalar(env, Value(Slack), v) in {None, Some(UnknownChannel)}
    ensures CheckEntry(env, Notify, v) == Some(RawMarkup) <==> |v| > 0 && v[0] == '<' && v[|v| - 1] == '>'
    ensures CheckEntry(env, Notify, v) in {None, Some(RawMarkup), Some(UnknownUser)}
    ensures CheckEntry(env, Tags, v) in {None, Some(InvalidTag)}
    ensures CheckCode(v) == Some(NotANumber) <==> Atoi(v).None?
    ensures CheckCode(v) in {None, Some(NotANumber), Some(NotAStatusCode)}
  {
  }

  /** The warnings of a source name exactly the values its field does not accept, each with its own reason. */
  lemma RefusalsWarned(env: Env, k: SourceKey, src: ValueSource, r: Rejection)
    ensures r in Contribute(env, k, src).refused ==> !Acceptable(env, FieldOf(k), r.value)
    ensures KindOf(k) == ScalarKind && TrimSpace(Raw(env, src)) != "" ==>
              (Contribute(env, k, src).refused == [] <==> Acceptable(env, FieldOf(k), TrimSpace(Raw(env, src))))
    ensures KindOf(k) != ScalarKind && TrimSpace(Raw(env, src)) != "" ==>
              forall e :: e in SplitList(Raw(env, src)) && !Acceptable(env, FieldOf(k), e) ==>
                exists q :: q in Contribute(env, k, src).refused && q.value == e
  {
    var entries := SplitList(Raw(env, src));
    AcceptsIff(env, FieldOf(k), r.value);
    AcceptsIff(env, FieldOf(k), TrimSpace(Raw(env, src)));
    RefusedExact(env, FieldOf(k), entries, r);
    BadCodesExact(entries, r);
    forall e | e in entries && !Acceptable(env, FieldOf(k), e)
      ensures KindOf(k) == ListKind ==> exists q :: q in Refused(env, FieldOf(k), entries) && q.value == e
      ensures KindOf(k) == CodesKind ==> exists q :: q in BadCodes(entries) && q.value == e
    {
      AcceptsIff(env, FieldOf(k), e);
      if KindOf(k) == ListKind {
        RefusedExact(env, FieldOf(k), entries, Rejection(e, CheckEntry(env, FieldOf(k), e).value));
      } else if KindOf(k) == CodesKind {
        BadCodesExact(entries, Rejection(e, CheckCode(e).value));
      }
    }
  }

  lemma {:induction false} RefusedExact(env: Env, f: Field, entries: seq<string>, r: Rejection)
    ensures r in Refused(env, f, entries) <==> r.value in entries && CheckEntry(env, f, r.value) == Some(r.reason)
  {
    if entries != [] {
      RefusedExact(env, f, entries[..|entries| - 1], r);
      assert entries == entries[..|entries| - 1] + [entries[|entries| - 1]];
    }
  }

  lemma {:induction false} BadCodesExact(entries: seq<string>, r: Rejection)
    ensures r in BadCodes(entries) <==> r.value in entries && CheckCode(r.value) == Some(r.reason)
  {
    if entries != [] {
      BadCodesExact(entries[..|entries| - 1], r);
      assert entries == entries[..|entries| - 1] + [entries[|entries| - 1]];
    }
  }
}
