/**
 The monitor-field block of a discovery rule, and the collapse of a stack of
 blocks into one, with its closed form field by field.
 */
module KubeConfig {
  import opened Base
  import opened Merge

  datatype Key =
    | Scheme | Path | HttpMethod | Interval | Timeout | Retries | RetryBackoff | FollowRedirects
    | TlsInsecureSkipVerify | Proxy | ReminderInterval | SslAlertThreshold | SslEscalationThreshold
    | SslReminderInterval | Slack

  /** A field of a rule's config block; ignore is the rule's own directive. */
  datatype Field = Value(key: Key) | Codes | Notify | Tags | DependsOn | Ignore

  datatype Scalar = Text(text: string) | Span(nanos: int) | Number(number: int) | Flag(on: bool) {
    function AsText(): string {
      if Text? then text else ""
    }

    function AsSpan(): int {
      if Span? then nanos else 0
    }

    function AsNumber(): int {
      if Number? then number else 0
    }
  }

  function ZeroOf(k: Key): Scalar {
    match k
    case Scheme | Path | HttpMethod | Proxy | Slack => Text("")
    case Retries => Number(0)
    case FollowRedirects | TlsInsecureSkipVerify => Flag(false)
    case Interval | Timeout | RetryBackoff | ReminderInterval | SslAlertThreshold | SslEscalationThreshold
      | SslReminderInterval => Span(0)
  }

  /** The zero values: no text, no time, no count, and off. */
  lemma ZeroIsZero(k: Key)
    ensures ZeroOf(k).AsText() == "" && ZeroOf(k).AsSpan() == 0 && ZeroOf(k).AsNumber() == 0 && ZeroOf(k) != Flag(true)
    ensures ZeroOf(k).Text? <==> k in {Scheme, Path, HttpMethod, Proxy, Slack}
    ensures ZeroOf(k).Number? <==> k == Retries
    ensures ZeroOf(k).Flag? <==> k in {FollowRedirects, TlsInsecureSkipVerify}
  {
  }

  datatype UnionList = UnionList(values: seq<string>, override: bool)

  /** Points one field at an annotation of the ingress or of its namespace. */
  datatype ValueSource = ValueSource(
    annotation: string, namespaceAnnotation: string, defaultScalar: string, defaultList: seq<string>, hasDefault: bool)

  /** The source blocks, in the fixed order they are read. */
  datatype SourceKey =
    PathFrom | SlackFrom | NotifyFrom | NotifyOverrideFrom | TagsFrom | TagsOverrideFrom | CodesFrom

  const SOURCE_ORDER := [PathFrom, SlackFrom, NotifyFrom, NotifyOverrideFrom, TagsFrom, TagsOverrideFrom, CodesFrom]

  /** Scalars missing from the map hold their zero value; setFields says which fields the block carries. */
  datatype Config = Config(
    scalars: map<Key, Scalar>,
    codes: seq<int>,
    notify: UnionList,
    tags: UnionList,
    dependsOn: UnionList,
    sources: map<SourceKey, ValueSource>,
    setFields: set<Field>)
  {
    function Get(k: Key): Scalar {
      if k in scalars then scalars[k] else ZeroOf(k)
    }

    predicate IsSet(f: Field) {
      f in setFields
    }

    /** The block with its literals only. */
    function Literal(): Config {
      this.(sources := map[])
    }
  }

  const NO_LIST := UnionList([], false)
  const EMPTY := Config(map[], [], NO_LIST, NO_LIST, NO_LIST, map[], {})

  datatype StackEntry = StackEntry(cfg: Config, ignore: Option<bool>)

  // ----- the collapse

  function MergedList(out: UnionList, isSet: bool, l: UnionList): UnionList {
    if isSet then UnionList(MergeStrings(out.values, l.values, l.override), false) else out
  }

  /** One more layer on the accumulated config. */
  function Layered(out: Config, c: Config): Config {
    out.(
      scalars := map k: Key | true :: if c.IsSet(Value(k)) then c.Get(k) else out.Get(k),
      codes := if c.IsSet(Codes) then c.codes else out.codes,
      notify := MergedList(out.notify, c.IsSet(Notify), c.notify),
      tags := MergedList(out.tags, c.IsSet(Tags), c.tags),
      dependsOn := MergedList(out.dependsOn, c.IsSet(DependsOn), c.dependsOn))
  }

  function ResolveStack(stack: seq<StackEntry>): Config {
    if stack == [] then EMPTY else Layered(ResolveStack(stack[..|stack| - 1]), stack[|stack| - 1].cfg)
  }

  function Directives(stack: seq<StackEntry>): seq<Option<bool>> {
    seq(|stack|, i requires 0 <= i < |stack| => stack[i].ignore)
  }

  /** The ignore directive of the deepest layer that carries one. */
  function Ignored(stack: seq<StackEntry>): bool {
    Deepest(Directives(stack), false)
  }

  // ----- its closed form

  function ScalarLayers(stack: seq<StackEntry>, k: Key): seq<Option<Scalar>> {
    seq(|stack|, i requires 0 <= i < |stack| =>
      if stack[i].cfg.IsSet(Value(k)) then Some(stack[i].cfg.Get(k)) else None)
  }

  function CodeLayers(stack: seq<StackEntry>): seq<Option<seq<int>>> {
    seq(|stack|, i requires 0 <= i < |stack| => if stack[i].cfg.IsSet(Codes) then Some(stack[i].cfg.codes) else None)
  }

  function ListOf(c: Config, f: Field): UnionList {
    match f
    case Notify => c.notify
    case Tags => c.tags
    case DependsOn => c.dependsOn
    case Value(_) | Codes | Ignore => NO_LIST
  }

  function ListLayers(stack: seq<StackEntry>, f: Field): seq<Layer> {
    seq(|stack|, i requires 0 <= i < |stack| =>
      Layer(stack[i].cfg.IsSet(f), ListOf(stack[i].cfg, f).values, ListOf(stack[i].cfg, f).override))
  }

  /** Per scalar, the value of the deepest layer that set it. */
  lemma {:induction false} ScalarIsDeepest(stack: seq<StackEntry>, k: Key)
    ensures ResolveStack(stack).Get(k) == Deepest(ScalarLayers(stack, k), ZeroOf(k))
  {
    if stack != [] {
      var n := |stack| - 1;
      ScalarIsDeepest(stack[..n], k);
      assert ScalarLayers(stack, k)[..n] == ScalarLayers(stack[..n], k);
    }
  }

  /** The status codes replace: the deepest layer that set them wins. */
  lemma {:induction false} CodesAreDeepest(stack: seq<StackEntry>)
    ensures ResolveStack(stack).codes == Deepest(CodeLayers(stack), [])
  {
    if stack != [] {
      var n := |stack| - 1;
      CodesAreDeepest(stack[..n]);
      assert CodeLayers(stack)[..n] == CodeLayers(stack[..n]);
    }
  }

  lemma {:induction false} ListIsFold(stack: seq<StackEntry>, f: Field)
    requires f in {Notify, Tags, DependsOn}
    ensures ListOf(ResolveStack(stack), f) == UnionList(FoldList(ListLayers(stack, f)), false)
  {
    if stack != [] {
      var n := |stack| - 1;
      ListIsFold(stack[..n], f);
      assert ListLayers(stack, f)[..n] == ListLayers(stack[..n], f);
    }
  }

  /** Per union list, the deduplicated contributions from the deepest override on; no value repeats. */
  lemma ListClosedForm(stack: seq<StackEntry>, f: Field, b: nat)
    requires f in {Notify, Tags, DependsOn} && IsBaseline(ListLayers(stack, f), b)
    ensures ListOf(ResolveStack(stack), f).values == Dedup(Contributed(ListLayers(stack, f)[b..]))
    ensures Distinct(ListOf(ResolveStack(stack), f).values)
  {
    ListIsFold(stack, f);
    FoldListClosedForm(ListLayers(stack, f), b);
  }

  /** The collapse reads literals only, layer by layer. */
  lemma {:induction false} ResolveStackLiteral(a: seq<StackEntry>, b: seq<StackEntry>)
    requires |a| == |b| && forall i :: 0 <= i < |a| ==> a[i].cfg.Literal() == b[i].cfg.Literal()
    ensures ResolveStack(a) == ResolveStack(b)
  {
    if a != [] {
      var n := |a| - 1;
      ResolveStackLiteral(a[..n], b[..n]);
      var x, y := a[n].cfg, b[n].cfg;
      assert x.Literal() == y.Literal();
      assert x.scalars == y.scalars && x.setFields == y.setFields;
      assert forall k :: x.Get(k) == y.Get(k);
    }
  }
}
