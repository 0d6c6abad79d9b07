/**
 Lowering a rule's source blocks into the literal fields the merge knows, for
 one ingress and its namespace: what each source contributes, when it falls back
 to its default, and when it contributes nothing.
 */
module Lowering {
  import opened Base
  import opened Annotations
  import opened KubeConfig
  import opened Cascade

  /** What a walk reads besides the rules. An absent roster switches its membership check off. */
  datatype Env = Env(
    ingress: map<string, string>,
    namespace: map<string, string>,
    userMapping: Option<set<string>>,
    slackChannels: Option<set<string>>,
    validTag: string -> bool)

  datatype Scope = FromIngress | FromNamespace | FromDefault

  datatype Cause = NoCause | Absent | Rejected

  datatype Reason =
    NoLeadingSlash | UnknownChannel | RawMarkup | UnknownUser | InvalidTag | NotANumber | NotAStatusCode

  datatype Rejection = Rejection(value: string, reason: Reason)

  datatype Provenance = Provenance(rule: Place, field: Field, key: string, scope: Scope, value: Write, cause: Cause)

  datatype Warning = Warning(rule: Place, field: Field, key: string, scope: Scope, rejection: Rejection)

  /** A value on its way into a literal field. */
  datatype Write = OneText(text: string) | Names(names: seq<string>) | CodeList(codes: seq<int>)

  datatype Kind = ScalarKind | ListKind | CodesKind

  function KindOf(k: SourceKey): Kind {
    match k
    case PathFrom | SlackFrom => ScalarKind
    case NotifyFrom | NotifyOverrideFrom | TagsFrom | TagsOverrideFrom => ListKind
    case CodesFrom => CodesKind
  }

  function FieldOf(k: SourceKey): Field {
    match k
    case PathFrom => Value(Path)
    case SlackFrom => Value(Slack)
    case NotifyFrom | NotifyOverrideFrom => Notify
    case TagsFrom | TagsOverrideFrom => Tags
    case CodesFrom => Codes
  }

  function Raw(env: Env, src: ValueSource): string {
    if src.namespaceAnnotation != ""
    then (if src.namespaceAnnotation in env.namespace then env.namespace[src.namespaceAnnotation] else "")
    else (if src.annotation in env.ingress then env.ingress[src.annotation] else "")
  }

  function ScopeOf(src: ValueSource): Scope {
    if src.namespaceAnnotation != "" then FromNamespace else FromIngress
  }

  function KeyOf(src: ValueSource): string {
    if src.namespaceAnnotation != "" then src.namespaceAnnotation else src.annotation
  }

  // ----- checks

  function CheckScalar(env: Env, f: Field, value: string): Option<Reason> {
    if f == Value(Path) && !("/" <= value) then Some(NoLeadingSlash)
    else if f == Value(Slack) && env.slackChannels.Some? && value !in env.slackChannels.value then Some(UnknownChannel)
    else None
  }

  function CheckEntry(env: Env, f: Field, entry: string): Option<Reason> {
    if f == Notify then
      if "<" <= entry && entry[|entry| - 1] == '>' then Some(RawMarkup)
      else if env.userMapping.Some? && entry !in env.userMapping.value then Some(UnknownUser)
      else None
    else if f == Tags && !env.validTag(entry) then Some(InvalidTag)
    else None
  }

  function CheckCode(entry: string): Option<Reason> {
    match Atoi(entry)
    case None => Some(NotANumber)
    case Some(n) => if n < 100 || n > 599 then Some(NotAStatusCode) else None
  }

  function Kept(env: Env, f: Field, entries: seq<string>): seq<string> {
    if entries == [] then [] else
    var last := entries[|entries| - 1];
    Kept(env, f, entries[..|entries| - 1]) + if CheckEntry(env, f, last).None? then [last] else []
  }

  function Refused(env: Env, f: Field, entries: seq<string>): seq<Rejection> {
    if entries == [] then [] else
    var last := entries[|entries| - 1];
    var c := CheckEntry(env, f, last);
    Refused(env, f, entries[..|entries| - 1]) + if c.Some? then [Rejection(last, c.value)] else []
  }

  function GoodCodes(entries: seq<string>): seq<int> {
    if entries == [] then [] else
    var last := entries[|entries| - 1];
    GoodCodes(entries[..|entries| - 1]) + if CheckCode(last).None? then [Atoi(last).value] else []
  }

  function BadCodes(entries: seq<string>): seq<Rejection> {
    if entries == [] then [] else
    var last := entries[|entries| - 1];
    var c := CheckCode(last);
    BadCodes(entries[..|entries| - 1]) + if c.Some? then [Rejection(last, c.value)] else []
  }

  // ----- one source

  /** What a source does: an optional write with its origin, and the values it had to refuse. */
  datatype Contribution = Contribution(write: Option<Write>, scope: Scope, cause: Cause, refused: seq<Rejection>)

  function DefaultWrite(k: SourceKey, src: ValueSource): Option<Write> {
    match KindOf(k)
    case ScalarKind => Some(OneText(src.defaultScalar))
    case ListKind => if src.defaultList == [] then None else Some(Names(src.defaultList))
    case CodesKind => if GoodCodes(src.defaultList) == [] then None else Some(CodeList(GoodCodes(src.defaultList)))
  }

  function FallBack(k: SourceKey, src: ValueSource, cause: Cause, refused: seq<Rejection>): Contribution {
    Contribution(if src.hasDefault then DefaultWrite(k, src) else None, FromDefault, cause, refused)
  }

  function Contribute(env: Env, k: SourceKey, src: ValueSource): Contribution {
    var raw, scope := Raw(env, src), ScopeOf(src);
    if TrimSpace(raw) == "" then FallBack(k, src, Absent, [])
    else match KindOf(k)
    case ScalarKind =>
      var value := TrimSpace(raw);
      var reason := CheckScalar(env, FieldOf(k), value);
      if reason.Some? then FallBack(k, src, Rejected, [Rejection(value, reason.value)])
      else Contribution(Some(OneText(value)), scope, NoCause, [])
    case ListKind =>
      var entries := SplitList(raw);
      var kept := Kept(env, FieldOf(k), entries);
      Contribution(if kept == [] then None else Some(Names(kept)), scope, NoCause, Refused(env, FieldOf(k), entries))
    case CodesKind =>
      var entries := SplitList(raw);
      if GoodCodes(entries) == [] then
        FallBack(k, src, if BadCodes(entries) == [] then Absent else Rejected, BadCodes(entries))
      else Contribution(Some(CodeList(GoodCodes(entries))), scope, NoCause, BadCodes(entries))
  }

  function Written(c: Config, k: SourceKey, w: Write): Config {
    var marked := c.(setFields := c.setFields + {FieldOf(k)});
    match (k, w)
    case (PathFrom, OneText(t)) => marked.(scalars := c.scalars[Path := Text(t)])
    case (SlackFrom, OneText(t)) => marked.(scalars := c.scalars[Slack := Text(t)])
    case (NotifyFrom, Names(v)) => marked.(notify := UnionList(v, false))
    case (NotifyOverrideFrom, Names(v)) => marked.(notify := UnionList(v, true))
    case (TagsFrom, Names(v)) => marked.(tags := UnionList(v, false))
    case (TagsOverrideFrom, Names(v)) => marked.(tags := UnionList(v, true))
    case (CodesFrom, CodeList(v)) => marked.(codes := v)
    case (_, _) => c
  }

  // ----- one rule

  datatype Lowered = Lowered(cfg: Config, provenance: seq<Provenance>, warnings: seq<Warning>)

  function Warned(place: Place, k: SourceKey, src: ValueSource, refused: seq<Rejection>): seq<Warning> {
    seq(|refused|, i requires 0 <= i < |refused| => Warning(place, FieldOf(k), KeyOf(src), ScopeOf(src), refused[i]))
  }

  /** What the provenance line shows: the value, or a default code list as it was written. */
  function Shown(k: SourceKey, src: ValueSource, c: Contribution): Write
    requires c.write.Some?
  {
    if c.scope == FromDefault && KindOf(k) == CodesKind then Names(src.defaultList) else c.write.value
  }

  /** A contribution written onto a block, with its provenance and warnings. */
  function Effect(place: Place, c: Config, k: SourceKey, src: ValueSource, con: Contribution): Lowered {
    Lowered(
      if con.write.Some? then Written(c, k, con.write.value) else c,
      if con.write.Some? then [Provenance(place, FieldOf(k), KeyOf(src), con.scope, Shown(k, src, con), con.cause)]
      else [],
      Warned(place, k, src, con.refused))
  }

  function Lower(env: Env, place: Place, acc: Lowered, k: SourceKey, src: ValueSource): Lowered {
    var e := Effect(place, acc.cfg, k, src, Contribute(env, k, src));
    Lowered(e.cfg, acc.provenance + e.provenance, acc.warnings + e.warnings)
  }

  /** Lower the sources among the given keys, in order. */
  function LowerFrom(env: Env, place: Place, acc: Lowered, keys: seq<SourceKey>): Lowered {
    if keys == [] then acc
    else
      var before := LowerFrom(env, place, acc, keys[..|keys| - 1]);
      var k := keys[|keys| - 1];
      if k in acc.cfg.sources then Lower(env, place, before, k, acc.cfg.sources[k]) else before
  }

  lemma LowerAppends(
    env: Env, place: Place, acc: Lowered, k: SourceKey, src: ValueSource, ps: seq<Provenance>, ws: seq<Warning>)
    ensures var l, e := Lower(env, place, acc, k, src), Effect(place, acc.cfg, k, src, Contribute(env, k, src));
            && l.cfg == e.cfg
            && ps + l.provenance == ps + acc.provenance + e.provenance
            && ws + l.warnings == ws + acc.warnings + e.warnings
  {
    var e := Effect(place, acc.cfg, k, src, Contribute(env, k, src));
    Regroup(ps, acc.provenance, e.provenance);
    Regroup(ws, acc.warnings, e.warnings);
  }

  lemma LowerFromStep(env: Env, place: Place, acc: Lowered, keys: seq<SourceKey>, i: int)
    requires 0 <= i < |keys|
    ensures LowerFrom(env, place, acc, keys[..i + 1]) ==
              var before := LowerFrom(env, place, acc, keys[..i]);
              if keys[i] in acc.cfg.sources then Lower(env, place, before, keys[i], acc.cfg.sources[keys[i]])
              else before
  {
    assert keys[..i + 1][..i] == keys[..i];
  }

  function LowerAll(env: Env, place: Place, c: Config): Lowered {
    LowerFrom(env, place, Lowered(c, [], []), SOURCE_ORDER)
  }

  // ----- when a source is silent

  /** The annotation holds something the field can use. */
  ghost predicate Usable(env: Env, k: SourceKey, src: ValueSource) {
    && TrimSpace(Raw(env, src)) != ""
    && match KindOf(k)
       case ScalarKind => CheckScalar(env, FieldOf(k), TrimSpace(Raw(env, src))).None?
       case ListKind => exists e :: e in SplitList(Raw(env, src)) && CheckEntry(env, FieldOf(k), e).None?
       case CodesKind => exists e :: e in SplitList(Raw(env, src)) && CheckCode(e).None?
  }

  ghost predicate UsableDefault(k: SourceKey, src: ValueSource) {
    && src.hasDefault
    && match KindOf(k)
       case ScalarKind => true
       case ListKind => src.defaultList != []
       case CodesKind => exists e :: e in src.defaultList && CheckCode(e).None?
  }

  /** The entries kept are the usable ones, and every entry is kept or refused. */
  lemma {:induction false} KeptExact(env: Env, f: Field, entries: seq<string>)
    ensures Kept(env, f, entries) != [] <==> exists e :: e in entries && CheckEntry(env, f, e).None?
    ensures forall e :: e in Kept(env, f, entries) <==> e in entries && CheckEntry(env, f, e).None?
    ensures |Kept(env, f, entries)| + |Refused(env, f, entries)| == |entries|
  {
    if entries != [] {
      KeptExact(env, f, entries[..|entries| - 1]);
      assert entries == entries[..|entries| - 1] + [entries[|entries| - 1]];
    }
  }

  /** Keeping is done entry by entry, in order. */
  lemma {:induction false} KeptConcat(env: Env, f: Field, a: seq<string>, b: seq<string>)
    ensures Kept(env, f, a + b) == Kept(env, f, a) + Kept(env, f, b)
  {
    if b == [] {
      assert a + b == a;
    } else {
      var n := |b| - 1;
      var last := if CheckEntry(env, f, b[n]).None? then [b[n]] else [];
      KeptConcat(env, f, a, b[..n]);
      assert (a + b)[..|a + b| - 1] == a + b[..n];
      Regroup(Kept(env, f, a), Kept(env, f, b[..n]), last);
    }
  }

  lemma {:induction false} GoodCodesConcat(a: seq<string>, b: seq<string>)
    ensures GoodCodes(a + b) == GoodCodes(a) + GoodCodes(b)
  {
    if b == [] {
      assert a + b == a;
    } else {
      var n := |b| - 1;
      var last := if CheckCode(b[n]).None? then [Atoi(b[n]).value] else [];
      GoodCodesConcat(a, b[..n]);
      assert (a + b)[..|a + b| - 1] == a + b[..n];
      Regroup(GoodCodes(a), GoodCodes(b[..n]), last);
    }
  }

  lemma {:induction false} RefusedConcat(env: Env, f: Field, a: seq<string>, b: seq<string>)
    ensures Refused(env, f, a + b) == Refused(env, f, a) + Refused(env, f, b)
  {
    if b == [] {
      assert a + b == a;
    } else {
      var n := |b| - 1;
      var c := CheckEntry(env, f, b[n]);
      RefusedConcat(env, f, a, b[..n]);
      assert (a + b)[..|a + b| - 1] == a + b[..n];
      Regroup(Refused(env, f, a), Refused(env, f, b[..n]), if c.Some? then [Rejection(b[n], c.value)] else []);
    }
  }

  lemma {:induction false} BadCodesConcat(a: seq<string>, b: seq<string>)
    ensures BadCodes(a + b) == BadCodes(a) + BadCodes(b)
  {
    if b == [] {
      assert a + b == a;
    } else {
      var n := |b| - 1;
      var c := CheckCode(b[n]);
      BadCodesConcat(a, b[..n]);
      assert (a + b)[..|a + b| - 1] == a + b[..n];
      Regroup(BadCodes(a), BadCodes(b[..n]), if c.Some? then [Rejection(b[n], c.value)] else []);
    }
  }

  lemma {:induction false} GoodCodesSome(entries: seq<string>)
    ensures GoodCodes(entries) != [] <==> exists e :: e in entries && CheckCode(e).None?
  {
    if entries != [] {
      GoodCodesSome(entries[..|entries| - 1]);
      assert entries == entries[..|entries| - 1] + [entries[|entries| - 1]];
    }
  }

  lemma ScalarWritesIff(env: Env, k: SourceKey, src: ValueSource)
    requires KindOf(k) == ScalarKind
    ensures Contribute(env, k, src).write.Some? <==> Usable(env, k, src) || UsableDefault(k, src)
  {
  }

  lemma ListWritesIff(env: Env, k: SourceKey, src: ValueSource)
    requires KindOf(k) == ListKind
    ensures Contribute(env, k, src).write.Some? <==>
              Usable(env, k, src) || (UsableDefault(k, src) && TrimSpace(Raw(env, src)) == "")
  {
    KeptExact(env, FieldOf(k), SplitList(Raw(env, src)));
  }

  lemma CodesWriteIff(env: Env, k: SourceKey, src: ValueSource)
    requires KindOf(k) == CodesKind
    ensures Contribute(env, k, src).write.Some? <==> Usable(env, k, src) || UsableDefault(k, src)
  {
    GoodCodesSome(SplitList(Raw(env, src)));
    GoodCodesSome(src.defaultList);
  }

  /** The source has something to write: a usable annotation, or a default that steps in. */
  ghost predicate Speaks(env: Env, k: SourceKey, src: ValueSource) {
    || Usable(env, k, src)
    || (UsableDefault(k, src) && (KindOf(k) == ListKind ==> TrimSpace(Raw(env, src)) == ""))
  }

  /**
   A source writes exactly when its annotation is usable or its default steps in. The default of a list source steps in
   only for an absent annotation: a list whose entries are all refused contributes nothing.
   */
  lemma WritesIff(env: Env, k: SourceKey, src: ValueSource)
    ensures Contribute(env, k, src).write.Some? <==> Speaks(env, k, src)
  {
    match KindOf(k) {
      case ScalarKind => ScalarWritesIff(env, k, src);
      case ListKind => ListWritesIff(env, k, src);
      case CodesKind => CodesWriteIff(env, k, src);
    }
  }

  /** An environment whose ingress says x under a, with nobody on the roster. */
  const STRAY := Env(map["a" := "x"], map[], Some({}), None, (_: string) => true)

  lemma OneEntry(env: Env, f: Field, e: string)
    ensures Kept(env, f, [e]) == if CheckEntry(env, f, e).None? then [e] else []
    ensures Refused(env, f, [e]) == match CheckEntry(env, f, e) { case None => [] case Some(r) => [Rejection(e, r)] }
  {
    assert [e][..0] == [];
  }

  lemma ListContributes(env: Env, k: SourceKey, src: ValueSource, entries: seq<string>)
    requires KindOf(k) == ListKind && TrimSpace(Raw(env, src)) != "" && SplitList(Raw(env, src)) == entries
    ensures var kept := Kept(env, FieldOf(k), entries);
            Contribute(env, k, src) == Contribution(
              if kept == [] then None else Some(Names(kept)), ScopeOf(src), NoCause, Refused(env, FieldOf(k), entries))
  {
  }

  /** A refused path falls back to its default. */
  lemma RefusedPathFallsBack()
    ensures var src := ValueSource("a", "", "/up", [], true);
            Contribute(STRAY, PathFrom, src) ==
              Contribution(Some(OneText("/up")), FromDefault, Rejected, [Rejection("x", NoLeadingSlash)])
  {
    var entries := SplitOneEntry();
  }

  /** A list whose only entry is refused contributes nothing, although it has a default. */
  lemma RefusedListDoesNotFallBack()
    ensures var src := ValueSource("a", "", "", ["ops"], true);
            Contribute(STRAY, NotifyFrom, src) ==
              Contribution(None, FromIngress, NoCause, [Rejection("x", UnknownUser)])
  {
    var entries := SplitOneEntry();
    OneEntry(STRAY, Notify, "x");
    ListContributes(STRAY, NotifyFrom, ValueSource("a", "", "", ["ops"], true), entries);
  }

  /** No source of the block writes anything. */
  ghost predicate Silent(env: Env, c: Config) {
    forall k :: k in c.sources ==> Contribute(env, k, c.sources[k]).write.None?
  }

  /** Every annotation of the block is absent or refused, and no default steps in. */
  ghost predicate Mute(env: Env, c: Config) {
    forall k :: k in c.sources ==> !Speaks(env, k, c.sources[k])
  }

  lemma SilentIffMute(env: Env, c: Config)
    ensures Silent(env, c) <==> Mute(env, c)
  {
    forall k | k in c.sources ensures Contribute(env, k, c.sources[k]).write.Some? <==> Speaks(env, k, c.sources[k]) {
      WritesIff(env, k, c.sources[k]);
    }
  }

  lemma {:induction false} LowerFromSilent(env: Env, place: Place, acc: Lowered, keys: seq<SourceKey>)
    requires Silent(env, acc.cfg)
    ensures LowerFrom(env, place, acc, keys).cfg == acc.cfg
  {
    if keys != [] {
      LowerFromSilent(env, place, acc, keys[..|keys| - 1]);
    }
  }

  /** Lowering touches literals only, and what it writes does not depend on where the rule stands. */
  lemma {:induction false} LowerFromShape(env: Env, p: Place, q: Place, a: Lowered, b: Lowered, keys: seq<SourceKey>)
    requires a.cfg == b.cfg
    ensures LowerFrom(env, p, a, keys).cfg == LowerFrom(env, q, b, keys).cfg
    ensures LowerFrom(env, p, a, keys).cfg.sources == a.cfg.sources
  {
    if keys != [] {
      LowerFromShape(env, p, q, a, b, keys[..|keys| - 1]);
    }
  }

  lemma {:induction false} LowerFromNoSources(env: Env, place: Place, acc: Lowered, keys: seq<SourceKey>)
    requires acc.cfg.sources == map[]
    ensures LowerFrom(env, place, acc, keys) == acc
  {
    if keys != [] {
      LowerFromNoSources(env, place, acc, keys[..|keys| - 1]);
    }
  }

  // ----- the resolver as it runs

  /** Lowers blocks one after the other, collecting provenance and warnings. */
  class Resolver {
    const env: Env
    var provenance: seq<Provenance>
    var warnings: seq<Warning>

    constructor (env: Env)
      ensures this.env == env && provenance == [] && warnings == []
    {
      this.env, provenance, warnings := env, [], [];
    }

    method Apply(place: Place, c: Config) returns (out: Config)
      modifies this
      ensures Did(out, LowerAll(env, place, c))
    {
      out := LowerSources(place, c, SOURCE_ORDER);
    }

    /** Lower the sources the block has among the given keys, in order. */
    method LowerSources(place: Place, c: Config, keys: seq<SourceKey>) returns (out: Config)
      modifies this
      ensures Did(out, LowerFrom(env, place, Lowered(c, [], []), keys))
    {
      out := c;
      ghost var l := Lowered(c, [], []);
      ghost var start := l;
      for i := 0 to |keys|
        invariant l == LowerFrom(env, place, start, keys[..i])
        invariant out == l.cfg && provenance == old(provenance) + l.provenance && warnings == old(warnings) + l.warnings
      {
        LowerFromStep(env, place, start, keys, i);
        if keys[i] in c.sources {
          ghost var before := l;
          out := LowerOne(place, out, keys[i], c.sources[keys[i]]);
          l := Lower(env, place, before, keys[i], c.sources[keys[i]]);
          LowerAppends(env, place, before, keys[i], c.sources[keys[i]], old(provenance), old(warnings));
        }
      }
      assert keys[..|keys|] == keys;
    }

    /** This call added exactly the given effect. */
    twostate predicate Did(out: Config, e: Lowered)
      reads this
    {
      out == e.cfg && provenance == old(provenance) + e.provenance && warnings == old(warnings) + e.warnings
    }

    /** Lower one source onto the block. */
    method LowerOne(place: Place, c: Config, k: SourceKey, src: ValueSource) returns (out: Config)
      modifies this
      ensures Did(out, Effect(place, c, k, src, Contribute(env, k, src)))
    {
      out := c;
      if TrimSpace(Raw(env, src)) == "" {
        if src.hasDefault {
          out := WriteDefault(place, c, k, src, Absent);
        }
        return;
      }
      match KindOf(k) {
        case ScalarKind => out := LowerScalar(place, c, k, src);
        case ListKind => out := LowerList(place, c, k, src);
        case CodesKind => out := LowerStatusCodes(place, c, k, src);
      }
    }

    method LowerScalar(place: Place, c: Config, k: SourceKey, src: ValueSource) returns (out: Config)
      requires KindOf(k) == ScalarKind && TrimSpace(Raw(env, src)) != ""
      modifies this
      ensures Did(out, Effect(place, c, k, src, Contribute(env, k, src)))
    {
      out := c;
      var value := TrimSpace(Raw(env, src));
      var reason := CheckScalar(env, FieldOf(k), value);
      if reason.Some? {
        warnings := warnings + Warned(place, k, src, [Rejection(value, reason.value)]);
        if src.hasDefault {
          out := WriteDefault(place, c, k, src, Rejected);
        }
        return;
      }
      out := Note(place, c, k, src, OneText(value));
    }

    /** A list keeps its usable entries; with none, it contributes nothing, default or not. */
    method LowerList(place: Place, c: Config, k: SourceKey, src: ValueSource) returns (out: Config)
      requires KindOf(k) == ListKind && TrimSpace(Raw(env, src)) != ""
      modifies this
      ensures Did(out, Effect(place, c, k, src, Contribute(env, k, src)))
    {
      out := c;
      ListContributes(env, k, src, SplitList(Raw(env, src)));
      var kept := KeepEntries(place, k, src, SplitList(Raw(env, src)));
      if kept == [] {
        return;
      }
      out := Note(place, c, k, src, Names(kept));
    }

    method LowerStatusCodes(place: Place, c: Config, k: SourceKey, src: ValueSource) returns (out: Config)
      requires KindOf(k) == CodesKind && TrimSpace(Raw(env, src)) != ""
      modifies this
      ensures Did(out, Effect(place, c, k, src, Contribute(env, k, src)))
    {
      out := c;
      var codes, bad := ParseCodes(SplitList(Raw(env, src)));
      warnings := warnings + Warned(place, k, src, bad);
      if codes == [] {
        if src.hasDefault {
          out := WriteDefault(place, c, k, src, if bad == [] then Absent else Rejected);
        }
        return;
      }
      out := Note(place, c, k, src, CodeList(codes));
    }

    method Note(place: Place, c: Config, k: SourceKey, src: ValueSource, w: Write) returns (out: Config)
      modifies this`provenance
      ensures out == Written(c, k, w)
      ensures provenance == old(provenance) + [Provenance(place, FieldOf(k), KeyOf(src), ScopeOf(src), w, NoCause)]
    {
      out := Written(c, k, w);
      provenance := provenance + [Provenance(place, FieldOf(k), KeyOf(src), ScopeOf(src), w, NoCause)];
    }

    method WriteDefault(place: Place, c: Config, k: SourceKey, src: ValueSource, cause: Cause) returns (out: Config)
      modifies this`provenance
      ensures var w := DefaultWrite(k, src);
              if w.None? then out == c && provenance == old(provenance)
              else && out == Written(c, k, w.value)
                   && provenance == old(provenance) + [Provenance(place, FieldOf(k), KeyOf(src), FromDefault,
                        if KindOf(k) == CodesKind then Names(src.defaultList) else w.value, cause)]
    {
      out := c;
      var shown: Write;
      match KindOf(k) {
        case ScalarKind =>
          out, shown := Written(c, k, OneText(src.defaultScalar)), OneText(src.defaultScalar);
        case ListKind =>
          if src.defaultList == [] {
            return;
          }
          out, shown := Written(c, k, Names(src.defaultList)), Names(src.defaultList);
        case CodesKind =>
          var codes, bad := ParseCodes(src.defaultList);
          if codes == [] {
            return;
          }
          out, shown := Written(c, k, CodeList(codes)), Names(src.defaultList);
      }
      provenance := provenance + [Provenance(place, FieldOf(k), KeyOf(src), FromDefault, shown, cause)];
    }

    /** Keep the entries the field can use, and warn about the others. */
    method KeepEntries(place: Place, k: SourceKey, src: ValueSource, entries: seq<string>) returns (kept: seq<string>)
      modifies this`warnings
      ensures kept == Kept(env, FieldOf(k), entries)
      ensures warnings == old(warnings) + Warned(place, k, src, Refused(env, FieldOf(k), entries))
    {
      kept := [];
      for i := 0 to |entries|
        invariant kept == Kept(env, FieldOf(k), entries[..i])
        invariant warnings == old(warnings) + Warned(place, k, src, Refused(env, FieldOf(k), entries[..i]))
      {
        assert entries[..i + 1][..i] == entries[..i];
        var reason := CheckEntry(env, FieldOf(k), entries[i]);
        if reason.Some? {
          var rejection := Rejection(entries[i], reason.value);
          warnings := warnings + [Warning(place, FieldOf(k), KeyOf(src), ScopeOf(src), rejection)];
          continue;
        }
        kept := kept + [entries[i]];
      }
      assert entries[..|entries|] == entries;
    }
  }

  method ParseCodes(entries: seq<string>) returns (codes: seq<int>, bad: seq<Rejection>)
    ensures codes == GoodCodes(entries) && bad == BadCodes(entries)
  {
    codes, bad := [], [];
    for i := 0 to |entries|
      invariant codes == GoodCodes(entries[..i]) && bad == BadCodes(entries[..i])
    {
      assert entries[..i + 1][..i] == entries[..i];
      var code := Atoi(entries[i]);
      if code.None? {
        bad := bad + [Rejection(entries[i], NotANumber)];
      } else if code.value < 100 || code.value > 599 {
        bad := bad + [Rejection(entries[i], NotAStatusCode)];
      } else {
        codes := codes + [code.value];
      }
    }
    assert entries[..|entries|] == entries;
  }
}
