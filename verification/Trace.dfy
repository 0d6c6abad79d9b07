/**
 The traced resolution: the second implementation of the walk, which also
 records what every matched rule wrote, and why its record can be believed.
 */
module Trace {
  import opened Base
  import opened Cascade
  import opened KubeConfig
  import opened Lowering
  import opened KubeResolve
  import opened Merge

  datatype Action = Set | Replace | Add | Override

  /** A field's value as the trace shows it; Blank is a single value never written. */
  datatype Shown = Blank | Single(scalar: Scalar) | Listing(values: seq<string>) | Numbers(codes: seq<int>)

  datatype TraceEvent = TraceEvent(
    field: Field, action: Action, before: Shown, after: Shown, added: seq<string>, removed: seq<string>)

  datatype RuleTrace<W> = RuleTrace(place: Place, when: W, final: bool, events: seq<TraceEvent>)

  /** The order in which a block's fields are written. */
  const FIELD_ORDER := [
    Value(Scheme), Value(Path), Value(HttpMethod), Value(Proxy), Value(Slack),
    Value(Interval), Value(Timeout), Value(RetryBackoff), Value(ReminderInterval),
    Value(SslAlertThreshold), Value(SslEscalationThreshold), Value(SslReminderInterval),
    Value(Retries), Value(FollowRedirects), Value(TlsInsecureSkipVerify),
    Codes, Notify, Tags, DependsOn, Ignore]

  // ----- the accumulator

  /** What has been written so far: a scalar, the codes or the directive may be missing. */
  datatype Accum = Accum(
    scalars: map<Key, Scalar>, codes: Option<seq<int>>,
    notify: seq<string>, tags: seq<string>, dependsOn: seq<string>, ignore: Option<bool>)

  const BLANK_ACCUM := Accum(map[], None, [], [], [], None)

  function ListIn(a: Accum, f: Field): seq<string> {
    match f
    case Notify => a.notify
    case Tags => a.tags
    case DependsOn => a.dependsOn
    case Value(_) | Codes | Ignore => []
  }

  function Current(a: Accum, f: Field): Shown {
    match f
    case Value(k) => if k in a.scalars then Single(a.scalars[k]) else Blank
    case Codes => Numbers(if a.codes.Some? then a.codes.value else [])
    case Ignore => if a.ignore.Some? then Single(Flag(a.ignore.value)) else Blank
    case Notify | Tags | DependsOn => Listing(ListIn(a, f))
  }

  /** Whether a field that is not a union list was written before. */
  predicate Has(a: Accum, f: Field) {
    match f
    case Value(k) => k in a.scalars
    case Codes => a.codes.Some?
    case Ignore => a.ignore.Some?
    case Notify | Tags | DependsOn => false
  }

  predicate IsList(f: Field) {
    f in {Notify, Tags, DependsOn}
  }

  /** The block, or the rule's directive, writes the field. */
  predicate Touches(e: StackEntry, f: Field) {
    if f == Ignore then e.ignore.Some? else e.cfg.IsSet(f)
  }

  function Put(a: Accum, e: StackEntry, f: Field): Accum {
    match f
    case Value(k) => a.(scalars := a.scalars[k := e.cfg.Get(k)])
    case Codes => a.(codes := Some(e.cfg.codes))
    case Notify => a.(notify := MergeStrings(a.notify, e.cfg.notify.values, e.cfg.notify.override))
    case Tags => a.(tags := MergeStrings(a.tags, e.cfg.tags.values, e.cfg.tags.override))
    case DependsOn => a.(dependsOn := MergeStrings(a.dependsOn, e.cfg.dependsOn.values, e.cfg.dependsOn.override))
    case Ignore => a.(ignore := e.ignore)
  }

  /** The elements of a that are not in b, in order. */
  function Diff(a: seq<string>, b: seq<string>): seq<string> {
    if a == [] then [] else
    Diff(a[..|a| - 1], b) + if a[|a| - 1] in b then [] else [a[|a| - 1]]
  }

  function EventOf(a: Accum, e: StackEntry, f: Field): TraceEvent {
    var before, after := Current(a, f), Current(Put(a, e, f), f);
    if IsList(f) then ListEvent(f, ListIn(a, f), ListIn(Put(a, e, f), f), ListOf(e.cfg, f).override)
    else TraceEvent(f, if Has(a, f) then Replace else Set, before, after, [], [])
  }

  function ListEvent(f: Field, was: seq<string>, now: seq<string>, override: bool): TraceEvent {
    TraceEvent(f, if override then Override else Add, Listing(was), Listing(now),
      Diff(now, was), if override then Diff(was, now) else [])
  }

  /** The accumulator after the given fields of a block are applied, and the events that recorded it. */
  function Applied(a: Accum, e: StackEntry, fields: seq<Field>): (Accum, seq<TraceEvent>) {
    if fields == [] then (a, []) else
    var f := fields[|fields| - 1];
    var (b, events) := Applied(a, e, fields[..|fields| - 1]);
    if Touches(e, f) then (Put(b, e, f), events + [EventOf(b, e, f)]) else (b, events)
  }

  function AppliedAll(a: Accum, stack: seq<StackEntry>): (Accum, seq<seq<TraceEvent>>) {
    if stack == [] then (a, []) else
    var (b, events) := AppliedAll(a, stack[..|stack| - 1]);
    var (c, more) := Applied(b, stack[|stack| - 1], FIELD_ORDER);
    (c, events + [more])
  }

  /** All events of a trace in the order they were recorded. */
  function Flatten(events: seq<seq<TraceEvent>>): seq<TraceEvent> {
    if events == [] then [] else Flatten(events[..|events| - 1]) + events[|events| - 1]
  }

  // ----- the record is a chain

  /** The value the latest event about the field left, or the one before any. */
  function Latest(events: seq<TraceEvent>, f: Field): Shown {
    if events == [] then Current(BLANK_ACCUM, f)
    else if events[|events| - 1].field == f then events[|events| - 1].after
    else Latest(events[..|events| - 1], f)
  }

  predicate Mentions(events: seq<TraceEvent>, f: Field) {
    exists i :: 0 <= i < |events| && events[i].field == f
  }

  /**
   Every event starts from the value its predecessor about the same field left, and is a first write iff there is none.
   */
  ghost predicate Chained(events: seq<TraceEvent>) {
    forall i :: 0 <= i < |events| ==>
      && events[i].before == Latest(events[..i], events[i].field)
      && (events[i].action == Set <==> !IsList(events[i].field) && !Mentions(events[..i], events[i].field))
  }

  /** The events written so far tell exactly what the accumulator holds. */
  ghost predicate Tells(events: seq<TraceEvent>, a: Accum) {
    && Chained(events)
    && (forall f :: Latest(events, f) == Current(a, f))
    && (forall f :: !IsList(f) ==> (Has(a, f) <==> Mentions(events, f)))
  }

  lemma MentionsSnoc(events: seq<TraceEvent>, ev: TraceEvent, f: Field)
    ensures Mentions(events + [ev], f) <==> Mentions(events, f) || ev.field == f
  {
    var all := events + [ev];
    if i :| 0 <= i < |events| && events[i].field == f {
      assert all[i].field == f;
    }
    if ev.field == f {
      assert all[|events|].field == f;
    }
    if i :| 0 <= i < |all| && all[i].field == f {
      if i < |events| { assert events[i].field == f; }
    }
  }

  lemma ChainedSnoc(events: seq<TraceEvent>, ev: TraceEvent)
    requires Chained(events)
    requires ev.before == Latest(events, ev.field)
    requires ev.action == Set <==> !IsList(ev.field) && !Mentions(events, ev.field)
    ensures Chained(events + [ev])
  {
    var all := events + [ev];
    forall i | 0 <= i < |all|
      ensures all[i].before == Latest(all[..i], all[i].field)
      ensures all[i].action == Set <==> !IsList(all[i].field) && !Mentions(all[..i], all[i].field)
    {
      if i < |events| {
        assert all[..i] == events[..i] && all[i] == events[i];
      } else {
        assert all[..i] == events;
      }
    }
  }

  /** A write changes the field it names and no other. */
  lemma WriteIsLocal(a: Accum, e: StackEntry, f: Field, g: Field)
    requires f != g
    ensures Current(Put(a, e, f), g) == Current(a, g) && Has(Put(a, e, f), g) == Has(a, g)
  {
  }

  lemma TellsWrite(events: seq<TraceEvent>, a: Accum, e: StackEntry, f: Field)
    requires Tells(events, a) && Touches(e, f)
    ensures Tells(events + [EventOf(a, e, f)], Put(a, e, f))
  {
    var ev, b := EventOf(a, e, f), Put(a, e, f);
    var all := events + [ev];
    ChainedSnoc(events, ev);
    assert all[..|all| - 1] == events;
    forall g
      ensures Latest(all, g) == Current(b, g)
      ensures !IsList(g) ==> (Has(b, g) <==> Mentions(all, g))
    {
      MentionsSnoc(events, ev, g);
      if g != f {
        WriteIsLocal(a, e, f, g);
      }
    }
  }

  lemma {:induction false} TellsApplied(events: seq<TraceEvent>, a: Accum, e: StackEntry, fields: seq<Field>)
    requires Tells(events, a)
    ensures Tells(events + Applied(a, e, fields).1, Applied(a, e, fields).0)
  {
    if fields == [] {
      assert events + [] == events;
    } else {
      var f, before := fields[|fields| - 1], Applied(a, e, fields[..|fields| - 1]);
      TellsApplied(events, a, e, fields[..|fields| - 1]);
      if Touches(e, f) {
        TellsWrite(events + before.1, before.0, e, f);
        assert events + before.1 + [EventOf(before.0, e, f)] == events + Applied(a, e, fields).1;
      }
    }
  }

  lemma {:induction false} TellsAll(stack: seq<StackEntry>)
    ensures var (a, events) := AppliedAll(BLANK_ACCUM, stack); Tells(Flatten(events), a)
  {
    if stack != [] {
      var n := |stack| - 1;
      TellsAll(stack[..n]);
      var (a, events) := AppliedAll(BLANK_ACCUM, stack[..n]);
      TellsApplied(Flatten(events), a, stack[n], FIELD_ORDER);
      var all := AppliedAll(BLANK_ACCUM, stack).1;
      assert all[..|all| - 1] == events;
    }
  }

  lemma {:induction false} LatestUnmentioned(events: seq<TraceEvent>, f: Field)
    requires !Mentions(events, f)
    ensures Latest(events, f) == Current(BLANK_ACCUM, f)
  {
    if events != [] {
      var n := |events| - 1;
      assert events[n].field != f;
      assert forall i :: 0 <= i < n ==> events[..n][i] == events[i];
      LatestUnmentioned(events[..n], f);
    }
  }

  // ----- the accumulator mirrors the merge

  /** Applying a block, seen from one field: one write or none. */
  lemma {:induction false} AppliedFieldwise(a: Accum, e: StackEntry, fields: seq<Field>, f: Field)
    requires Distinct(fields)
    ensures Current(Applied(a, e, fields).0, f)
         == if f in fields && Touches(e, f) then Current(Put(a, e, f), f) else Current(a, f)
  {
    if fields != [] {
      var n := |fields| - 1;
      var g, b := fields[n], Applied(a, e, fields[..n]).0;
      AppliedFieldwise(a, e, fields[..n], f);
      assert fields == fields[..n] + [g];
      if g == f {
        assert f !in fields[..n];
      } else {
        WriteIsLocal(b, e, g, f);
      }
    }
  }

  function Position(f: Field): (i: nat)
    ensures i < |FIELD_ORDER| && FIELD_ORDER[i] == f
  {
    match f
    case Value(Scheme) => 0 case Value(Path) => 1 case Value(HttpMethod) => 2 case Value(Proxy) => 3
    case Value(Slack) => 4 case Value(Interval) => 5 case Value(Timeout) => 6 case Value(RetryBackoff) => 7
    case Value(ReminderInterval) => 8 case Value(SslAlertThreshold) => 9 case Value(SslEscalationThreshold) => 10
    case Value(SslReminderInterval) => 11 case Value(Retries) => 12 case Value(FollowRedirects) => 13
    case Value(TlsInsecureSkipVerify) => 14 case Codes => 15 case Notify => 16 case Tags => 17
    case DependsOn => 18 case Ignore => 19
  }

  lemma FieldOrderComplete(f: Field)
    ensures f in FIELD_ORDER && Distinct(FIELD_ORDER)
  {
    assert FIELD_ORDER[Position(f)] == f;
    assert forall i :: 0 <= i < |FIELD_ORDER| ==> Position(FIELD_ORDER[i]) == i;
  }

  /** A resolved field as the trace would show it. */
  function ResolvedShown(c: Config, ignored: bool, f: Field): Shown {
    match f
    case Value(k) => Single(c.Get(k))
    case Codes => Numbers(c.codes)
    case Ignore => Single(Flag(ignored))
    case Notify | Tags | DependsOn => Listing(ListOf(c, f).values)
  }

  /** A field nobody wrote resolves to its zero value. */
  function ZeroShown(f: Field): Shown {
    ResolvedShown(EMPTY, false, f)
  }

  ghost predicate Agrees(shown: Shown, resolved: Shown, f: Field) {
    shown == resolved || (shown == Blank && resolved == ZeroShown(f))
  }

  /** The accumulator never diverges from the merge. */
  lemma {:induction false} AccumulatorMirrorsMerge(stack: seq<StackEntry>, f: Field)
    ensures var a := AppliedAll(BLANK_ACCUM, stack).0;
            Agrees(Current(a, f), ResolvedShown(ResolveStack(stack), Ignored(stack), f), f)
  {
    if stack != [] {
      var n := |stack| - 1;
      var a := AppliedAll(BLANK_ACCUM, stack[..n]).0;
      AccumulatorMirrorsMerge(stack[..n], f);
      FieldOrderComplete(f);
      AppliedFieldwise(a, stack[n], FIELD_ORDER, f);
      assert Directives(stack)[..n] == Directives(stack[..n]);
    }
  }

  /**
   The trace is honest: per field, every event starts from what the previous one left, the first is marked as such, and
   the last leaves the resolved value; a field without event resolves to its zero value.
   */
  lemma TraceIsHonest(stack: seq<StackEntry>)
    ensures var events := Flatten(AppliedAll(BLANK_ACCUM, stack).1);
            && Chained(events)
            && forall f :: ResolvedShown(ResolveStack(stack), Ignored(stack), f)
                 == if Mentions(events, f) then Latest(events, f) else ZeroShown(f)
  {
    var (a, parts) := AppliedAll(BLANK_ACCUM, stack);
    var events := Flatten(parts);
    TellsAll(stack);
    forall f ensures ResolvedShown(ResolveStack(stack), Ignored(stack), f)
                == if Mentions(events, f) then Latest(events, f) else ZeroShown(f)
    {
      AccumulatorMirrorsMerge(stack, f);
      assert Latest(events, f) == Current(a, f);
      if !Mentions(events, f) {
        LatestUnmentioned(events, f);
      } else if !IsList(f) {
        assert Has(a, f);
      }
    }
  }

  // ----- what list events say

  lemma {:induction false} DiffExact(a: seq<string>, b: seq<string>, x: string)
    ensures x in Diff(a, b) <==> x in a && x !in b
  {
    if a != [] {
      DiffExact(a[..|a| - 1], b, x);
      assert a == a[..|a| - 1] + [a[|a| - 1]];
    }
  }

  lemma {:induction false} DiffConcat(a: seq<string>, b: seq<string>, c: seq<string>)
    ensures Diff(a + b, c) == Diff(a, c) + Diff(b, c)
  {
    if b == [] {
      assert a + b == a;
    } else {
      var n := |b| - 1;
      DiffConcat(a, b[..n], c);
      assert (a + b)[..|a + b| - 1] == a + b[..n];
    }
  }

  lemma {:induction false} DiffNothing(a: seq<string>, b: seq<string>)
    requires forall x :: x in a ==> x in b
    ensures Diff(a, b) == []
  {
    if a != [] {
      DiffNothing(a[..|a| - 1], b);
    }
  }

  lemma {:induction false} DiffEverything(a: seq<string>, b: seq<string>)
    requires forall x :: x in a ==> x !in b
    ensures Diff(a, b) == a
  {
    if a != [] {
      var n := |a| - 1;
      assert a == a[..n] + [a[n]];
      DiffEverything(a[..n], b);
    }
  }

  /** Appending to a deduplicated list adds exactly the values that were not there. */
  lemma AddedIsDiff(was: seq<string>, added: seq<string>, incoming: seq<string>)
    requires Dedup(was) + added == Dedup(was + incoming)
    ensures Diff(Dedup(was) + added, was) == added
  {
    var now := Dedup(was) + added;
    DedupExact(was);
    DedupExact(was + incoming);
    forall x | x in added ensures x !in was {
      var i :| 0 <= i < |added| && added[i] == x;
      assert now[|Dedup(was)| + i] == x;
      forall j | 0 <= j < |Dedup(was)| ensures Dedup(was)[j] != x {
        assert now[j] == Dedup(was)[j];
      }
    }
    DiffConcat(Dedup(was), added, was);
    DiffNothing(Dedup(was), was);
    DiffEverything(added, was);
  }

  /**
   A list event accounts for its step: a plain layer extends the list by what it added, and in either case the values
   removed and added are exactly the difference.
   */
  ghost predicate Accounts(ev: TraceEvent) {
    IsList(ev.field) ==>
      && ev.before.Listing? && ev.after.Listing? && Distinct(ev.after.values)
      && ev.action in {Add, Override}
      && (ev.action == Add ==> ev.after.values == ev.before.values + ev.added)
      && (forall x :: x in ev.added <==> x in ev.after.values && x !in ev.before.values)
      && (forall x :: x in ev.removed <==> x in ev.before.values && x !in ev.after.values)
  }

  ghost predicate AllAccount(events: seq<TraceEvent>) {
    forall i :: 0 <= i < |events| ==> Accounts(events[i])
  }

  ghost predicate DistinctLists(a: Accum) {
    Distinct(a.notify) && Distinct(a.tags) && Distinct(a.dependsOn)
  }

  lemma WriteAccounts(a: Accum, e: StackEntry, f: Field)
    requires DistinctLists(a)
    ensures DistinctLists(Put(a, e, f)) && Accounts(EventOf(a, e, f))
  {
    if IsList(f) {
      var was, incoming := ListIn(a, f), ListOf(e.cfg, f);
      var now := MergeStrings(was, incoming.values, incoming.override);
      assert ListIn(Put(a, e, f), f) == now;
      DedupExact(if incoming.override then incoming.values else was + incoming.values);
      forall x ensures x in Diff(now, was) <==> x in now && x !in was { DiffExact(now, was, x); }
      forall x ensures x in Diff(was, now) <==> x in was && x !in now { DiffExact(was, now, x); }
      if !incoming.override {
        var out, added := Extension(was, incoming.values);
        DedupDistinct(was);
        AddedIsDiff(was, added, incoming.values);
      }
    }
  }

  lemma {:induction false} AppliedAccounts(a: Accum, e: StackEntry, fields: seq<Field>)
    requires DistinctLists(a)
    ensures DistinctLists(Applied(a, e, fields).0)
    ensures AllAccount(Applied(a, e, fields).1)
  {
    if fields != [] {
      var n := |fields| - 1;
      AppliedAccounts(a, e, fields[..n]);
      WriteAccounts(Applied(a, e, fields[..n]).0, e, fields[n]);
    }
  }

  lemma {:induction false} EveryEventAccounts(stack: seq<StackEntry>)
    ensures DistinctLists(AppliedAll(BLANK_ACCUM, stack).0)
    ensures AllAccount(Flatten(AppliedAll(BLANK_ACCUM, stack).1))
  {
    if stack != [] {
      var n := |stack| - 1;
      var (a, events) := AppliedAll(BLANK_ACCUM, stack[..n]);
      EveryEventAccounts(stack[..n]);
      AppliedAccounts(a, stack[n], FIELD_ORDER);
      var more := Applied(a, stack[n], FIELD_ORDER).1;
      var all := AppliedAll(BLANK_ACCUM, stack).1;
      assert all[..|all| - 1] == events;
      assert Flatten(all) == Flatten(events) + more;
    }
  }

  /** Deduplicating an extended list keeps the distinct part in front. */
  lemma {:induction false} Extension(start: seq<string>, incoming: seq<string>)
    returns (out: seq<string>, added: seq<string>)
    requires Distinct(start)
    ensures out == Dedup(start + incoming) && out == start + added
  {
    if incoming == [] {
      DedupDistinct(start);
      out, added := start, [];
      assert start + incoming == start;
    } else {
      var n := |incoming| - 1;
      out, added := Extension(start, incoming[..n]);
      var all := start + incoming;
      assert all[..|all| - 1] == start + incoming[..n];
      if incoming[n] !in out {
        out, added := out + [incoming[n]], added + [incoming[n]];
      }
    }
  }

  // ----- what one rule's events say

  /** The fields a block touches, in the order they are written. */
  function Touched(e: StackEntry, fields: seq<Field>): seq<Field> {
    if fields == [] then []
    else
      var n := |fields| - 1;
      if Touches(e, fields[n]) then Touched(e, fields[..n]) + [fields[n]] else Touched(e, fields[..n])
  }

  /** The event is about the block: the value it leaves is the block's, or merges the block's list as the block asks. */
  ghost predicate TellsOf(ev: TraceEvent, e: StackEntry) {
    match ev.field
    case Value(k) => ev.action in {Set, Replace} && ev.after == Single(e.cfg.Get(k)) && ev.added == ev.removed == []
    case Codes => ev.action in {Set, Replace} && ev.after == Numbers(e.cfg.codes) && ev.added == ev.removed == []
    case Ignore =>
      && ev.action in {Set, Replace} && e.ignore.Some? && ev.after == Single(Flag(e.ignore.value))
      && ev.added == ev.removed == []
    case Notify | Tags | DependsOn =>
      var l := ListOf(e.cfg, ev.field);
      && ev.action == (if l.override then Override else Add) && ev.before.Listing?
      && ev.after == Listing(MergeStrings(ev.before.values, l.values, l.override))
  }

  /** A rule has one event per field it touches, in order, and each tells of its block. */
  ghost predicate RuleTold(events: seq<TraceEvent>, e: StackEntry, fields: seq<Field>) {
    && |events| == |Touched(e, fields)|
    && forall i :: 0 <= i < |events| ==> events[i].field == Touched(e, fields)[i] && TellsOf(events[i], e)
  }

  lemma EventTells(a: Accum, e: StackEntry, f: Field)
    requires Touches(e, f)
    ensures EventOf(a, e, f).field == f && TellsOf(EventOf(a, e, f), e)
  {
  }

  lemma {:induction false} AppliedTold(a: Accum, e: StackEntry, fields: seq<Field>)
    ensures RuleTold(Applied(a, e, fields).1, e, fields)
  {
    if fields != [] {
      var n := |fields| - 1;
      AppliedTold(a, e, fields[..n]);
      if Touches(e, fields[n]) {
        EventTells(Applied(a, e, fields[..n]).0, e, fields[n]);
      }
    }
  }

  ghost predicate AllTold(events: seq<seq<TraceEvent>>, stack: seq<StackEntry>, fields: seq<Field>) {
    |events| == |stack| && forall i :: 0 <= i < |stack| ==> RuleTold(events[i], stack[i], fields)
  }

  lemma AppliedLast(a: Accum, stack: seq<StackEntry>) returns (more: seq<TraceEvent>)
    requires stack != []
    ensures var n := |stack| - 1;
            && AppliedAll(a, stack).1 == AppliedAll(a, stack[..n]).1 + [more]
            && RuleTold(more, stack[n], FIELD_ORDER)
  {
    var n := |stack| - 1;
    var b := AppliedAll(a, stack[..n]).0;
    AppliedTold(b, stack[n], FIELD_ORDER);
    more := Applied(b, stack[n], FIELD_ORDER).1;
  }

  lemma {:induction false} AppliedAllTold(a: Accum, stack: seq<StackEntry>)
    ensures AllTold(AppliedAll(a, stack).1, stack, FIELD_ORDER)
  {
    if stack != [] {
      var n := |stack| - 1;
      var more := AppliedLast(a, stack);
      AppliedAllTold(a, stack[..n]);
      assert stack[..n] + [stack[n]] == stack;
    }
  }

  // ----- the accumulator as it runs

  method DiffStrings(a: seq<string>, b: seq<string>) returns (out: seq<string>)
    ensures out == Diff(a, b)
  {
    var inB := set x | x in b;
    out := [];
    for i := 0 to |a|
      invariant out == Diff(a[..i], b)
    {
      assert a[..i + 1][..i] == a[..i];
      if a[i] !in inB {
        out := out + [a[i]];
      }
    }
    assert a[..|a|] == a;
  }

  /** One union-list write: the new list and its event. */
  method ApplyList(f: Field, was: seq<string>, incoming: seq<string>, override: bool)
    returns (now: seq<string>, event: TraceEvent)
    ensures now == MergeStrings(was, incoming, override)
    ensures event == ListEvent(f, was, now, override)
  {
    if override {
      var firsts;
      now, firsts := AppendNew([], incoming);
      assert [] + incoming == incoming;
      var removed := DiffStrings(was, now);
      var added := DiffStrings(now, was);
      event := TraceEvent(f, Override, Listing(was), Listing(now), added, removed);
      return;
    }
    var kept, firsts := AppendNew([], was);
    assert [] + was == was;
    DedupExact(was);
    var added;
    now, added := AppendNew(kept, incoming);
    DedupAbsorbs(was, incoming);
    AddedIsDiff(was, added, incoming);
    event := TraceEvent(f, Add, Listing(was), Listing(now), added, []);
  }

  class TraceAccumulator {
    var scalars: map<Key, Scalar>
    var codes: Option<seq<int>>
    var notify: seq<string>
    var tags: seq<string>
    var dependsOn: seq<string>
    var ignore: Option<bool>

    ghost function View(): Accum
      reads this
    {
      Accum(scalars, codes, notify, tags, dependsOn, ignore)
    }

    constructor ()
      ensures View() == BLANK_ACCUM
    {
      scalars, codes, notify, tags, dependsOn, ignore := map[], None, [], [], [], None;
    }

    method SetScalar(k: Key, v: Scalar) returns (event: TraceEvent)
      modifies this`scalars
      ensures scalars == old(scalars)[k := v]
      ensures event == TraceEvent(Value(k), if k in old(scalars) then Replace else Set,
                         if k in old(scalars) then Single(old(scalars)[k]) else Blank, Single(v), [], [])
    {
      if k in scalars {
        event := TraceEvent(Value(k), Replace, Single(scalars[k]), Single(v), [], []);
      } else {
        event := TraceEvent(Value(k), Set, Blank, Single(v), [], []);
      }
      scalars := scalars[k := v];
    }

    method WriteField(e: StackEntry, f: Field) returns (event: TraceEvent)
      requires Touches(e, f)
      modifies this
      ensures View() == Put(old(View()), e, f) && event == EventOf(old(View()), e, f)
    {
      match f {
        case Value(k) => event := SetScalar(k, e.cfg.Get(k));
        case Codes =>
          event := TraceEvent(Codes, if codes.Some? then Replace else Set,
            Numbers(if codes.Some? then codes.value else []), Numbers(e.cfg.codes), [], []);
          codes := Some(e.cfg.codes);
        case Notify => notify, event := ApplyList(f, notify, e.cfg.notify.values, e.cfg.notify.override);
        case Tags => tags, event := ApplyList(f, tags, e.cfg.tags.values, e.cfg.tags.override);
        case DependsOn => dependsOn, event := ApplyList(f, dependsOn, e.cfg.dependsOn.values, e.cfg.dependsOn.override);
        case Ignore =>
          if ignore.Some? {
            event := TraceEvent(Ignore, Replace, Single(Flag(ignore.value)), Single(Flag(e.ignore.value)), [], []);
          } else {
            event := TraceEvent(Ignore, Set, Blank, Single(Flag(e.ignore.value)), [], []);
          }
          ignore := e.ignore;
      }
    }

    /** Write the fields a block touches, in order, and record each. */
    method ApplyConfig(e: StackEntry, fields: seq<Field>) returns (events: seq<TraceEvent>)
      modifies this
      ensures View() == Applied(old(View()), e, fields).0 && events == Applied(old(View()), e, fields).1
    {
      events := [];
      for i := 0 to |fields|
        invariant View() == Applied(old(View()), e, fields[..i]).0 && events == Applied(old(View()), e, fields[..i]).1
      {
        assert fields[..i + 1][..i] == fields[..i];
        if Touches(e, fields[i]) {
          var event := WriteField(e, fields[i]);
          events := events + [event];
        }
      }
      assert fields[..|fields|] == fields;
    }
  }

  // ----- the traced walk as it runs

  function Zip<W>(chain: seq<Step<W>>, events: seq<seq<TraceEvent>>): seq<RuleTrace<W>>
    requires |chain| == |events|
  {
    seq(|chain|, i requires 0 <= i < |chain| => RuleTrace(chain[i].place, chain[i].when, chain[i].final, events[i]))
  }

  lemma {:induction false} AppliedAllLength(a: Accum, stack: seq<StackEntry>)
    ensures |AppliedAll(a, stack).1| == |stack|
  {
    if stack != [] {
      AppliedAllLength(a, stack[..|stack| - 1]);
    }
  }

  /** The traces a chain and its stack call for. */
  ghost predicate Traced<W>(chain: seq<Step<W>>, stack: seq<StackEntry>, acc: Accum, traces: seq<RuleTrace<W>>) {
    AppliedAllLength(BLANK_ACCUM, stack);
    && |chain| == |stack|
    && acc == AppliedAll(BLANK_ACCUM, stack).0
    && traces == Zip(chain, AppliedAll(BLANK_ACCUM, stack).1)
  }

  lemma TracedPush<W>(
    chain: seq<Step<W>>, stack: seq<StackEntry>, acc: Accum, traces: seq<RuleTrace<W>>, s: Step<W>, e: StackEntry)
    requires Traced(chain, stack, acc, traces)
    ensures var (next, events) := Applied(acc, e, FIELD_ORDER);
            Traced(chain + [s], stack + [e], next, traces + [RuleTrace(s.place, s.when, s.final, events)])
  {
    AppliedAllLength(BLANK_ACCUM, stack);
    AppliedAllLength(BLANK_ACCUM, stack + [e]);
    assert (stack + [e])[..|stack|] == stack;
  }

  class TracedWalker<W> {
    const matches: W -> bool
    const resolver: Resolver
    const acc: TraceAccumulator
    var stack: seq<StackEntry>
    var chain: seq<Step<W>>
    var traces: seq<RuleTrace<W>>

    ghost function View(): Walked<W>
      reads this, resolver
    {
      Walked(stack, chain, resolver.provenance, resolver.warnings)
    }

    ghost predicate Valid()
      reads this, acc
    {
      Traced(chain, stack, acc.View(), traces)
    }

    constructor (matches: W -> bool, resolver: Resolver, acc: TraceAccumulator)
      requires acc.View() == BLANK_ACCUM
      ensures this.matches == matches && this.resolver == resolver && this.acc == acc
      ensures stack == [] && chain == [] && Valid()
    {
      this.matches, this.resolver, this.acc, stack, chain, traces := matches, resolver, acc, [], [], [];
    }

    method VisitRule(r: Rule<W, Config>, place: Place) returns (halt: bool)
      requires Valid()
      modifies this, resolver, acc
      ensures Valid()
      ensures View() == Plus(old(View()), Gather(resolver.env, Visit(matches, r, place).0))
      ensures halt == Visit(matches, r, place).1
      decreases r, 1
    {
      PlusAssociates(View(), Nothing(), Nothing());
      if !matches(r.when) {
        return false;
      }
      Push(r, place);
      ghost var h, hits := HitOf(r, place), VisitAll(matches, r.nested, place, 0).0;
      halt := WalkRules(r.nested, place);
      PlusAssociates(old(View()), One(resolver.env, h), Gather(resolver.env, hits));
      assert ([h] + hits)[1..] == hits;
      return halt || r.final;
    }

    /** Record a matched rule: its step, its lowered block and what that block writes. */
    method Push(r: Rule<W, Config>, place: Place)
      requires Valid()
      modifies this, resolver, acc
      ensures Valid() && View() == Plus(old(View()), One(resolver.env, HitOf(r, place)))
    {
      var step := Step(place, r.when, r.final);
      var effective := resolver.Apply(place, r.config);
      var entry := StackEntry(effective, r.ignore);
      TracedPush(chain, stack, acc.View(), traces, step, entry);
      var events := acc.ApplyConfig(entry, FIELD_ORDER);
      chain := chain + [step];
      traces := traces + [RuleTrace(place, r.when, r.final, events)];
      stack := stack + [entry];
    }

    method WalkRules(rules: seq<Rule<W, Config>>, parent: Place) returns (halted: bool)
      requires Valid()
      modifies this, resolver, acc
      ensures Valid()
      ensures View() == Plus(old(View()), Gather(resolver.env, VisitAll(matches, rules, parent, 0).0))
      ensures halted == VisitAll(matches, rules, parent, 0).1
      decreases rules, 0
    {
      ghost var done: seq<Hit<W, Config>> := [];
      ghost var gained: Walked<W> := Nothing();
      halted := false;
      var i := 0;
      PlusAssociates(View(), Nothing(), Nothing());
      while i < |rules| && !halted
        invariant Valid() && Midway(matches, rules, parent, i, done, halted)
        invariant gained == Gather(resolver.env, done) && View() == Plus(old(View()), gained)
        decreases |rules| - i
      {
        ghost var first := Visit(matches, rules[i], parent + [i]).0;
        halted := VisitRule(rules[i], parent + [i]);
        MidwayStep(matches, rules, parent, i, done);
        GatherConcat(resolver.env, done, first);
        PlusAssociates(old(View()), gained, Gather(resolver.env, first));
        gained, done := Plus(gained, Gather(resolver.env, first)), done + first;
        i := i + 1;
      }
      MidwayEnd(matches, rules, parent, i, done, halted);
    }
  }

  /** All events of the traces, in order. */
  function EventsOf<W>(traces: seq<RuleTrace<W>>): seq<TraceEvent> {
    if traces == [] then [] else EventsOf(traces[..|traces| - 1]) + traces[|traces| - 1].events
  }

  lemma {:induction false} EventsOfZip<W>(chain: seq<Step<W>>, events: seq<seq<TraceEvent>>)
    requires |chain| == |events|
    ensures EventsOf(Zip(chain, events)) == Flatten(events)
  {
    if events != [] {
      var n := |events| - 1;
      EventsOfZip(chain[..n], events[..n]);
      assert Zip(chain, events)[..n] == Zip(chain[..n], events[..n]);
    }
  }

  /** The traces of a stack show its collapse. */
  ghost predicate Honest<W>(traces: seq<RuleTrace<W>>, c: Config, ignored: bool) {
    && Chained(EventsOf(traces))
    && AllAccount(EventsOf(traces))
    && forall f :: ResolvedShown(c, ignored, f)
         == if Mentions(EventsOf(traces), f) then Latest(EventsOf(traces), f) else ZeroShown(f)
  }

  /** The trace of the i-th matched rule tells of its lowered block. */
  ghost predicate TracesTold<W>(traces: seq<RuleTrace<W>>, stack: seq<StackEntry>, fields: seq<Field>) {
    |traces| == |stack| && forall i :: 0 <= i < |traces| ==> RuleTold(traces[i].events, stack[i], fields)
  }

  lemma TracedIsHonest<W>(chain: seq<Step<W>>, stack: seq<StackEntry>, acc: Accum, traces: seq<RuleTrace<W>>)
    requires Traced(chain, stack, acc, traces)
    ensures Honest(traces, ResolveStack(stack), Ignored(stack))
    ensures |traces| == |chain|
    ensures forall i :: 0 <= i < |traces| ==> Step(traces[i].place, traces[i].when, traces[i].final) == chain[i]
    ensures TracesTold(traces, stack, FIELD_ORDER)
  {
    AppliedAllLength(BLANK_ACCUM, stack);
    AppliedAllTold(BLANK_ACCUM, stack);
    TraceIsHonest(stack);
    EveryEventAccounts(stack);
    EventsOfZip(chain, AppliedAll(BLANK_ACCUM, stack).1);
  }

  /**
   The traced resolution returns the plain one, with one trace per step of the chain, which has one event per field that
   step's lowered block touches and tells what the block did to it. The events are honest: each starts
   from what the previous one about its field left, list events account for every value added and removed, and the last
   event about a field leaves its resolved value.
   */
  method ResolveWithTrace<W>(m: W -> bool, rules: seq<Rule<W, Config>>, env: Env, host: string)
    returns (res: Resolution<W>, traces: seq<RuleTrace<W>>)
    ensures res == Resolve(m, rules, env, host)
    ensures |traces| == |res.chain|
    ensures forall i :: 0 <= i < |traces| ==> Step(traces[i].place, traces[i].when, traces[i].final) == res.chain[i]
    ensures Honest(traces, res.config, res.ignored)
    ensures TracesTold(traces, Gather(env, VisitAll(m, rules, [], 0).0).stack, FIELD_ORDER)
  {
    var resolver := new Resolver(env);
    var acc := new TraceAccumulator();
    var walker := new TracedWalker(m, resolver, acc);
    var halted := walker.WalkRules(rules, []);
    PlusAssociates(Gather(env, VisitAll(m, rules, [], 0).0), Nothing(), Nothing());
    traces := walker.traces;
    TracedIsHonest(walker.chain, walker.stack, acc.View(), traces);
    res := Conclude(walker.stack, walker.chain, resolver.provenance, resolver.warnings, host);
  }
}
