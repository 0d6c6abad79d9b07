/**
 The living per-channel incident as a value: members, timers and the actions
 one evaluation asks for. GroupMachine implements these functions in place.
 */
module Digest {
  import opened Base
  import opened Sorting

  datatype MemberState = Down | Recovering | Recovered | Paused

  /** How a member appears in the digest message. */
  datatype RenderClass = RenderNone | RenderActive | RenderRecovered | RenderPaused

  datatype Member = Member(
    slug: string,
    state: MemberState,
    joinedAt: Time,
    downSince: Time,
    upSince: Time,
    changedAt: Time,
    rendered: RenderClass)

  type Members = map<string, Member>

  datatype Config = Config(groupWait: int, groupInterval: int, repeatInterval: int, resolveDebounce: int) {

    function WithDefaults(): (c: Config)
      ensures c.Positive() && (Positive() ==> c == this)
      ensures c.groupWait == if groupWait > 0 then groupWait else 30 * SECOND
      ensures c.groupInterval == if groupInterval > 0 then groupInterval else 5 * MINUTE
      ensures c.repeatInterval == if repeatInterval > 0 then repeatInterval else 30 * MINUTE
      ensures c.resolveDebounce == if resolveDebounce > 0 then resolveDebounce else c.groupInterval
    {
      var interval := if groupInterval <= 0 then 5 * MINUTE else groupInterval;
      Config(
        if groupWait <= 0 then 30 * SECOND else groupWait,
        interval,
        if repeatInterval <= 0 then 30 * MINUTE else repeatInterval,
        if resolveDebounce <= 0 then interval else resolveDebounce)
    }

    predicate Positive() {
      groupWait > 0 && groupInterval > 0 && repeatInterval > 0 && resolveDebounce > 0
    }
  }

  datatype GroupState = GroupState(
    channel: string,
    openedAt: Time,
    digestTS: string,
    digestChannel: string,
    posted: bool,
    closed: bool,
    lastFlushAt: Time,
    lastReminderAt: Time,
    members: Members,
    cfg: Config)
  {
    /** Every member is filed under its own slug. */
    predicate Keyed() {
      forall s :: s in members ==> members[s].slug == s
    }
  }

  datatype Delta = Delta(
    newlyDown: seq<string>, recovered: seq<string>, flapped: seq<string>, paused: seq<string>)
  {
    predicate Empty() {
      newlyDown == [] && recovered == [] && flapped == [] && paused == []
    }

    predicate Mentions(slug: string) {
      slug in newlyDown || slug in recovered || slug in flapped || slug in paused
    }
  }

  const NO_DELTA := Delta([], [], [], [])

  datatype Kind = PostDigest | Update | Remind | Close | Discard

  datatype Action = Action(kind: Kind, delta: Delta)

  function RenderOf(s: MemberState): RenderClass {
    match s
    case Down | Recovering => RenderActive
    case Recovered => RenderRecovered
    case Paused => RenderPaused
  }

  function New(channel: string, now: Time, cfg: Config): GroupState {
    GroupState(channel, now, "", "", false, false, ZERO, ZERO, map[], cfg.WithDefaults())
  }

  // ----- transitions

  /** A monitor's membership once it is marked down: it joins, goes down again, or already is. */
  function DownMember(ms: Members, slug: string, now: Time): Member {
    if slug !in ms then Member(slug, Down, now, now, ZERO, now, RenderNone)
    else if ms[slug].state == Down then ms[slug]
    else ms[slug].(state := Down, downSince := now, upSince := ZERO, changedAt := now)
  }

  function MarkedDown(g: GroupState, slug: string, now: Time): GroupState {
    g.(members := g.members[slug := DownMember(g.members, slug, now)])
  }

  function MarkedUp(g: GroupState, slug: string, now: Time): GroupState {
    if slug !in g.members || g.members[slug].state != Down then g
    else
      g.(members := g.members[slug :=
        g.members[slug].(state := Recovering, upSince := now, changedAt := now)])
  }

  function MarkedPaused(g: GroupState, slug: string, now: Time): GroupState {
    if slug !in g.members || g.members[slug].state == Paused then g
    else
      g.(members := g.members[slug := g.members[slug].(state := Paused, changedAt := now)])
  }

  // ----- rendering

  function Committed(ms: Members): Members {
    map s | s in ms :: ms[s].(rendered := RenderOf(ms[s].state))
  }

  function InState(ms: Members, st: MemberState): set<string> {
    set s | s in ms && ms[s].state == st
  }

  function Where(ms: Members, p: Member -> bool): set<string> {
    set s | s in ms && p(ms[s])
  }

  predicate IsNewlyDown(m: Member) {
    RenderOf(m.state) == RenderActive && (m.rendered == RenderNone || m.rendered == RenderPaused)
  }
  predicate IsRecovered(m: Member) {
    RenderOf(m.state) == RenderRecovered && m.rendered == RenderActive
  }
  predicate IsFlapped(m: Member) {
    RenderOf(m.state) == RenderActive && m.rendered == RenderRecovered
  }
  predicate IsPaused(m: Member) {
    RenderOf(m.state) == RenderPaused && m.rendered != RenderPaused
  }

  /** The four buckets of changes since the last rendering. */
  ghost function DeltaOf(ms: Members): Delta {
    Delta(Listing(Where(ms, IsNewlyDown)), Listing(Where(ms, IsRecovered)),
          Listing(Where(ms, IsFlapped)), Listing(Where(ms, IsPaused)))
  }

  // ----- timers

  function Promoted(m: Member, now: Time, debounce: int): Member {
    if m.state == Recovering && now >= m.upSince + debounce
    then m.(state := Recovered, changedAt := now) else m
  }

  function PromoteAll(ms: Members, now: Time, debounce: int): Members {
    map s | s in ms :: Promoted(ms[s], now, debounce)
  }

  /** Mark the group posted as of now and snapshot what the digest shows. */
  function Post(g: GroupState, now: Time): GroupState {
    g.(posted := true, lastFlushAt := now, lastReminderAt := now, members := Committed(g.members))
  }

  /** Post at once, without waiting for groupWait. */
  function Opened(g: GroupState, now: Time): (GroupState, seq<Action>) {
    if g.posted || g.closed then (g, []) else (Post(g, now), [Action(PostDigest, NO_DELTA)])
  }

  /** The heartbeat: flush accrued changes as one delta. */
  ghost function Flushed(g: GroupState, now: Time): (GroupState, seq<Action>) {
    if now < g.lastFlushAt + g.cfg.groupInterval then (g, [])
    else
      var d := DeltaOf(g.members);
      (g.(members := Committed(g.members), lastFlushAt := now), if d.Empty() then [] else [Action(Update, d)])
  }

  /** The still-down reminder. */
  function Reminded(g: GroupState, now: Time): (GroupState, seq<Action>) {
    if InState(g.members, Down) != {} && now >= g.lastReminderAt + g.cfg.repeatInterval
    then (g.(lastReminderAt := now), [Action(Remind, NO_DELTA)])
    else (g, [])
  }

  ghost function Evaluated(g: GroupState, now: Time): (GroupState, seq<Action>) {
    if g.closed then (g, []) else
    var p := g.(members := PromoteAll(g.members, now, g.cfg.resolveDebounce));
    if !p.posted then
      if now < p.openedAt + p.cfg.groupWait then (p, [])
      else if InState(p.members, Down) == {} then (p.(closed := true), [Action(Discard, NO_DELTA)])
      else (Post(p, now), [Action(PostDigest, NO_DELTA)])
    else if InState(p.members, Down) == {} && InState(p.members, Recovering) == {} then
      (p.(closed := true, members := Committed(p.members)), [Action(Close, DeltaOf(p.members))])
    else
      var f := Flushed(p, now);
      var r := Reminded(f.0, now);
      (r.0, f.1 + r.1)
  }

  // ----- runs

  datatype Op =
    | MarkDown(slug: string, at: Time)
    | MarkUp(slug: string, at: Time)
    | MarkPaused(slug: string, at: Time)
    | Open(now: Time)
    | Evaluate(now: Time)

  ghost function Step(g: GroupState, op: Op): (GroupState, seq<Action>) {
    match op
    case MarkDown(slug, at) => (MarkedDown(g, slug, at), [])
    case MarkUp(slug, at) => (MarkedUp(g, slug, at), [])
    case MarkPaused(slug, at) => (MarkedPaused(g, slug, at), [])
    case Open(now) => Opened(g, now)
    case Evaluate(now) => Evaluated(g, now)
  }

  /** The group after a run of operations. */
  ghost function After(g: GroupState, ops: seq<Op>): GroupState {
    if ops == [] then g else Step(After(g, ops[..|ops| - 1]), ops[|ops| - 1]).0
  }

  datatype Stamped = Stamped(at: Time, action: Action)

  function Stamp(op: Op, actions: seq<Action>): seq<Stamped> {
    var at := if op.Open? || op.Evaluate? then op.now else op.at;
    seq(|actions|, i requires 0 <= i < |actions| => Stamped(at, actions[i]))
  }

  /** All actions of a run, each with the time it was asked for. */
  ghost function Emitted(g: GroupState, ops: seq<Op>): seq<Stamped> {
    if ops == [] then [] else
    var n := |ops| - 1;
    Emitted(g, ops[..n]) + Stamp(ops[n], Step(After(g, ops[..n]), ops[n]).1)
  }

  /** What no operation touches: the channel, the birth, the intervals, and the filing of members. */
  ghost predicate SameGroup(g: GroupState, h: GroupState) {
    && (g.Keyed() ==> h.Keyed()) && h.cfg == g.cfg && h.channel == g.channel && h.openedAt == g.openedAt
    && h.digestTS == g.digestTS && h.digestChannel == g.digestChannel
    && g.members.Keys <= h.members.Keys
  }

  lemma EvaluatedKeeps(g: GroupState, now: Time)
    ensures SameGroup(g, Evaluated(g, now).0)
  {
    var p := g.(members := PromoteAll(g.members, now, g.cfg.resolveDebounce));
    assert SameGroup(g, p);
  }

  lemma StepKeepsKeyed(g: GroupState, op: Op)
    requires g.Keyed()
    ensures Step(g, op).0.Keyed() && SameGroup(g, Step(g, op).0)
  {
    if op.Evaluate? {
      EvaluatedKeeps(g, op.now);
    }
  }

  lemma {:induction false} AfterKeepsKeyed(g: GroupState, ops: seq<Op>)
    requires g.Keyed()
    ensures After(g, ops).Keyed()
    ensures After(g, ops).cfg == g.cfg && After(g, ops).channel == g.channel && After(g, ops).openedAt == g.openedAt
  {
    if ops != [] {
      AfterKeepsKeyed(g, ops[..|ops| - 1]);
      StepKeepsKeyed(After(g, ops[..|ops| - 1]), ops[|ops| - 1]);
    }
  }

  /** Snapshotting, flushing and reminding change no member's state. */
  lemma FlushedStates(g: GroupState, now: Time)
    ensures var h := Reminded(Flushed(g, now).0, now).0;
            h.members.Keys == g.members.Keys && forall s :: s in g.members ==> h.members[s].state == g.members[s].state
  {
  }

  /** Evaluation changes no member's state but by promotion, and drops no member. */
  lemma EvaluatedStates(g: GroupState, now: Time)
    ensures Evaluated(g, now).0.members.Keys == g.members.Keys
    ensures forall s :: s in g.members ==>
              Evaluated(g, now).0.members[s].state ==
              if g.closed then g.members[s].state else Promoted(g.members[s], now, g.cfg.resolveDebounce).state
  {
    FlushedStates(g.(members := PromoteAll(g.members, now, g.cfg.resolveDebounce)), now);
  }

  /** Two memberships that differ in states, stamps of change and renderings only. */
  ghost predicate SameTimes(a: Members, b: Members) {
    && a.Keys == b.Keys
    && forall s :: s in a ==> a[s].downSince == b[s].downSince && a[s].joinedAt == b[s].joinedAt
  }

  lemma FlushedTimes(g: GroupState, now: Time)
    ensures SameTimes(g.members, Reminded(Flushed(g, now).0, now).0.members)
  {
  }

  /** Evaluation leaves every member's down time alone. */
  lemma EvaluatedTimes(g: GroupState, now: Time)
    ensures SameTimes(g.members, Evaluated(g, now).0.members)
  {
    var p := g.(members := PromoteAll(g.members, now, g.cfg.resolveDebounce));
    assert SameTimes(g.members, p.members);
    FlushedTimes(p, now);
  }

  lemma InStateEmptyIff(ms: Members, st: MemberState)
    ensures InState(ms, st) == {} <==> forall s :: s in ms ==> ms[s].state != st
  {
    assert forall s :: s in ms && ms[s].state == st ==> s in InState(ms, st);
  }
}
