/**
 The burst dispatcher of one channel as a value: what routing, pausing, pool
 expiry and group evaluation do to it, and which entries they hand to the
 per-monitor sink. ChannelManager implements these functions in place.
 */
module Dispatch {
  import opened Base
  import A = Alert
  import G = Digest

  datatype MemberInfo = MemberInfo(slug: string, friendlyName: string, mentions: seq<string>, detailURL: string)

  datatype Entry = Entry(member: MemberInfo, row: A.MonitorRow, event: Option<A.Event>, mentions: seq<string>) {
    function Slug(): string {
      member.slug
    }

    predicate Is(kind: A.EventKind) {
      event.Some? && event.value.kind == kind
    }
  }

  datatype PendingEntry = PendingEntry(entry: Entry, enteredAt: Time)

  type Pool = map<string, PendingEntry>

  datatype Mode = Individual | Pending | Grouped

  datatype Channel = Channel(
    mode: Mode,
    pending: Pool,
    pendingDue: Time,
    down: map<string, Time>,
    individual: set<string>,
    group: Option<G.GroupState>)
  {
    predicate DigestOwns(slug: string) {
      group.Some? && slug in group.value.members
    }

    /** The live digest holds the monitor as down. */
    predicate DownInDigest(slug: string) {
      DigestOwns(slug) && group.value.members[slug].state == G.Down
    }

    /** No pool, no timer. */
    function Idle(): Channel {
      this.(mode := Individual, pending := map[], pendingDue := ZERO)
    }

    /** The pool without one monitor; the last one out ends the pending window. */
    function Retracted(slug: string): Channel {
      var rest := pending - {slug};
      if rest == map[] then Idle() else this.(pending := rest)
    }
  }

  const FRESH := Channel(Individual, map[], ZERO, map[], {}, None)

  datatype Settings = Settings(
    channel: string, pendingWait: int, burstThreshold: int, burstWindow: int, group: G.Config)

  /** What a step does: the new state, the entries for the per-monitor sink, and the digest's own actions. */
  datatype Outcome = Outcome(chan: Channel, sends: set<Entry>, actions: seq<G.Action>)

  function Quiet(c: Channel): Outcome {
    Outcome(c, {}, [])
  }

  /** The live group, or one born at the given time. */
  function Ensured(s: Settings, c: Channel, at: Time): G.GroupState {
    if c.group.Some? then c.group.value else G.New(s.channel, at, s.group)
  }

  function Opened(s: Settings, c: Channel, e: Entry): Outcome
    requires e.event.Some?
  {
    var slug, at := e.Slug(), e.event.value.at;
    var d := c.(down := c.down[slug := at]);
    match c.mode
    case Grouped => Quiet(d.(group := Some(G.MarkedDown(Ensured(s, c, at), slug, at))))
    case Individual =>
      Quiet(d.(mode := Pending, pending := map[slug := PendingEntry(e, at)], pendingDue := at + s.pendingWait))
    case Pending => Quiet(d.(pending := c.pending[slug := PendingEntry(e, at)]))
  }

  function Resolved(c: Channel, e: Entry): Outcome
    requires e.event.Some?
  {
    var slug := e.Slug();
    var d := c.(down := c.down - {slug}, individual := c.individual - {slug});
    if slug in c.individual then Outcome(d, {e}, [])
    else match c.mode
    case Grouped =>
      if c.DigestOwns(slug) then Quiet(d.(group := Some(G.MarkedUp(c.group.value, slug, e.event.value.at))))
      else Outcome(d, {e}, [])
    case Pending => Quiet(d.Retracted(slug))
    case Individual => Outcome(d, {e}, [])
  }

  function Reminded(c: Channel, e: Entry): Outcome {
    var forward := e.Slug() in c.individual || c.mode == Individual || (c.mode == Grouped && !c.DigestOwns(e.Slug()));
    Outcome(c, if forward then {e} else {}, [])
  }

  function Routed(s: Settings, c: Channel, e: Entry): Outcome {
    if e.event.None? then Quiet(c)
    else match e.event.value.kind
    case EventOpen => Opened(s, c, e)
    case EventResolve => Resolved(c, e)
    case EventReminder => Reminded(c, e)
  }

  function Paused(c: Channel, slug: string, at: Time): Channel {
    var d := c.(down := c.down - {slug});
    match c.mode
    case Grouped => if c.group.Some? then d.(group := Some(G.MarkedPaused(c.group.value, slug, at))) else d
    case Pending => d.Retracted(slug)
    case Individual => d
  }

  // ----- pool expiry

  ghost predicate IsEarliest(t: Time, pool: Pool, now: Time) {
    && (t == now || exists s :: s in pool && pool[s].enteredAt == t)
    && t <= now && forall s :: s in pool ==> t <= pool[s].enteredAt
  }

  lemma {:induction false} EarliestExists(pool: Pool, now: Time)
    ensures exists t :: IsEarliest(t, pool, now)
  {
    if pool == map[] {
      assert IsEarliest(now, pool, now);
    } else {
      var s :| s in pool;
      EarliestExists(pool - {s}, now);
      var t :| IsEarliest(t, pool - {s}, now);
      assert forall r :: r in pool && r != s ==> r in pool - {s};
      assert IsEarliest(if pool[s].enteredAt < t then pool[s].enteredAt else t, pool, now);
    }
  }

  /** The birth time of a promoted group: the first failure of its pool. */
  ghost function Earliest(pool: Pool, now: Time): (t: Time)
    ensures IsEarliest(t, pool, now)
  {
    EarliestExists(pool, now);
    var t :| IsEarliest(t, pool, now);
    t
  }

  /** Mark every pool member down, each as of when it entered. */
  function Joined(g: G.GroupState, pool: Pool): G.GroupState {
    g.(members := map s | s in g.members.Keys + pool.Keys ::
      if s in pool then G.DownMember(g.members, s, pool[s].enteredAt) else g.members[s])
  }

  function Entries(pool: Pool): set<Entry> {
    set s | s in pool :: pool[s].entry
  }

  /** Every pool entry is filed under its own slug. */
  ghost predicate PoolFiled(pool: Pool) {
    forall s :: s in pool ==> pool[s].entry.Slug() == s
  }

  lemma {:induction false} EntriesDistinct(pool: Pool)
    requires PoolFiled(pool)
    ensures |Entries(pool)| == |pool|
  {
    if pool != map[] {
      var x :| x in pool;
      var rest := pool - {x};
      EntriesDistinct(rest);
      assert pool.Keys == rest.Keys + {x};
      assert Entries(pool) == Entries(rest) + {pool[x].entry};
      assert forall y :: y in rest ==> rest[y].entry.Slug() == y;
      assert pool[x].entry !in Entries(rest);
    }
  }

  /** The monitors counted as one burst: everything recently down, and the pool. */
  function Burst(c: Channel, now: Time, window: int): set<string> {
    Fresh(c.down, now, window).Keys + c.pending.Keys
  }

  predicate Promotes(s: Settings, c: Channel, now: Time) {
    s.burstThreshold > 0 && |Burst(c, now, s.burstWindow)| >= s.burstThreshold
  }

  ghost function Expired(s: Settings, c: Channel, now: Time): Outcome {
    if c.mode != Pending then Quiet(c)
    else if c.pending == map[] then Quiet(c.Idle())
    else
      var d := c.(down := Fresh(c.down, now, s.burstWindow)).Idle();
      if Promotes(s, c, now) then
        var (g, actions) := G.Opened(Joined(Ensured(s, c, Earliest(c.pending, now)), c.pending), now);
        Outcome(d.(mode := Grouped, group := Some(g)), {}, actions)
      else Outcome(d.(individual := c.individual + c.pending.Keys), Entries(c.pending), [])
  }

  // ----- group evaluation

  ghost predicate Retires(actions: seq<G.Action>) {
    exists a :: a in actions && (a.kind == G.Close || a.kind == G.Discard)
  }

  /** The channel once its group is gone: only failures the per-monitor notifier owns stay counted. */
  function Retired(c: Channel): Channel {
    c.Idle().(group := None, down := map s | s in c.down && s in c.individual :: c.down[s])
  }

  ghost function Evaluated(c: Channel, now: Time): Outcome {
    if c.group.None? then Quiet(c)
    else
      var (g, actions) := G.Evaluated(c.group.value, now);
      Outcome(if Retires(actions) then Retired(c) else c.(group := Some(g)), {}, actions)
  }

  /** One pass of the evaluator: a due pool first, then the group. */
  ghost function Passed(s: Settings, c: Channel, now: Time): Outcome {
    var pool := if c.mode == Pending && now >= c.pendingDue then Expired(s, c, now) else Quiet(c);
    var group := Evaluated(pool.chan, now);
    Outcome(group.chan, pool.sends, pool.actions + group.actions)
  }

  // ----- runs

  /** One atomic step, as the manager's lock serializes them. */
  datatype Event = Route(e: Entry) | Pause(slug: string, at: Time) | Expire(now: Time) | Evaluate(now: Time)

  ghost function Step(s: Settings, c: Channel, ev: Event): Outcome {
    match ev
    case Route(e) => Routed(s, c, e)
    case Pause(slug, at) => Quiet(Paused(c, slug, at))
    case Expire(now) => Expired(s, c, now)
    case Evaluate(now) => Evaluated(c, now)
  }

  ghost function After(s: Settings, c: Channel, evs: seq<Event>): Channel {
    if evs == [] then c else Step(s, After(s, c, evs[..|evs| - 1]), evs[|evs| - 1]).chan
  }

  /** What step i of a run hands to the sink. */
  ghost function SendsAt(s: Settings, c: Channel, evs: seq<Event>, i: int): set<Entry>
    requires 0 <= i < |evs|
  {
    Step(s, After(s, c, evs[..i]), evs[i]).sends
  }

  /** A channel before its first event: empty, or reattached to an open digest. */
  predicate Initial(c: Channel) {
    || c == FRESH
    || (&& c.group.Some? && c == FRESH.(mode := Grouped, group := c.group)
        && !c.group.value.closed && c.group.value.Keyed())
  }
}
