/**
 The times a digest keeps for each member, read off the operations: when it
 joined, last fell, last rose and last changed.
 */
module MemberStamps {
  import opened Base
  import opened Digest
  import opened DigestRuns

  function TimeOf(op: Op): Time {
    if op.Open? || op.Evaluate? then op.now else op.at
  }

  /** The op changes the member's state. */
  ghost predicate Changes(g: GroupState, op: Op, slug: string) {
    StateOf(Step(g, op).0, slug) != StateOf(g, slug)
  }

  /** The op takes the member down, from up or from nothing. */
  ghost predicate Falls(g: GroupState, op: Op, slug: string) {
    IsDown(op, slug) && StateOf(g, slug) != Some(Down)
  }

  ghost predicate Rises(g: GroupState, op: Op, slug: string) {
    IsUp(op, slug) && StateOf(g, slug) == Some(Down)
  }

  function FirstDown(ops: seq<Op>, slug: string): Option<Time> {
    if ops == [] then None else
    var first := FirstDown(ops[..|ops| - 1], slug);
    if first.None? && IsDown(ops[|ops| - 1], slug) then Some(TimeOf(ops[|ops| - 1])) else first
  }

  ghost function LastChange(g: GroupState, ops: seq<Op>, slug: string): Option<Time> {
    if ops == [] then None else
    var pre, op := ops[..|ops| - 1], ops[|ops| - 1];
    if Changes(After(g, pre), op, slug) then Some(TimeOf(op)) else LastChange(g, pre, slug)
  }

  ghost function LastFall(g: GroupState, ops: seq<Op>, slug: string): Option<Time> {
    if ops == [] then None else
    var pre, op := ops[..|ops| - 1], ops[|ops| - 1];
    if Falls(After(g, pre), op, slug) then Some(TimeOf(op)) else LastFall(g, pre, slug)
  }

  /** The last recovery, unless the member has fallen since. */
  ghost function LastRise(g: GroupState, ops: seq<Op>, slug: string): Option<Time> {
    if ops == [] then None else
    var pre, op := ops[..|ops| - 1], ops[|ops| - 1];
    if Rises(After(g, pre), op, slug) then Some(TimeOf(op))
    else if Falls(After(g, pre), op, slug) then None
    else LastRise(g, pre, slug)
  }

  datatype Stamps = Stamps(joined: Time, fell: Time, rose: Time, changed: Time)

  function StampsOf(m: Member): Stamps {
    Stamps(m.joinedAt, m.downSince, m.upSince, m.changedAt)
  }

  /** What one operation does to a member's times. */
  ghost predicate StampsMove(g: GroupState, op: Op, slug: string) {
    var h := Step(g, op).0;
    && (slug in g.members ==> slug in h.members)
    && (slug in h.members ==>
          if slug !in g.members then
            IsDown(op, slug) && StampsOf(h.members[slug]) == Stamps(TimeOf(op), TimeOf(op), ZERO, TimeOf(op))
          else
            var was := StampsOf(g.members[slug]);
            StampsOf(h.members[slug]) == Stamps(
              was.joined,
              if Falls(g, op, slug) then TimeOf(op) else was.fell,
              if Rises(g, op, slug) then TimeOf(op) else if Falls(g, op, slug) then ZERO else was.rose,
              if Changes(g, op, slug) then TimeOf(op) else was.changed))
  }

  lemma StepStamps(g: GroupState, op: Op, slug: string)
    ensures StampsMove(g, op, slug)
  {
    if op.Evaluate? {
      EvaluateStamps(g, op.now, slug);
    }
  }

  /** The member of an evaluated group is the promoted one, but for its rendering. */
  lemma EvaluatedMember(g: GroupState, now: Time, slug: string)
    requires slug in g.members
    ensures var h := Evaluated(g, now).0;
            var p := if g.closed then g.members[slug] else Promoted(g.members[slug], now, g.cfg.resolveDebounce);
            slug in h.members && h.members[slug].state == p.state && StampsOf(h.members[slug]) == StampsOf(p)
  {
  }

  lemma EvaluateStamps(g: GroupState, now: Time, slug: string)
    ensures StampsMove(g, Evaluate(now), slug)
  {
    EvaluatedStates(g, now);
    if slug in g.members {
      EvaluatedMember(g, now, slug);
    }
  }

  /**
   Every time a member carries is history: it joined with its first failure, has been down since its last fall, up since
   its last recovery unless it fell again, and last changed when its state last did.
   */
  lemma {:induction false} StampsAreHistory(channel: string, at: Time, cfg: Config, ops: seq<Op>, slug: string)
    ensures var g := New(channel, at, cfg);
            var h := After(g, ops);
            if slug !in h.members then
              FirstDown(ops, slug).None? && LastChange(g, ops, slug).None? && LastFall(g, ops, slug).None?
              && LastRise(g, ops, slug).None?
            else
              && FirstDown(ops, slug) == Some(h.members[slug].joinedAt)
              && LastFall(g, ops, slug) == Some(h.members[slug].downSince)
              && LastChange(g, ops, slug) == Some(h.members[slug].changedAt)
              && h.members[slug].upSince ==
                   (if LastRise(g, ops, slug).Some? then LastRise(g, ops, slug).value else ZERO)
  {
    if ops != [] {
      var n := |ops| - 1;
      StampsAreHistory(channel, at, cfg, ops[..n], slug);
      StepStamps(After(New(channel, at, cfg), ops[..n]), ops[n], slug);
      JoinsOnlyDown(After(New(channel, at, cfg), ops[..n]), ops[n], slug);
    }
  }

  lemma JoinsOnlyDown(g: GroupState, op: Op, slug: string)
    ensures slug !in g.members ==> (slug in Step(g, op).0.members <==> IsDown(op, slug))
  {
    if op.Evaluate? {
      EvaluatedStates(g, op.now);
    }
  }
}
