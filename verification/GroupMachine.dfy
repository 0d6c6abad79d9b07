/**
 The group as it runs: an object whose fields the dispatcher and the evaluator
 update in place, proved to compute the functions of module Digest.
 */
module GroupMachine {
  import opened Base
  import opened Sorting
  import opened Digest

  datatype Counts = Counts(down: nat, recovering: nat, recovered: nat, paused: nat, total: nat)

  class Group {
    const channel: string
    const openedAt: Time
    const cfg: Config
    var digestTS: string
    var digestChannel: string
    var posted: bool
    var closed: bool
    var lastFlushAt: Time
    var lastReminderAt: Time
    var members: Members

    ghost function View(): GroupState
      reads this
    {
      GroupState(channel, openedAt, digestTS, digestChannel, posted, closed, lastFlushAt, lastReminderAt, members, cfg)
    }

    constructor (channel: string, now: Time, cfg: Config)
      ensures View() == New(channel, now, cfg)
    {
      this.channel, this.openedAt, this.cfg := channel, now, cfg.WithDefaults();
      digestTS, digestChannel, posted, closed := "", "", false, false;
      lastFlushAt, lastReminderAt, members := ZERO, ZERO, map[];
    }

    method MarkDown(slug: string, now: Time)
      modifies this
      ensures View() == MarkedDown(old(View()), slug, now)
    {
      if slug !in members {
        members := members[slug := Member(slug, Down, now, now, ZERO, now, RenderNone)];
        return;
      }
      var m := members[slug];
      if m.state == Down {
        assert members == members[slug := m];
        return;
      }
      members := members[slug := m.(state := Down, downSince := now, upSince := ZERO, changedAt := now)];
    }

    method MarkUp(slug: string, now: Time)
      modifies this
      ensures View() == MarkedUp(old(View()), slug, now)
    {
      if slug !in members || members[slug].state != Down {
        return;
      }
      members := members[slug := members[slug].(state := Recovering, upSince := now, changedAt := now)];
    }

    method MarkPaused(slug: string, now: Time)
      modifies this
      ensures View() == MarkedPaused(old(View()), slug, now)
    {
      if slug !in members || members[slug].state == Paused {
        return;
      }
      members := members[slug := members[slug].(state := Paused, changedAt := now)];
    }

    method Open(now: Time) returns (action: Option<Action>)
      modifies this
      ensures var r := Opened(old(View()), now);
              View() == r.0 && r.1 == match action { case None => [] case Some(a) => [a] }
    {
      if posted || closed {
        return None;
      }
      posted, lastFlushAt, lastReminderAt := true, now, now;
      CommitRender();
      return Some(Action(PostDigest, NO_DELTA));
    }

    /** One evaluation pass: debounce promotions, then post, discard, close, flush or remind. */
    method Evaluate(now: Time) returns (actions: seq<Action>)
      requires View().Keyed()
      modifies this
      ensures (View(), actions) == Evaluated(old(View()), now)
    {
      if closed {
        return [];
      }
      PromoteRecovered(now);
      var down := CountByState(Down);
      var recovering := CountByState(Recovering);
      if !posted {
        if now < openedAt + cfg.groupWait {
          return [];
        }
        if down == 0 {
          closed := true;
          return [Action(Discard, NO_DELTA)];
        }
        posted, lastFlushAt, lastReminderAt := true, now, now;
        CommitRender();
        return [Action(PostDigest, NO_DELTA)];
      }
      if down == 0 && recovering == 0 {
        closed := true;
        var d := ComputeDelta();
        CommitRender();
        return [Action(Close, d)];
      }
      ghost var p := View();
      CommittedKeepsStates(p.members, Down);
      actions := [];
      if now >= lastFlushAt + cfg.groupInterval {
        var d := ComputeDelta();
        if !d.Empty() {
          actions := [Action(Update, d)];
        }
        CommitRender();
        lastFlushAt := now;
      }
      assert (View(), actions) == Flushed(p, now);
      assert down == |InState(members, Down)| && actions + [] == actions;
      if down > 0 && now >= lastReminderAt + cfg.repeatInterval {
        actions := actions + [Action(Remind, NO_DELTA)];
        lastReminderAt := now;
      }
    }

    method PromoteRecovered(now: Time)
      modifies this`members
      ensures members == PromoteAll(old(members), now, cfg.resolveDebounce)
    {
      var todo := members.Keys;
      while todo != {}
        invariant todo <= members.Keys == old(members).Keys
        invariant forall s :: s in members ==>
          members[s] == if s in todo then old(members)[s] else Promoted(old(members)[s], now, cfg.resolveDebounce)
        decreases |todo|
      {
        var s :| s in todo;
        var m := members[s];
        if m.state == Recovering && now >= m.upSince + cfg.resolveDebounce {
          members := members[s := m.(state := Recovered, changedAt := now)];
        }
        todo := todo - {s};
      }
    }

    method CommitRender()
      modifies this`members
      ensures members == Committed(old(members))
    {
      var todo := members.Keys;
      while todo != {}
        invariant todo <= members.Keys == old(members).Keys
        invariant forall s :: s in members ==>
          members[s] == if s in todo then old(members)[s] else Committed(old(members))[s]
        decreases |todo|
      {
        var s :| s in todo;
        members := members[s := members[s].(rendered := RenderOf(members[s].state))];
        todo := todo - {s};
      }
    }

    method ComputeDelta() returns (d: Delta)
      requires View().Keyed()
      ensures d == DeltaOf(members)
    {
      var newlyDown, recovered, flapped, paused := [], [], [], [];
      var todo := members.Keys;
      ghost var seen: Members := map[];
      while todo != {}
        invariant todo <= members.Keys && seen == map s | s in members && s !in todo :: members[s]
        invariant Collects(newlyDown, Where(seen, IsNewlyDown)) && Collects(recovered, Where(seen, IsRecovered))
        invariant Collects(flapped, Where(seen, IsFlapped)) && Collects(paused, Where(seen, IsPaused))
        decreases |todo|
      {
        var s :| s in todo;
        var m := members[s];
        ghost var was := Delta(newlyDown, recovered, flapped, paused);
        var cur, prev := RenderOf(m.state), m.rendered;
        if cur == prev {
        } else if cur == RenderPaused {
          paused := paused + [m.slug];
        } else if cur == RenderActive && (prev == RenderNone || prev == RenderPaused) {
          newlyDown := newlyDown + [m.slug];
        } else if cur == RenderActive && prev == RenderRecovered {
          flapped := flapped + [m.slug];
        } else if cur == RenderRecovered && prev == RenderActive {
          recovered := recovered + [m.slug];
        }
        BucketGrows(was.newlyDown, newlyDown, seen, s, m, IsNewlyDown);
        BucketGrows(was.recovered, recovered, seen, s, m, IsRecovered);
        BucketGrows(was.flapped, flapped, seen, s, m, IsFlapped);
        BucketGrows(was.paused, paused, seen, s, m, IsPaused);
        seen := seen[s := m];
        todo := todo - {s};
      }
      assert seen == members;
      SortLists(newlyDown, Where(members, IsNewlyDown));
      SortLists(recovered, Where(members, IsRecovered));
      SortLists(flapped, Where(members, IsFlapped));
      SortLists(paused, Where(members, IsPaused));
      d := Delta(Sort(newlyDown), Sort(recovered), Sort(flapped), Sort(paused));
    }

    method CountByState(st: MemberState) returns (n: nat)
      ensures n == |InState(members, st)|
    {
      n := 0;
      var todo := members.Keys;
      ghost var found: set<string> := {};
      while todo != {}
        invariant todo <= members.Keys
        invariant forall s :: s in found <==> s in members && s !in todo && members[s].state == st
        invariant n == |found|
        decreases |todo|
      {
        var s :| s in todo;
        if members[s].state == st {
          n := n + 1;
          found := found + {s};
        }
        todo := todo - {s};
      }
      assert found == InState(members, st);
    }

    /** The digest header: every member is counted once, paused ones outside the total. */
    method Scoreboard() returns (c: Counts)
      ensures c.down == |InState(members, Down)| && c.recovering == |InState(members, Recovering)|
      ensures c.recovered == |InState(members, Recovered)| && c.paused == |InState(members, Paused)|
      ensures c.total + c.paused == |members| && c.total == c.down + c.recovering + c.recovered
    {
      c := Counts(0, 0, 0, 0, 0);
      var todo := members.Keys;
      ghost var seen: Members := map[];
      while todo != {}
        invariant todo <= members.Keys && seen == map s | s in members && s !in todo :: members[s]
        invariant c.down == |InState(seen, Down)| && c.recovering == |InState(seen, Recovering)|
        invariant c.recovered == |InState(seen, Recovered)| && c.paused == |InState(seen, Paused)|
        invariant c.down + c.recovering + c.recovered + c.paused == |members| - |todo|
        decreases |todo|
      {
        var s :| s in todo;
        ghost var was := seen;
        seen := seen[s := members[s]];
        InStateGrows(was, s, members[s]);
        match members[s].state {
          case Down => c := c.(down := c.down + 1);
          case Recovering => c := c.(recovering := c.recovering + 1);
          case Recovered => c := c.(recovered := c.recovered + 1);
          case Paused => c := c.(paused := c.paused + 1);
        }
        todo := todo - {s};
      }
      assert seen == members;
      c := c.(total := c.down + c.recovering + c.recovered);
    }
  }

  /** One more member seen: its slug joins the bucket exactly when it belongs there. */
  lemma BucketGrows(was: seq<string>, xs: seq<string>, seen: Members, s: string, m: Member, p: Member -> bool)
    requires s !in seen && Collects(was, Where(seen, p))
    requires xs == if p(m) then was + [s] else was
    ensures Collects(xs, Where(seen[s := m], p))
  {
    assert Where(seen[s := m], p) == Where(seen, p) + if p(m) then {s} else {};
    if p(m) {
      CollectsOneMore(was, Where(seen, p), s);
    }
  }

  /** Snapshotting the rendering leaves every member's state alone. */
  lemma CommittedKeepsStates(ms: Members, st: MemberState)
    ensures InState(Committed(ms), st) == InState(ms, st)
  {
  }

  lemma InStateGrows(ms: Members, s: string, m: Member)
    requires s !in ms
    ensures forall st :: |InState(ms[s := m], st)| == |InState(ms, st)| + if st == m.state then 1 else 0
  {
    forall st ensures |InState(ms[s := m], st)| == |InState(ms, st)| + if st == m.state then 1 else 0 {
      assert InState(ms[s := m], st) == InState(ms, st) + if st == m.state then {s} else {};
    }
  }
}
