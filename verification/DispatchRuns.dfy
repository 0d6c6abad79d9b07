/**
 What holds over every run of a channel's dispatcher: mode, pool and group agree,
 each open incident has exactly one owner, and retirement drops no failure.
 */
module DispatchRuns {
  import opened Base
  import A = Alert
  import G = Digest
  import opened Dispatch

  // ----- incidents, read off the events alone

  predicate Opens(ev: Event, slug: string) {
    ev.Route? && ev.e.Is(A.EventOpen) && ev.e.Slug() == slug
  }

  predicate Resolves(ev: Event, slug: string) {
    ev.Route? && ev.e.Is(A.EventResolve) && ev.e.Slug() == slug
  }

  predicate Pauses(ev: Event, slug: string) {
    ev.Pause? && ev.slug == slug
  }

  ghost predicate OpenedAt(evs: seq<Event>, slug: string, i: int) {
    0 <= i < |evs| && Opens(evs[i], slug) && forall k :: i < k < |evs| ==> !Resolves(evs[k], slug)
  }

  ghost predicate LiveSince(evs: seq<Event>, slug: string, i: int) {
    OpenedAt(evs, slug, i) && forall k :: i < k < |evs| ==> !Pauses(evs[k], slug)
  }

  /** The monitor's incident is open. */
  ghost predicate OpenNow(evs: seq<Event>, slug: string) {
    exists i :: OpenedAt(evs, slug, i)
  }

  /** The monitor's incident is open and has not been paused since it opened. */
  ghost predicate LiveNow(evs: seq<Event>, slug: string) {
    exists i :: LiveSince(evs, slug, i)
  }

  /** No monitor opens an incident while it has one. */
  ghost predicate Alternates(evs: seq<Event>) {
    forall j :: 0 <= j < |evs| && evs[j].Route? && evs[j].e.Is(A.EventOpen) ==> !OpenNow(evs[..j], evs[j].e.Slug())
  }

  lemma AlternatesPrefix(pre: seq<Event>, ev: Event)
    requires Alternates(pre + [ev])
    ensures Alternates(pre)
    ensures forall slug :: Opens(ev, slug) ==> !OpenNow(pre, slug)
  {
    var evs := pre + [ev];
    assert evs[..|pre|] == pre && evs[|pre|] == ev;
    forall j | 0 <= j < |pre| && pre[j].Route? && pre[j].e.Is(A.EventOpen) ensures !OpenNow(pre[..j], pre[j].e.Slug()) {
      assert pre[..j] == evs[..j] && evs[j] == pre[j];
    }
  }

  lemma OpenStep(pre: seq<Event>, ev: Event, slug: string)
    ensures OpenNow(pre + [ev], slug) <==> Opens(ev, slug) || (!Resolves(ev, slug) && OpenNow(pre, slug))
  {
    var n, evs := |pre|, pre + [ev];
    assert evs[n] == ev && forall k {:trigger pre[k]} :: 0 <= k < n ==> evs[k] == pre[k];
    if i :| OpenedAt(evs, slug, i) {
      assert i < n ==> OpenedAt(pre, slug, i);
    }
    if i :| OpenedAt(pre, slug, i) {
      assert !Resolves(ev, slug) ==> OpenedAt(evs, slug, i);
    }
    if Opens(ev, slug) {
      assert OpenedAt(evs, slug, n);
    }
  }

  lemma LiveStep(pre: seq<Event>, ev: Event, slug: string)
    ensures LiveNow(pre + [ev], slug) <==>
              Opens(ev, slug) || (!Resolves(ev, slug) && !Pauses(ev, slug) && LiveNow(pre, slug))
  {
    var n, evs := |pre|, pre + [ev];
    assert evs[n] == ev && forall k {:trigger pre[k]} :: 0 <= k < n ==> evs[k] == pre[k];
    if i :| LiveSince(evs, slug, i) {
      assert i < n ==> LiveSince(pre, slug, i);
    }
    if i :| LiveSince(pre, slug, i) {
      assert !Resolves(ev, slug) && !Pauses(ev, slug) ==> LiveSince(evs, slug, i);
    }
    if Opens(ev, slug) {
      assert LiveSince(evs, slug, n);
    }
  }

  // ----- single owner

  ghost predicate PoolKeyed(pool: Pool) {
    forall s :: s in pool ==>
      pool[s].entry.Slug() == s && pool[s].entry.Is(A.EventOpen) && pool[s].entry.event.value.at == pool[s].enteredAt
  }

  /** Mode, pool and group agree. */
  ghost predicate Shaped(c: Channel) {
    && (c.mode == Grouped <==> c.group.Some?)
    && (c.mode == Pending <==> c.pending != map[])
    && PoolKeyed(c.pending)
    && (c.group.Some? ==> !c.group.value.closed && c.group.value.Keyed())
  }

  /** Nobody is claimed twice. */
  ghost predicate Unshared(c: Channel) {
    forall s :: s in c.individual ==> s !in c.pending && !c.DigestOwns(s)
  }

  ghost predicate Owned(c: Channel, slug: string) {
    slug in c.pending || slug in c.individual || c.DownInDigest(slug)
  }

  ghost predicate Accounted(c: Channel, evs: seq<Event>) {
    && Shaped(c) && Unshared(c)
    && (forall s :: s in c.pending ==> LiveNow(evs, s))
    && (forall s :: s in c.individual ==> OpenNow(evs, s))
    && (forall s :: LiveNow(evs, s) ==> Owned(c, s))
  }

  /** An evaluation closes the group exactly when the manager retires it. */
  lemma ClosedIffRetires(g: G.GroupState, now: Time)
    requires !g.closed
    ensures G.Evaluated(g, now).0.closed <==> Retires(G.Evaluated(g, now).1)
  {
  }

  /** Retirement never drops a member the digest holds as down. */
  lemma RetirementDropsNoDown(g: G.GroupState, now: Time)
    requires !g.closed && Retires(G.Evaluated(g, now).1)
    ensures forall s :: s in g.members ==> g.members[s].state != G.Down
  {
    var p := G.PromoteAll(g.members, now, g.cfg.resolveDebounce);
    G.InStateEmptyIff(p, G.Down);
    ClosedIffRetires(g, now);
    assert G.InState(p, G.Down) == {};
    forall s | s in g.members ensures g.members[s].state != G.Down {
      assert p[s] == G.Promoted(g.members[s], now, g.cfg.resolveDebounce);
    }
  }

  // The shape survives every step.

  lemma ShapedOpened(s: Settings, c: Channel, e: Entry)
    requires Shaped(c) && e.Is(A.EventOpen)
    ensures Shaped(Opened(s, c, e).chan)
  {
    assert c.mode != Grouped ==> e.Slug() in Opened(s, c, e).chan.pending;
  }

  lemma ShapedResolved(c: Channel, e: Entry)
    requires Shaped(c) && e.Is(A.EventResolve)
    ensures Shaped(Resolved(c, e).chan)
  {
  }

  lemma ShapedPaused(c: Channel, slug: string, at: Time)
    requires Shaped(c)
    ensures Shaped(Paused(c, slug, at))
  {
  }

  lemma ShapedExpired(s: Settings, c: Channel, now: Time)
    requires Shaped(c)
    ensures Shaped(Expired(s, c, now).chan)
  {
  }

  lemma EvaluatedStaysKeyed(g: G.GroupState, now: Time)
    requires !g.closed && g.Keyed()
    ensures G.Evaluated(g, now).0.Keyed() && (G.Evaluated(g, now).0.closed <==> Retires(G.Evaluated(g, now).1))
  {
    G.EvaluatedKeeps(g, now);
    ClosedIffRetires(g, now);
  }

  lemma ShapedEvaluated(c: Channel, now: Time)
    requires Shaped(c)
    ensures Shaped(Evaluated(c, now).chan)
  {
    if c.group.Some? {
      EvaluatedStaysKeyed(c.group.value, now);
    }
  }

  // How one step moves the claims.

  ghost predicate ClaimsMove(c: Channel, ev: Event, d: Channel) {
    && Unshared(d)
    && (forall x :: Opens(ev, x) ==> Owned(d, x))
    && (forall x :: Owned(c, x) && !Resolves(ev, x) && !Pauses(ev, x) ==> Owned(d, x))
    && (forall x :: x in d.pending ==> Opens(ev, x) || (x in c.pending && !Resolves(ev, x) && !Pauses(ev, x)))
    && (forall x :: x in d.individual ==> (x in c.individual || x in c.pending) && !Resolves(ev, x))
  }

  lemma ClaimsResolve(c: Channel, e: Entry)
    requires Shaped(c) && Unshared(c) && e.Is(A.EventResolve)
    ensures ClaimsMove(c, Route(e), Resolved(c, e).chan)
  {
  }

  lemma ClaimsRoute(s: Settings, c: Channel, e: Entry)
    requires Shaped(c) && Unshared(c)
    requires e.Is(A.EventOpen) ==> e.Slug() !in c.individual
    ensures ClaimsMove(c, Route(e), Routed(s, c, e).chan)
  {
    if e.Is(A.EventOpen) {
    } else if e.Is(A.EventResolve) {
      ClaimsResolve(c, e);
    }
  }

  lemma ClaimsPause(c: Channel, slug: string, at: Time)
    requires Shaped(c) && Unshared(c)
    ensures ClaimsMove(c, Pause(slug, at), Paused(c, slug, at))
  {
  }

  /** Joining an empty group makes it the pool, every member down; posting it changes no state. */
  lemma PoolPosted(g: G.GroupState, pool: Pool, now: Time)
    requires g.members == map[]
    ensures var h := G.Opened(Joined(g, pool), now).0;
            h.members.Keys == pool.Keys && forall x :: x in pool ==> h.members[x].state == G.Down
  {
    var j := Joined(g, pool);
    assert j.members.Keys == pool.Keys;
    assert forall x :: x in pool ==> j.members[x].state == G.Down;
  }

  /** Promotion: the pool becomes the digest, every member down. */
  lemma PromotionJoins(s: Settings, c: Channel, now: Time)
    requires Shaped(c) && c.mode == Pending && Promotes(s, c, now)
    ensures var d := Expired(s, c, now).chan;
            && d.group.Some? && d.group.value.members.Keys == c.pending.Keys
            && (forall x :: x in c.pending ==> d.group.value.members[x].state == G.Down)
            && d.pending == map[] && d.individual == c.individual
  {
    var g := Ensured(s, c, Earliest(c.pending, now));
    PoolPosted(g, c.pending, now);
    assert Expired(s, c, now).chan.group == Some(G.Opened(Joined(g, c.pending), now).0);
  }

  /**
   The promoted digest is born with the pool's first failure, and each member has been down since it entered the pool.
   */
  lemma PromotionTimes(s: Settings, c: Channel, now: Time)
    requires Shaped(c) && c.mode == Pending && Promotes(s, c, now)
    ensures var d := Expired(s, c, now).chan;
            && d.group.Some? && IsEarliest(d.group.value.openedAt, c.pending, now)
            && forall x :: x in c.pending && x in d.group.value.members ==>
                 d.group.value.members[x].downSince == d.group.value.members[x].joinedAt == c.pending[x].enteredAt
  {
    var g := Ensured(s, c, Earliest(c.pending, now));
    assert g.members == map[] && g.openedAt == Earliest(c.pending, now);
    assert Expired(s, c, now).chan.group == Some(G.Opened(Joined(g, c.pending), now).0);
  }

  /** Every pooled monitor changes hands, to the notifier or to the digest; nobody else moves. */
  lemma PoolChangesHands(c: Channel, now: Time, d: Channel)
    requires Unshared(c) && c.group.None? && d.pending == map[]
    requires || (d.individual == c.individual + c.pending.Keys && d.group.None?)
             || (&& d.individual == c.individual
                 && d.group.Some? && d.group.value.members.Keys == c.pending.Keys
                 && forall x :: x in c.pending ==> d.group.value.members[x].state == G.Down)
    ensures ClaimsMove(c, Expire(now), d)
  {
  }

  lemma ClaimsExpire(s: Settings, c: Channel, now: Time)
    requires Shaped(c) && Unshared(c)
    ensures ClaimsMove(c, Expire(now), Expired(s, c, now).chan)
  {
    if c.mode == Pending {
      if Promotes(s, c, now) {
        PromotionJoins(s, c, now);
      }
      PoolChangesHands(c, now, Expired(s, c, now).chan);
    }
  }

  lemma ClaimsEvaluate(c: Channel, now: Time)
    requires Shaped(c) && Unshared(c)
    ensures ClaimsMove(c, Evaluate(now), Evaluated(c, now).chan)
  {
    if c.group.Some? {
      var g := c.group.value;
      G.EvaluatedStates(g, now);
      if Retires(G.Evaluated(g, now).1) {
        RetirementDropsNoDown(g, now);
      }
    }
  }

  lemma {:induction false} AccountedStep(s: Settings, c: Channel, pre: seq<Event>, ev: Event)
    requires Accounted(c, pre) && Alternates(pre + [ev])
    ensures Accounted(Step(s, c, ev).chan, pre + [ev])
  {
    AlternatesPrefix(pre, ev);
    var d := Step(s, c, ev).chan;
    assert Shaped(d) && ClaimsMove(c, ev, d) by {
      match ev
      case Route(e) =>
        assert e.Is(A.EventOpen) ==> Opens(ev, e.Slug());
        ClaimsRoute(s, c, e);
        if e.Is(A.EventOpen) { ShapedOpened(s, c, e); }
        if e.Is(A.EventResolve) { ShapedResolved(c, e); }
      case Pause(slug, at) =>
        ClaimsPause(c, slug, at);
        ShapedPaused(c, slug, at);
      case Expire(now) =>
        ClaimsExpire(s, c, now);
        ShapedExpired(s, c, now);
      case Evaluate(now) =>
        ClaimsEvaluate(c, now);
        ShapedEvaluated(c, now);
    }
    forall x
      ensures x in d.pending ==> LiveNow(pre + [ev], x)
      ensures x in d.individual ==> OpenNow(pre + [ev], x)
      ensures LiveNow(pre + [ev], x) ==> Owned(d, x)
    {
      OpenStep(pre, ev, x);
      LiveStep(pre, ev, x);
    }
  }

  lemma {:induction false} RunAccounted(s: Settings, c: Channel, evs: seq<Event>)
    requires Initial(c) && Alternates(evs)
    ensures Accounted(After(s, c, evs), evs)
  {
    if evs == [] {
    } else {
      var pre, ev := evs[..|evs| - 1], evs[|evs| - 1];
      assert evs == pre + [ev];
      AlternatesPrefix(pre, ev);
      RunAccounted(s, c, pre);
      AccountedStep(s, After(s, c, pre), pre, ev);
    }
  }

  ghost function Owners(c: Channel, slug: string): nat {
    (if slug in c.pending then 1 else 0) + (if slug in c.individual then 1 else 0) +
    (if c.DownInDigest(slug) then 1 else 0)
  }

  /** Single owner: nobody is ever claimed twice, and an open incident that was not paused is claimed once. */
  lemma SingleOwner(s: Settings, c: Channel, evs: seq<Event>, slug: string)
    requires Initial(c) && Alternates(evs)
    ensures Owners(After(s, c, evs), slug) <= 1
    ensures LiveNow(evs, slug) ==> Owners(After(s, c, evs), slug) == 1
  {
    RunAccounted(s, c, evs);
  }
}
