/**
 The pool and the digest as a ledger of incidents: when a pool falls due, which
 entries it holds, and what the digest says of each monitor, read off the events.
 */
module PoolRuns {
  import opened Base
  import A = Alert
  import G = Digest
  import opened Dispatch
  import opened DispatchRuns
  import opened Conversations

  lemma {:induction false} RunShaped(s: Settings, c: Channel, evs: seq<Event>)
    requires Initial(c)
    ensures Shaped(After(s, c, evs))
  {
    if evs != [] {
      RunShaped(s, c, evs[..|evs| - 1]);
      ShapedStep(s, After(s, c, evs[..|evs| - 1]), evs[|evs| - 1]);
    }
  }

  // ----- when a pool falls due

  /** Step i is the failure that opened the pool: the channel was individual before it and has been pending since. */
  ghost predicate PoolSince(s: Settings, c: Channel, evs: seq<Event>, i: int) {
    && 0 <= i < |evs| && evs[i].Route? && evs[i].e.Is(A.EventOpen) && After(s, c, evs[..i]).mode == Individual
    && forall j :: i < j <= |evs| ==> After(s, c, evs[..j]).mode == Pending
  }

  /** The pool falls due the pending wait after the failure that opened it, however many have joined since. */
  lemma {:induction false} PoolDue(s: Settings, c: Channel, evs: seq<Event>) returns (i: int)
    requires Initial(c) && After(s, c, evs).mode == Pending
    ensures PoolSince(s, c, evs, i) && After(s, c, evs).pendingDue == evs[i].e.event.value.at + s.pendingWait
  {
    var n := |evs| - 1;
    var pre := evs[..n];
    var b := After(s, c, pre);
    RunShaped(s, c, pre);
    assert evs[..|evs|] == evs;
    if b.mode == Pending {
      i := PoolDue(s, c, pre);
      forall j | 0 <= j <= n ensures evs[..j] == pre[..j] {
      }
    } else {
      i := n;
    }
  }

  /** Outside a pool no due time is set. */
  lemma {:induction false} NoPoolNoDue(s: Settings, c: Channel, evs: seq<Event>)
    requires Initial(c)
    ensures var b := After(s, c, evs); b.mode != Pending ==> b.pendingDue == ZERO && b.pending == map[]
  {
    if evs != [] {
      var pre, ev := evs[..|evs| - 1], evs[|evs| - 1];
      NoPoolNoDue(s, c, pre);
      RunShaped(s, c, pre);
      ShapedStep(s, After(s, c, pre), ev);
    }
  }

  /** One evaluator pass empties the pool exactly when the pending wait since its first failure is over. */
  lemma PassExpiresIff(s: Settings, c: Channel, evs: seq<Event>, i: int, now: Time)
    requires Initial(c) && PoolSince(s, c, evs, i)
    ensures var b := After(s, c, evs);
            var due := evs[i].e.event.value.at + s.pendingWait;
            && (Passed(s, b, now).chan.mode != Pending <==> now >= due)
            && (now < due ==> Passed(s, b, now) == Quiet(b))
  {
    assert evs[..|evs|] == evs;
    var k := PoolDue(s, c, evs);
    RunShaped(s, c, evs);
    PassLeavesPending(s, After(s, c, evs), now);
  }

  lemma ExpiryEndsPool(s: Settings, c: Channel, now: Time)
    requires Shaped(c) && c.mode == Pending
    ensures var d := Expired(s, c, now).chan; d.mode != Pending && Shaped(d)
  {
    ShapedExpired(s, c, now);
  }

  lemma PassLeavesPending(s: Settings, c: Channel, now: Time)
    requires Shaped(c) && c.mode == Pending
    ensures Passed(s, c, now).chan.mode != Pending <==> now >= c.pendingDue
    ensures now < c.pendingDue ==> Passed(s, c, now) == Quiet(c)
  {
    if now >= c.pendingDue {
      ExpiryEndsPool(s, c, now);
    } else {
      assert Evaluated(c, now) == Quiet(c);
    }
  }

  // ----- the ledger

  ghost predicate PausedAt(evs: seq<Event>, slug: string, k: int) {
    0 <= k < |evs| && Pauses(evs[k], slug) && forall j :: k < j < |evs| ==> !Opens(evs[j], slug)
  }

  /** The monitor was paused and has not opened an incident since. */
  ghost predicate PausedNow(evs: seq<Event>, slug: string) {
    exists k :: PausedAt(evs, slug, k)
  }

  lemma PausedStep(pre: seq<Event>, ev: Event, slug: string)
    ensures PausedNow(pre + [ev], slug) <==> Pauses(ev, slug) || (PausedNow(pre, slug) && !Opens(ev, slug))
  {
    var n, evs := |pre|, pre + [ev];
    assert evs[n] == ev && forall k {:trigger pre[k]} :: 0 <= k < n ==> evs[k] == pre[k];
    if k :| PausedAt(evs, slug, k) {
      assert k < n ==> PausedAt(pre, slug, k);
    }
    if k :| PausedAt(pre, slug, k) {
      assert !Opens(ev, slug) ==> PausedAt(evs, slug, k);
    }
    if Pauses(ev, slug) {
      assert PausedAt(evs, slug, n);
    }
  }

  lemma LiveSinceStep(pre: seq<Event>, ev: Event, slug: string, i: int)
    requires LiveSince(pre, slug, i) && !Resolves(ev, slug) && !Pauses(ev, slug)
    ensures LiveSince(pre + [ev], slug, i) && (pre + [ev])[i] == pre[i]
  {
  }

  lemma LiveIsNotPaused(evs: seq<Event>, slug: string)
    requires LiveNow(evs, slug)
    ensures !PausedNow(evs, slug)
  {
  }

  /** The pool holds the entry that opened the incident, as it came in. */
  ghost predicate EntryTold(c: Channel, evs: seq<Event>, slug: string) {
    slug in c.pending ==> exists i :: LiveSince(evs, slug, i) && c.pending[slug].entry == evs[i].e
  }

  function MemberOf(c: Channel, slug: string): Option<G.Member> {
    if c.DigestOwns(slug) then Some(c.group.value.members[slug]) else None
  }

  /**
   The digest holds the monitor as down iff its incident is live, since it opened; and as paused iff it was paused
   since.
   */
  ghost predicate MemberTold(m: Option<G.Member>, evs: seq<Event>, slug: string) {
    m.Some? ==>
      && (m.value.state == G.Down <==> LiveNow(evs, slug))
      && (m.value.state == G.Down ==>
            exists i :: LiveSince(evs, slug, i) && m.value.downSince == evs[i].e.event.value.at)
      && (m.value.state == G.Paused <==> PausedNow(evs, slug))
  }

  // How one step moves a pool slot and a member.

  lemma ExpireMember(s: Settings, c: Channel, now: Time, slug: string)
    requires Shaped(c)
    ensures var m, n := MemberOf(c, slug), MemberOf(Expired(s, c, now).chan, slug);
            if IsPromotion(s, c, Expire(now)) then
              n.Some? ==> slug in c.pending && n.value.state == G.Down && n.value.downSince == c.pending[slug].enteredAt
            else n == m
  {
    if IsPromotion(s, c, Expire(now)) {
      PromotionJoins(s, c, now);
      PromotionTimes(s, c, now);
    } else {
      ExpireMoves(s, c, now);
    }
  }

  lemma EvaluateMember(c: Channel, now: Time, slug: string)
    requires Shaped(c)
    ensures var m, n := MemberOf(c, slug), MemberOf(Evaluated(c, now).chan, slug);
            n.Some? ==>
              && m.Some? && n.value.downSince == m.value.downSince
              && (n.value.state == G.Down <==> m.value.state == G.Down)
              && (n.value.state == G.Paused <==> m.value.state == G.Paused)
  {
    if c.group.Some? {
      G.EvaluatedStates(c.group.value, now);
      G.EvaluatedTimes(c.group.value, now);
    }
  }

  // The ledger survives every step.

  lemma EntryToldStep(s: Settings, c: Channel, pre: seq<Event>, ev: Event, slug: string)
    requires Shaped(c) && Unshared(c) && EntryTold(c, pre, slug)
    ensures EntryTold(Step(s, c, ev).chan, pre + [ev], slug)
  {
    if slug in Step(s, c, ev).chan.pending {
      var evs := pre + [ev];
      if Opens(ev, slug) {
        assert LiveSince(evs, slug, |pre|) && evs[|pre|] == ev;
      } else {
        var i :| LiveSince(pre, slug, i) && c.pending[slug].entry == pre[i].e;
        LiveSinceStep(pre, ev, slug, i);
      }
    }
  }

  /** A member nothing happened to. */
  lemma MemberToldStays(m: Option<G.Member>, n: Option<G.Member>, pre: seq<Event>, ev: Event, slug: string)
    requires MemberTold(m, pre, slug) && !Opens(ev, slug) && !Resolves(ev, slug) && !Pauses(ev, slug)
    requires n.Some? ==>
               && m.Some? && n.value.downSince == m.value.downSince
               && (n.value.state == G.Down <==> m.value.state == G.Down)
               && (n.value.state == G.Paused <==> m.value.state == G.Paused)
    ensures MemberTold(n, pre + [ev], slug)
  {
    LiveStep(pre, ev, slug);
    PausedStep(pre, ev, slug);
    if n.Some? && n.value.state == G.Down {
      var i :| LiveSince(pre, slug, i) && m.value.downSince == pre[i].e.event.value.at;
      LiveSinceStep(pre, ev, slug, i);
    }
  }

  lemma MemberToldRoute(s: Settings, c: Channel, pre: seq<Event>, e: Entry, slug: string)
    requires Accounted(c, pre) && Alternates(pre + [Route(e)]) && MemberTold(MemberOf(c, slug), pre, slug)
    ensures MemberTold(MemberOf(Routed(s, c, e).chan, slug), pre + [Route(e)], slug)
  {
    var ev, m, n := Route(e), MemberOf(c, slug), MemberOf(Routed(s, c, e).chan, slug);
    LiveStep(pre, ev, slug);
    PausedStep(pre, ev, slug);
    if Opens(ev, slug) {
      AlternatesPrefix(pre, ev);
      assert (pre + [ev])[|pre|] == ev && LiveSince(pre + [ev], slug, |pre|);
      LiveIsNotPaused(pre + [ev], slug);
    } else if !Resolves(ev, slug) {
      MemberToldStays(m, n, pre, ev, slug);
    }
  }

  lemma MemberToldExpire(s: Settings, c: Channel, pre: seq<Event>, now: Time, slug: string)
    requires Accounted(c, pre) && EntryTold(c, pre, slug) && MemberTold(MemberOf(c, slug), pre, slug)
    ensures MemberTold(MemberOf(Expired(s, c, now).chan, slug), pre + [Expire(now)], slug)
  {
    var ev, m, n := Expire(now), MemberOf(c, slug), MemberOf(Expired(s, c, now).chan, slug);
    ExpireMember(s, c, now, slug);
    if IsPromotion(s, c, ev) {
      if n.Some? {
        var i :| LiveSince(pre, slug, i) && c.pending[slug].entry == pre[i].e;
        LiveSinceStep(pre, ev, slug, i);
        LiveIsNotPaused(pre + [ev], slug);
      }
    } else {
      MemberToldStays(m, n, pre, ev, slug);
    }
  }

  lemma MemberToldStep(s: Settings, c: Channel, pre: seq<Event>, ev: Event, slug: string)
    requires Accounted(c, pre) && Alternates(pre + [ev])
    requires EntryTold(c, pre, slug) && MemberTold(MemberOf(c, slug), pre, slug)
    ensures MemberTold(MemberOf(Step(s, c, ev).chan, slug), pre + [ev], slug)
  {
    var m, n := MemberOf(c, slug), MemberOf(Step(s, c, ev).chan, slug);
    match ev {
      case Route(e) => MemberToldRoute(s, c, pre, e, slug);
      case Pause(x, at) =>
        if x == slug {
          LiveStep(pre, ev, slug);
          PausedStep(pre, ev, slug);
        } else {
          MemberToldStays(m, n, pre, ev, slug);
        }
      case Expire(now) => MemberToldExpire(s, c, pre, now, slug);
      case Evaluate(now) =>
        EvaluateMember(c, now, slug);
        MemberToldStays(m, n, pre, ev, slug);
    }
  }

  /** The pool: each slot holds the very entry that opened the monitor's live incident. */
  lemma {:induction false} PoolIsHistory(s: Settings, c: Channel, evs: seq<Event>, slug: string)
    requires Initial(c) && Alternates(evs)
    ensures EntryTold(After(s, c, evs), evs, slug)
  {
    if evs != [] {
      var pre, ev := evs[..|evs| - 1], evs[|evs| - 1];
      assert evs == pre + [ev];
      AlternatesPrefix(pre, ev);
      PoolIsHistory(s, c, pre, slug);
      RunAccounted(s, c, pre);
      EntryToldStep(s, After(s, c, pre), pre, ev, slug);
    }
  }

  /** What an expiry sends are entries of the run as they came in, each of an incident that is still live. */
  lemma FlushSendsOpens(s: Settings, c: Channel, evs: seq<Event>, now: Time, e: Entry)
    requires Initial(c) && Alternates(evs) && e in Expired(s, After(s, c, evs), now).sends
    ensures exists i :: LiveSince(evs, e.Slug(), i) && e == evs[i].e
  {
    RunAccounted(s, c, evs);
    var b := After(s, c, evs);
    var x :| x in b.pending && b.pending[x].entry == e;
    PoolIsHistory(s, c, evs, x);
  }

  /**
   The digest shows every monitor that joined it in the run as down, since its open, exactly while its incident is live,
   and as paused exactly while it is.
   */
  lemma {:induction false} DigestIsHistory(s: Settings, c: Channel, evs: seq<Event>, slug: string)
    requires Initial(c) && Alternates(evs) && !c.DigestOwns(slug)
    ensures MemberTold(MemberOf(After(s, c, evs), slug), evs, slug)
  {
    if evs != [] {
      var pre, ev := evs[..|evs| - 1], evs[|evs| - 1];
      assert evs == pre + [ev];
      AlternatesPrefix(pre, ev);
      DigestIsHistory(s, c, pre, slug);
      RunAccounted(s, c, pre);
      PoolIsHistory(s, c, pre, slug);
      MemberToldStep(s, After(s, c, pre), pre, ev, slug);
    }
  }
}
