/**
 The dispatcher's in-memory claims and counts, stated as functions of the whole
 run: which incidents were paged individually, which failures still count as
 one burst, and how many pages a run can send.
 */
module DispatchHistory {
  import opened Base
  import A = Alert
  import G = Digest
  import opened Dispatch
  import opened DispatchRuns

  // ----- pages

  function OpensIn(sends: set<Entry>): set<Entry> {
    set e | e in sends && e.Is(A.EventOpen)
  }

  ghost predicate PagesFor(sends: set<Entry>, slug: string) {
    exists e :: e in sends && e.Is(A.EventOpen) && e.Slug() == slug
  }

  /** Step i announced the monitor's current incident through the sink. */
  ghost predicate PagedAt(s: Settings, c: Channel, evs: seq<Event>, slug: string, i: int) {
    0 <= i < |evs| && PagesFor(SendsAt(s, c, evs, i), slug) && forall k :: i < k < |evs| ==> !Resolves(evs[k], slug)
  }

  ghost predicate PagedNow(s: Settings, c: Channel, evs: seq<Event>, slug: string) {
    exists i :: PagedAt(s, c, evs, slug, i)
  }

  lemma SendsPrefix(s: Settings, c: Channel, pre: seq<Event>, ev: Event, i: int)
    requires 0 <= i <= |pre|
    ensures i < |pre| ==> SendsAt(s, c, pre + [ev], i) == SendsAt(s, c, pre, i)
    ensures i == |pre| ==> SendsAt(s, c, pre + [ev], i) == Step(s, After(s, c, pre), ev).sends
  {
    assert (pre + [ev])[..i] == pre[..i];
    assert i == |pre| ==> pre[..i] == pre;
  }

  lemma PagedNowStep(s: Settings, c: Channel, pre: seq<Event>, ev: Event, slug: string)
    ensures PagedNow(s, c, pre + [ev], slug) <==>
              PagesFor(Step(s, After(s, c, pre), ev).sends, slug) || (!Resolves(ev, slug) && PagedNow(s, c, pre, slug))
  {
    var n, evs := |pre|, pre + [ev];
    assert evs[n] == ev && forall k {:trigger pre[k]} :: 0 <= k < n ==> evs[k] == pre[k];
    if PagedNow(s, c, evs, slug) {
      var i :| PagedAt(s, c, evs, slug, i);
      SendsPrefix(s, c, pre, ev, i);
      assert i < n ==> PagedAt(s, c, pre, slug, i);
    }
    if PagedNow(s, c, pre, slug) {
      var i :| PagedAt(s, c, pre, slug, i);
      SendsPrefix(s, c, pre, ev, i);
      assert !Resolves(ev, slug) ==> PagedAt(s, c, evs, slug, i);
    }
    SendsPrefix(s, c, pre, ev, n);
    if PagesFor(Step(s, After(s, c, pre), ev).sends, slug) {
      assert PagedAt(s, c, evs, slug, n);
    }
  }

  /** Only a flush announces incidents, and it announces exactly its pool. */
  lemma WhoPages(s: Settings, c: Channel, ev: Event, slug: string)
    requires Shaped(c)
    ensures PagesFor(Step(s, c, ev).sends, slug) <==>
              ev.Expire? && c.mode == Pending && !Promotes(s, c, ev.now) && slug in c.pending
    ensures slug in Step(s, c, ev).chan.individual <==>
              PagesFor(Step(s, c, ev).sends, slug) || (!Resolves(ev, slug) && slug in c.individual)
  {
  }

  /** The notifier's claims are exactly the open incidents it announced. */
  lemma {:induction false} IndividualIsPaged(s: Settings, c: Channel, evs: seq<Event>, slug: string)
    requires Initial(c) && Alternates(evs)
    ensures slug in After(s, c, evs).individual <==> PagedNow(s, c, evs, slug)
  {
    if evs != [] {
      var pre, ev := evs[..|evs| - 1], evs[|evs| - 1];
      assert evs == pre + [ev];
      AlternatesPrefix(pre, ev);
      RunAccounted(s, c, pre);
      IndividualIsPaged(s, c, pre, slug);
      WhoPages(s, After(s, c, pre), ev, slug);
      PagedNowStep(s, c, pre, ev, slug);
    }
  }

  /**
   Same surface: whatever mode the channel has reached since, the recovery and the reminders of an announced incident
   go to the sink. Those of an unpaused incident go there only then: a pooled one is retracted without a message, and
   one the digest absorbed leaves through it.
   */
  lemma FollowUpsKeepSurface(s: Settings, c: Channel, evs: seq<Event>, r: Entry)
    requires Initial(c) && Alternates(evs)
    requires r.Is(A.EventResolve) || r.Is(A.EventReminder)
    ensures PagedNow(s, c, evs, r.Slug()) ==> Step(s, After(s, c, evs), Route(r)).sends == {r}
    ensures LiveNow(evs, r.Slug()) && !PagedNow(s, c, evs, r.Slug()) ==>
              var b := After(s, c, evs);
              var out := Step(s, b, Route(r));
              && out.sends == {}
              && (r.Is(A.EventResolve) ==>
                    || (r.Slug() in b.pending && out.chan.pending == b.pending - {r.Slug()})
                    || (&& b.DownInDigest(r.Slug()) && out.chan.DigestOwns(r.Slug())
                        && out.chan.group.value.members[r.Slug()].state == G.Recovering
                        && out.chan.group.value.members[r.Slug()].upSince == r.event.value.at))
  {
    RunAccounted(s, c, evs);
    IndividualIsPaged(s, c, evs, r.Slug());
    var b := After(s, c, evs);
    assert b.pending == map[] ==> b.mode != Pending;
  }

  /**
   A follow-up of an incident that was not announced, because it was pooled, absorbed or paused, or because it opened
   before a restart, goes to the sink exactly while no pool is pending and the digest does not carry the monitor.
   */
  lemma UnannouncedFollowUps(s: Settings, c: Channel, evs: seq<Event>, r: Entry)
    requires Initial(c) && Alternates(evs) && !PagedNow(s, c, evs, r.Slug())
    requires r.Is(A.EventResolve) || r.Is(A.EventReminder)
    ensures var b := After(s, c, evs);
            Step(s, b, Route(r)).sends ==
              if b.mode == Individual || (b.mode == Grouped && !b.DigestOwns(r.Slug())) then {r} else {}
  {
    RunAccounted(s, c, evs);
    IndividualIsPaged(s, c, evs, r.Slug());
  }

  function PlainEntry(slug: string, kind: A.EventKind, at: Time): Entry {
    var row := A.MonitorRow(slug, [], A.Down, None, None);
    Entry(MemberInfo(slug, slug, [], ""), row, Some(A.Event(kind, at, 0, "", 0)), [])
  }

  /**
   It does lose one: y opens a pool on a fresh channel, and the recovery of x, announced before the restart, is dropped.
   */
  lemma EarlierRecoveryDropped(s: Settings)
    ensures var evs, r := [Route(PlainEntry("y", A.EventOpen, 1))], PlainEntry("x", A.EventResolve, 2);
            && Initial(FRESH) && Alternates(evs) && !OpenNow(evs, "x")
            && Step(s, After(s, FRESH, evs), Route(r)).sends == {}
  {
    var evs, r := [Route(PlainEntry("y", A.EventOpen, 1))], PlainEntry("x", A.EventResolve, 2);
    assert evs[..0] == [] && "x" != "y";
    assert forall i :: 0 <= i < |evs| ==> !Opens(evs[i], "x");
    assert After(s, FRESH, evs) == Step(s, FRESH, evs[0]).chan;
  }

  /** A recovery nobody was told to expect is sent: x fails, is paused out of the pool unannounced, and recovers. */
  lemma UnannouncedRecoverySent(s: Settings)
    ensures var evs := [Route(PlainEntry("x", A.EventOpen, 1))] + [Pause("x", 2)];
            var r := PlainEntry("x", A.EventResolve, 3);
            && Alternates(evs) && OpenNow(evs, "x") && !PagedNow(s, FRESH, evs, "x")
            && Step(s, After(s, FRESH, evs), Route(r)).sends == {r}
  {
    var one := [Route(PlainEntry("x", A.EventOpen, 1))];
    var evs := one + [Pause("x", 2)];
    assert one[..0] == [] && evs[..1] == one && evs[..0] == [];
    assert OpenedAt(evs, "x", 0);
    var b := Step(s, FRESH, one[0]).chan;
    assert After(s, FRESH, one) == b && b.pending.Keys == {"x"};
    assert b.pending - {"x"} == map[];
    assert After(s, FRESH, evs) == Step(s, b, Pause("x", 2)).chan;
    IndividualIsPaged(s, FRESH, evs, "x");
  }

  // ----- the burst count

  /** A retirement at step k forgot the monitor, which the notifier had not announced. */
  ghost predicate WipedAt(s: Settings, c: Channel, evs: seq<Event>, slug: string, k: int)
    requires 0 <= k < |evs|
  {
    && evs[k].Evaluate? && After(s, c, evs[..k]).group.Some? && Step(s, After(s, c, evs[..k]), evs[k]).chan.group.None?
    && !PagedNow(s, c, evs[..k], slug)
  }

  /** Nothing after step i renewed, ended, paused or wiped the monitor's failure. */
  ghost predicate KeptSince(s: Settings, c: Channel, evs: seq<Event>, slug: string, i: int)
    requires 0 <= i
  {
    forall k :: i < k < |evs| ==>
      !Opens(evs[k], slug) && !Resolves(evs[k], slug) && !Pauses(evs[k], slug) && !WipedAt(s, c, evs, slug, k)
  }

  /**
   Step i is the monitor's last failure, it is younger than the burst window at now, and nothing took it out of the
   count.
   */
  ghost predicate CountedAt(s: Settings, c: Channel, evs: seq<Event>, now: Time, slug: string, i: int) {
    && 0 <= i < |evs| && Opens(evs[i], slug) && now - evs[i].e.event.value.at < s.burstWindow
    && KeptSince(s, c, evs, slug, i)
  }

  ghost predicate CountedNow(s: Settings, c: Channel, evs: seq<Event>, now: Time, slug: string) {
    exists i :: CountedAt(s, c, evs, now, slug, i)
  }

  /** The evaluator has not read a later time than now. */
  ghost predicate ClockBelow(evs: seq<Event>, now: Time) {
    forall k :: 0 <= k < |evs| && (evs[k].Expire? || evs[k].Evaluate?) ==> evs[k].now <= now
  }

  /** The event takes the monitor's earlier failure out of the count. */
  ghost predicate Forgets(s: Settings, c: Channel, pre: seq<Event>, ev: Event, slug: string) {
    || Opens(ev, slug) || Resolves(ev, slug) || Pauses(ev, slug)
    || (&& ev.Evaluate? && After(s, c, pre).group.Some? && Step(s, After(s, c, pre), ev).chan.group.None?
        && !PagedNow(s, c, pre, slug))
  }

  lemma KeptPrefix(s: Settings, c: Channel, pre: seq<Event>, ev: Event, slug: string, i: int)
    requires 0 <= i < |pre|
    ensures KeptSince(s, c, pre + [ev], slug, i) <==> KeptSince(s, c, pre, slug, i) && !Forgets(s, c, pre, ev, slug)
  {
    var n, evs := |pre|, pre + [ev];
    assert evs[n] == ev && evs[..n] == pre;
    forall k | 0 <= k < n
      ensures evs[k] == pre[k] && (WipedAt(s, c, evs, slug, k) <==> WipedAt(s, c, pre, slug, k))
    {
      assert evs[..k] == pre[..k];
    }
    assert WipedAt(s, c, evs, slug, n) || Opens(ev, slug) || Resolves(ev, slug) || Pauses(ev, slug) <==>
             Forgets(s, c, pre, ev, slug);
    if KeptSince(s, c, evs, slug, i) {
      assert !WipedAt(s, c, evs, slug, n) && !Opens(evs[n], slug);
    }
  }

  lemma CountedNowStep(s: Settings, c: Channel, pre: seq<Event>, ev: Event, now: Time, slug: string)
    ensures CountedNow(s, c, pre + [ev], now, slug) <==>
              if Opens(ev, slug) then now - ev.e.event.value.at < s.burstWindow
              else !Forgets(s, c, pre, ev, slug) && CountedNow(s, c, pre, now, slug)
  {
    var n, evs := |pre|, pre + [ev];
    assert evs[n] == ev && forall k {:trigger pre[k]} :: 0 <= k < n ==> evs[k] == pre[k];
    if CountedNow(s, c, evs, now, slug) {
      var i :| CountedAt(s, c, evs, now, slug, i);
      if i < n {
        KeptPrefix(s, c, pre, ev, slug, i);
        assert CountedAt(s, c, pre, now, slug, i);
      }
    }
    if CountedNow(s, c, pre, now, slug) && !Forgets(s, c, pre, ev, slug) {
      var i :| CountedAt(s, c, pre, now, slug, i);
      KeptPrefix(s, c, pre, ev, slug, i);
      assert CountedAt(s, c, evs, now, slug, i);
    }
    if Opens(ev, slug) && now - ev.e.event.value.at < s.burstWindow {
      assert CountedAt(s, c, evs, now, slug, n);
    }
  }

  /**
   The count after a step: an open stamps it, a resolve or a pause clears it, an expiry prunes it, a retirement thins
   it.
   */
  ghost predicate CountMoves(s: Settings, c: Channel, ev: Event, d: Channel) {
    d.down == match ev
      case Route(e) =>
        if e.Is(A.EventOpen) then c.down[e.Slug() := e.event.value.at]
        else if e.Is(A.EventResolve) then c.down - {e.Slug()}
        else c.down
      case Pause(x, _) => c.down - {x}
      case Expire(t) => if c.mode == Pending then Fresh(c.down, t, s.burstWindow) else c.down
      case Evaluate(_) => if c.group.Some? && d.group.None? then Retired(c).down else c.down
  }

  lemma CountMovesExpire(s: Settings, c: Channel, now: Time)
    requires Shaped(c)
    ensures CountMoves(s, c, Expire(now), Expired(s, c, now).chan)
  {
  }

  lemma CountMovesStep(s: Settings, c: Channel, ev: Event)
    requires Shaped(c)
    ensures CountMoves(s, c, ev, Step(s, c, ev).chan)
  {
    if ev.Expire? {
      CountMovesExpire(s, c, ev.now);
    }
  }

  /** How such a move shows in the young part of the count. */
  lemma YoungMoves(s: Settings, c: Channel, ev: Event, d: Channel, now: Time, slug: string)
    requires CountMoves(s, c, ev, d) && (ev.Expire? ==> ev.now <= now)
    ensures Young(d.down, slug, now, s.burstWindow) <==>
              if Opens(ev, slug) then now - ev.e.event.value.at < s.burstWindow
              else && Young(c.down, slug, now, s.burstWindow) && !Resolves(ev, slug) && !Pauses(ev, slug)
                   && !(ev.Evaluate? && c.group.Some? && d.group.None? && slug !in c.individual)
  {
  }

  /** The pruned count at an expiry is exactly what the history says, for every monitor. */
  lemma {:induction false} BurstIsHistory(s: Settings, c: Channel, evs: seq<Event>, now: Time, slug: string)
    requires Initial(c) && Alternates(evs) && ClockBelow(evs, now)
    ensures Young(After(s, c, evs).down, slug, now, s.burstWindow) <==> CountedNow(s, c, evs, now, slug)
  {
    if evs != [] {
      var n := |evs| - 1;
      var pre, ev := evs[..n], evs[n];
      assert evs == pre + [ev];
      AlternatesPrefix(pre, ev);
      BurstIsHistory(s, c, pre, now, slug);
      RunAccounted(s, c, pre);
      IndividualIsPaged(s, c, pre, slug);
      CountMovesStep(s, After(s, c, pre), ev);
      YoungMoves(s, After(s, c, pre), ev, After(s, c, evs), now, slug);
      CountedNowStep(s, c, pre, ev, now, slug);
    }
  }

  /** The monitors whose failures count toward the burst at now. */
  ghost function RecentlyDown(s: Settings, c: Channel, evs: seq<Event>, now: Time): set<string> {
    set i | 0 <= i < |evs| && evs[i].Route? && CountedAt(s, c, evs, now, evs[i].e.Slug(), i) :: evs[i].e.Slug()
  }

  lemma PrunedIsHistory(s: Settings, c: Channel, evs: seq<Event>, now: Time)
    requires Initial(c) && Alternates(evs) && ClockBelow(evs, now)
    ensures Fresh(After(s, c, evs).down, now, s.burstWindow).Keys == RecentlyDown(s, c, evs, now)
  {
    var down := After(s, c, evs).down;
    forall slug ensures slug in Fresh(down, now, s.burstWindow) <==> slug in RecentlyDown(s, c, evs, now) {
      BurstIsHistory(s, c, evs, now, slug);
      if CountedNow(s, c, evs, now, slug) {
        var i :| CountedAt(s, c, evs, now, slug, i);
        assert evs[i].e.Slug() == slug;
      }
    }
  }

  /**
   A pool that expires becomes a digest exactly when the history's burst, with the pool, reaches a positive threshold.
   */
  lemma PromotesIffBurst(s: Settings, c: Channel, evs: seq<Event>, now: Time)
    requires Initial(c) && Alternates(evs) && ClockBelow(evs, now)
    requires After(s, c, evs).mode == Pending
    ensures var b := After(s, c, evs);
            var burst := RecentlyDown(s, c, evs, now) + b.pending.Keys;
            Step(s, b, Expire(now)).chan.mode == Grouped <==> s.burstThreshold > 0 && |burst| >= s.burstThreshold
  {
    RunAccounted(s, c, evs);
    PrunedIsHistory(s, c, evs, now);
    GroupedIffPromotes(s, After(s, c, evs), now);
  }

  lemma GroupedIffPromotes(s: Settings, c: Channel, now: Time)
    requires Shaped(c) && c.mode == Pending
    ensures Expired(s, c, now).chan.mode == Grouped <==> Promotes(s, c, now)
  {
  }

  // ----- the page cap

  /** The failures that were paged individually and still count toward the burst. */
  function PagedAndCounted(c: Channel): set<string> {
    c.individual * c.down.Keys
  }

  ghost predicate Flushes(s: Settings, c: Channel, ev: Event) {
    ev.Expire? && c.mode == Pending && !Promotes(s, c, ev.now)
  }

  /** The notifier's claims after a step: a flush adds its pool, a resolve releases, nothing else moves them. */
  ghost predicate ClaimedMoves(s: Settings, c: Channel, ev: Event, d: Channel) {
    d.individual ==
      if Flushes(s, c, ev) then c.individual + c.pending.Keys
      else if ev.Route? && ev.e.Is(A.EventResolve) then c.individual - {ev.e.Slug()}
      else c.individual
  }

  lemma ClaimedMovesRoute(s: Settings, c: Channel, e: Entry)
    ensures ClaimedMoves(s, c, Route(e), Routed(s, c, e).chan)
  {
  }

  lemma ClaimedMovesExpire(s: Settings, c: Channel, now: Time)
    ensures ClaimedMoves(s, c, Expire(now), Expired(s, c, now).chan)
  {
    assert c.pending == map[] ==> c.individual + c.pending.Keys == c.individual;
  }

  lemma ClaimedMovesStep(s: Settings, c: Channel, ev: Event)
    ensures ClaimedMoves(s, c, ev, Step(s, c, ev).chan)
  {
    match ev {
      case Route(e) => ClaimedMovesRoute(s, c, e);
      case Pause(_, _) =>
      case Expire(now) => ClaimedMovesExpire(s, c, now);
      case Evaluate(_) =>
    }
  }

  lemma CapMoves(s: Settings, c: Channel, ev: Event, d: Channel)
    requires CountMoves(s, c, ev, d) && ClaimedMoves(s, c, ev, d)
    requires s.burstThreshold > 0 && |PagedAndCounted(c)| < s.burstThreshold
    requires forall x :: Opens(ev, x) ==> x !in c.individual
    ensures |PagedAndCounted(d)| < s.burstThreshold
  {
    if Flushes(s, c, ev) {
      SubsetSize(PagedAndCounted(d), Burst(c, ev.now, s.burstWindow));
    } else {
      assert ev.Route? && ev.e.Is(A.EventOpen) ==> Opens(ev, ev.e.Slug());
      SubsetSize(PagedAndCounted(d), PagedAndCounted(c));
    }
  }

  /** Page cap: with a positive threshold N, no reachable state has N monitors both paged individually and counted. */
  lemma {:induction false} PageCap(s: Settings, c: Channel, evs: seq<Event>)
    requires Initial(c) && Alternates(evs) && s.burstThreshold > 0
    ensures |PagedAndCounted(After(s, c, evs))| < s.burstThreshold
  {
    if evs == [] {
      assert PagedAndCounted(c) == {};
    } else {
      var pre, ev := evs[..|evs| - 1], evs[|evs| - 1];
      assert evs == pre + [ev];
      AlternatesPrefix(pre, ev);
      PageCap(s, c, pre);
      RunAccounted(s, c, pre);
      CountMovesStep(s, After(s, c, pre), ev);
      ClaimedMovesStep(s, After(s, c, pre), ev);
      CapMoves(s, After(s, c, pre), ev, After(s, c, evs));
    }
  }

  /** How many individual pages a run sends. */
  ghost function PageCount(s: Settings, c: Channel, evs: seq<Event>): nat {
    if evs == [] then 0 else
    var pre := evs[..|evs| - 1];
    PageCount(s, c, pre) + |OpensIn(Step(s, After(s, c, pre), evs[|evs| - 1]).sends)|
  }

  /** One outage: nothing recovers or pauses, and every failure is younger than the burst window at each expiry. */
  ghost predicate OneOutage(s: Settings, evs: seq<Event>) {
    && (forall k :: 0 <= k < |evs| ==> !evs[k].Pause? && !(evs[k].Route? && evs[k].e.Is(A.EventResolve)))
    && (forall i, k :: 0 <= i < k < |evs| && evs[i].Route? && evs[i].e.Is(A.EventOpen) && evs[k].Expire? ==>
          evs[k].now - evs[i].e.event.value.at < s.burstWindow)
  }

  /** In such a run nothing leaves the count before it is paged or absorbed. */
  ghost predicate AllCounted(s: Settings, c: Channel, evs: seq<Event>) {
    && c.individual <= c.down.Keys && c.pending.Keys <= c.down.Keys
    && (forall x :: x in c.down ==>
          exists i :: 0 <= i < |evs| && Opens(evs[i], x) && evs[i].e.event.value.at == c.down[x])
  }

  lemma PoolEntries(pool: Pool)
    requires PoolKeyed(pool)
    ensures OpensIn(Entries(pool)) == Entries(pool) && |Entries(pool)| == |pool|
  {
    EntriesDistinct(pool);
  }

  /** Only a flush sends pages, and it sends its pool. */
  lemma PagesSent(s: Settings, c: Channel, ev: Event)
    requires PoolKeyed(c.pending)
    ensures OpensIn(Step(s, c, ev).sends) == if Flushes(s, c, ev) then Entries(c.pending) else {}
  {
    PoolEntries(c.pending);
    if ev.Expire? {
      ExpiredSends(s, c, ev.now);
    }
  }

  lemma ExpiredSends(s: Settings, c: Channel, now: Time)
    ensures Expired(s, c, now).sends == if Flushes(s, c, Expire(now)) then Entries(c.pending) else {}
  {
    assert c.pending == map[] ==> Entries(c.pending) == {};
  }

  lemma OutageSends(s: Settings, c: Channel, ev: Event)
    requires Shaped(c) && Unshared(c)
    requires !(ev.Route? && ev.e.Is(A.EventResolve))
    ensures var o := Step(s, c, ev); |o.chan.individual| == |c.individual| + |OpensIn(o.sends)|
  {
    PagesSent(s, c, ev);
    ClaimedMovesStep(s, c, ev);
    PoolEntries(c.pending);
    assert c.individual !! c.pending.Keys;
    assert |c.individual + c.pending.Keys| == |c.individual| + |c.pending.Keys|;
  }

  /** In an outage a step adds its own failure to the count and removes nothing paged or pooled. */
  lemma OutageCounts(s: Settings, c: Channel, ev: Event)
    requires Shaped(c) && c.individual <= c.down.Keys && c.pending.Keys <= c.down.Keys
    requires !ev.Pause? && !(ev.Route? && ev.e.Is(A.EventResolve))
    requires ev.Expire? ==> forall x :: x in c.down ==> ev.now - c.down[x] < s.burstWindow
    ensures var d := Step(s, c, ev).chan;
            && d.individual <= d.down.Keys && d.pending.Keys <= d.down.Keys
            && forall x :: x in d.down ==>
                 if Opens(ev, x) then d.down[x] == ev.e.event.value.at else x in c.down && d.down[x] == c.down[x]
  {
    if ev.Expire? {
      assert Fresh(c.down, ev.now, s.burstWindow) == c.down;
    }
  }

  lemma AllCountedStep(s: Settings, c: Channel, pre: seq<Event>, ev: Event)
    requires Shaped(c) && AllCounted(s, c, pre) && OneOutage(s, pre + [ev])
    ensures AllCounted(s, Step(s, c, ev).chan, pre + [ev])
  {
    var n, evs := |pre|, pre + [ev];
    assert evs[n] == ev && forall k {:trigger pre[k]} :: 0 <= k < n ==> evs[k] == pre[k];
    forall x | x in c.down
      ensures ev.Expire? ==> ev.now - c.down[x] < s.burstWindow
      ensures exists i :: 0 <= i < |evs| && Opens(evs[i], x) && evs[i].e.event.value.at == c.down[x]
    {
      var i :| 0 <= i < |pre| && Opens(pre[i], x) && pre[i].e.event.value.at == c.down[x];
      assert evs[i] == pre[i];
    }
    OutageCounts(s, c, ev);
    assert forall x :: Opens(ev, x) ==> Opens(evs[n], x);
  }

  lemma {:induction false} RunAllCounted(s: Settings, c: Channel, evs: seq<Event>)
    requires Initial(c) && Alternates(evs) && OneOutage(s, evs)
    ensures AllCounted(s, After(s, c, evs), evs)
    ensures PageCount(s, c, evs) == |After(s, c, evs).individual|
  {
    if evs != [] {
      var n := |evs| - 1;
      var pre, ev := evs[..n], evs[n];
      assert evs == pre + [ev];
      AlternatesPrefix(pre, ev);
      RunAllCounted(s, c, pre);
      RunAccounted(s, c, pre);
      AllCountedStep(s, After(s, c, pre), pre, ev);
      OutageSends(s, After(s, c, pre), ev);
    }
  }

  /** One outage, however its failures trickle in, sends fewer individual pages than the threshold. */
  lemma OutagePagesUnderThreshold(s: Settings, c: Channel, evs: seq<Event>)
    requires Initial(c) && Alternates(evs) && OneOutage(s, evs) && s.burstThreshold > 0
    ensures PageCount(s, c, evs) < s.burstThreshold
  {
    RunAllCounted(s, c, evs);
    PageCap(s, c, evs);
    var b := After(s, c, evs);
    assert PagedAndCounted(b) == b.individual;
  }
}
