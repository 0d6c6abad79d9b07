/**
 What a crash loses: the store holds the digest as of its last save, and the
 failures, recoveries and pauses routed since then are in memory only.
 */
module CrashRuns {
  import opened Base
  import A = Alert
  import G = Digest
  import H = DispatchHistory
  import opened Dispatch
  import opened DispatchRuns
  import opened Conversations

  /** The steps that save the digest: an evaluation of a live one, and a promotion. */
  predicate Saves(s: Settings, c: Channel, ev: Event) {
    (ev.Evaluate? && c.group.Some?) || IsPromotion(s, c, ev)
  }

  /** The open digest the store holds after a run. */
  ghost function LastSaved(s: Settings, c: Channel, evs: seq<Event>): Option<G.GroupState> {
    if evs == [] then c.group else
    var pre, ev := evs[..|evs| - 1], evs[|evs| - 1];
    if Saves(s, After(s, c, pre), ev) then After(s, c, evs).group else LastSaved(s, c, pre)
  }

  /** The channel a restart reattaches to. */
  function Reborn(saved: Option<G.GroupState>): Channel {
    if saved.None? then FRESH else FRESH.(mode := Grouped, group := saved)
  }

  /** A saved digest that comes back as it was: filed by slug, under the current intervals. */
  predicate Restorable(s: Settings, saved: Option<G.GroupState>) {
    saved.Some? ==> saved.value.Keyed() && saved.value.cfg == s.group.WithDefaults()
  }

  /** Whatever the run, the store's digest can be restored. */
  lemma {:induction false} LastSavedRestorable(s: Settings, c: Channel, evs: seq<Event>)
    requires Begins(s, c)
    ensures Restorable(s, LastSaved(s, c, evs))
  {
    RunConverses(s, c, evs);
    if evs != [] {
      LastSavedRestorable(s, c, evs[..|evs| - 1]);
    }
  }

  /** The event changes a member of the live digest. */
  predicate Alters(c: Channel, ev: Event) {
    && c.group.Some?
    && match ev
       case Route(e) =>
         || (e.Is(A.EventOpen) && !c.DownInDigest(e.Slug()))
         || (e.Is(A.EventResolve) && e.Slug() !in c.individual && c.DownInDigest(e.Slug()))
       case Pause(slug, _) => c.DigestOwns(slug) && c.group.value.members[slug].state != G.Paused
       case Expire(_) | Evaluate(_) => false
  }

  function SlugOf(ev: Event): string {
    match ev
    case Route(e) => e.Slug()
    case Pause(slug, _) => slug
    case Expire(_) | Evaluate(_) => ""
  }

  /** Step k changed a member, and no later step saved the digest. */
  ghost predicate UnsavedAt(s: Settings, c: Channel, evs: seq<Event>, k: int) {
    && 0 <= k < |evs| && Alters(After(s, c, evs[..k]), evs[k])
    && forall j :: k < j < |evs| ==> !Saves(s, After(s, c, evs[..j]), evs[j])
  }

  ghost predicate Unsaved(s: Settings, c: Channel, evs: seq<Event>) {
    exists k :: UnsavedAt(s, c, evs, k)
  }

  /** Every change of a member of the group was stamped before the given time. */
  ghost predicate Before(g: G.GroupState, at: Time) {
    forall x :: x in g.members ==> g.members[x].changedAt < at
  }

  /** The clock has moved on between the last save and each change since. */
  ghost predicate ClockMoves(s: Settings, c: Channel, evs: seq<Event>) {
    forall k :: UnsavedAt(s, c, evs, k) && LastSaved(s, c, evs).Some? ==>
      Before(LastSaved(s, c, evs).value, TimeOf(evs[k]))
  }

  lemma UnsavedStep(s: Settings, c: Channel, pre: seq<Event>, ev: Event, k: int)
    ensures var b := After(s, c, pre);
            UnsavedAt(s, c, pre + [ev], k) <==>
              (k == |pre| && Alters(b, ev)) || (UnsavedAt(s, c, pre, k) && !Saves(s, b, ev))
  {
    var n, evs := |pre|, pre + [ev];
    assert evs[..n] == pre && evs[n] == ev;
    forall j | 0 <= j < n ensures evs[..j] == pre[..j] && evs[j] == pre[j] {
    }
    if UnsavedAt(s, c, evs, k) && k < n {
      assert !Saves(s, After(s, c, evs[..n]), evs[n]);
    }
  }

  // ----- one step

  /** A step that does not save leaves the digest alone, or stamps one member with its time. */
  ghost predicate Stamped(c: Channel, ev: Event, d: Channel) {
    if !Alters(c, ev) then d.group == c.group
    else
      && d.group.Some? && SlugOf(ev) in d.group.value.members
      && d.group.value.members[SlugOf(ev)].changedAt == TimeOf(ev)
      && c.group.value.members.Keys <= d.group.value.members.Keys
      && forall x :: x in c.group.value.members && x != SlugOf(ev) ==>
           d.group.value.members[x] == c.group.value.members[x]
  }

  lemma RouteStamps(s: Settings, c: Channel, e: Entry)
    requires Shaped(c)
    ensures Stamped(c, Route(e), Routed(s, c, e).chan)
  {
    if c.group.Some? && e.Is(A.EventOpen) && c.DownInDigest(e.Slug()) {
      var ms := c.group.value.members;
      assert ms[e.Slug() := ms[e.Slug()]] == ms;
    }
  }

  lemma StepStamps(s: Settings, c: Channel, ev: Event)
    requires Shaped(c) && !Saves(s, c, ev)
    ensures Stamped(c, ev, Step(s, c, ev).chan)
  {
    match ev {
      case Route(e) => RouteStamps(s, c, e);
      case Pause(slug, at) =>
      case Expire(now) => ExpireMoves(s, c, now);
      case Evaluate(now) =>
    }
  }

  // ----- runs

  /** Some member of the live digest is new or was changed after everything the saved one holds. */
  ghost predicate Ahead(saved: G.GroupState, live: G.GroupState) {
    exists x :: x in live.members && (x !in saved.members || Before(saved, live.members[x].changedAt))
  }

  /** What the store's digest says about the live one. */
  ghost predicate Behind(saved: Option<G.GroupState>, live: Option<G.GroupState>, unsaved: bool) {
    && (saved.Some? <==> live.Some?)
    && (if unsaved then saved.Some? && Ahead(saved.value, live.value) else saved == live)
  }

  lemma BehindDiffers(saved: Option<G.GroupState>, live: Option<G.GroupState>, unsaved: bool)
    requires Behind(saved, live, unsaved)
    ensures saved == live <==> !unsaved
  {
    if unsaved {
      var g, h := saved.value, live.value;
      var x :| x in h.members && (x !in g.members || Before(g, h.members[x].changedAt));
    }
  }

  lemma BehindStep(saved: Option<G.GroupState>, c: Channel, ev: Event, d: Channel, unsaved: bool)
    requires Behind(saved, c.group, unsaved) && Stamped(c, ev, d)
    requires Alters(c, ev) ==> Before(saved.value, TimeOf(ev))
    ensures Behind(saved, d.group, unsaved || Alters(c, ev))
  {
    if Alters(c, ev) {
      assert SlugOf(ev) in d.group.value.members;
    }
  }

  /** Without a save in between, the clock has moved on since the same saved digest. */
  lemma ClockMovesPrefix(s: Settings, c: Channel, pre: seq<Event>, ev: Event)
    requires ClockMoves(s, c, pre + [ev]) && !Saves(s, After(s, c, pre), ev)
    ensures LastSaved(s, c, pre + [ev]) == LastSaved(s, c, pre) && ClockMoves(s, c, pre)
    ensures Alters(After(s, c, pre), ev) && LastSaved(s, c, pre).Some? ==>
              Before(LastSaved(s, c, pre).value, TimeOf(ev))
  {
    var evs := pre + [ev];
    assert evs[..|pre|] == pre && evs[|pre|] == ev;
    forall k | UnsavedAt(s, c, pre, k) ensures UnsavedAt(s, c, evs, k) && evs[k] == pre[k] {
      UnsavedStep(s, c, pre, ev, k);
    }
    UnsavedStep(s, c, pre, ev, |pre|);
  }

  lemma {:induction false} RunBehind(s: Settings, c: Channel, evs: seq<Event>)
    requires Begins(s, c) && ClockMoves(s, c, evs)
    ensures Behind(LastSaved(s, c, evs), After(s, c, evs).group, Unsaved(s, c, evs))
  {
    if evs != [] {
      var n := |evs| - 1;
      var pre, ev := evs[..n], evs[n];
      var b := After(s, c, pre);
      assert evs == pre + [ev];
      UnsavedGrows(s, c, pre, ev);
      if !Saves(s, b, ev) {
        ClockMovesPrefix(s, c, pre, ev);
        RunBehind(s, c, pre);
        RunConverses(s, c, pre);
        StepStamps(s, b, ev);
        BehindStep(LastSaved(s, c, pre), b, ev, After(s, c, evs), Unsaved(s, c, pre));
      }
    }
  }

  lemma UnsavedGrows(s: Settings, c: Channel, pre: seq<Event>, ev: Event)
    ensures var b := After(s, c, pre);
            Unsaved(s, c, pre + [ev]) <==> Alters(b, ev) || (Unsaved(s, c, pre) && !Saves(s, b, ev))
  {
    forall k ensures UnsavedAt(s, c, pre + [ev], k) <==>
                       || (k == |pre| && Alters(After(s, c, pre), ev))
                       || (UnsavedAt(s, c, pre, k) && !Saves(s, After(s, c, pre), ev))
    {
      UnsavedStep(s, c, pre, ev, k);
    }
    if Alters(After(s, c, pre), ev) {
      assert UnsavedAt(s, c, pre + [ev], |pre|);
    }
    if k :| UnsavedAt(s, c, pre, k) {
      if !Saves(s, After(s, c, pre), ev) {
        assert UnsavedAt(s, c, pre + [ev], k);
      }
    }
  }

  /**
   A restart finds the digest as of its last save. On a clock that moves on it is the live one exactly when no event
   since that save changed a member.
   */
  lemma CrashKeepsDigestIff(s: Settings, c: Channel, evs: seq<Event>)
    requires Begins(s, c) && ClockMoves(s, c, evs)
    ensures Reborn(LastSaved(s, c, evs)).group == After(s, c, evs).group <==> !Unsaved(s, c, evs)
  {
    RunBehind(s, c, evs);
    BehindDiffers(LastSaved(s, c, evs), After(s, c, evs).group, Unsaved(s, c, evs));
  }

  // ----- what it looks like

  lemma RunSnoc(s: Settings, c: Channel, pre: seq<Event>, ev: Event)
    ensures After(s, c, pre + [ev]) == Step(s, After(s, c, pre), ev).chan
    ensures LastSaved(s, c, pre + [ev]) ==
              if Saves(s, After(s, c, pre), ev) then After(s, c, pre + [ev]).group else LastSaved(s, c, pre)
  {
    assert (pre + [ev])[..|pre|] == pre;
  }

  /** Settings under which one failure is a burst. */
  const SOLO := Settings("ops", 30, 1, 300, G.Config(1, 100, 1000, 1))
  const PROMOTE_A: seq<Event> := [] + [Route(H.PlainEntry("a", A.EventOpen, 1))] + [Expire(31)]

  /** A channel promoted and saved with a down in its digest. */
  lemma PromotedWithA() returns (b: Channel)
    ensures b == After(SOLO, FRESH, PROMOTE_A) && HoldsA(b) && LastSaved(SOLO, FRESH, PROMOTE_A) == b.group
  {
    var open := Route(H.PlainEntry("a", A.EventOpen, 1));
    RunSnoc(SOLO, FRESH, [], open);
    RunSnoc(SOLO, FRESH, [] + [open], Expire(31));
    var p := After(SOLO, FRESH, [] + [open]);
    assert p.mode == Pending && p.pending.Keys == {"a"} && p.pending["a"].enteredAt == 1 && p.group.None?;
    assert Burst(p, 31, 300) == {"a"} && IsPromotion(SOLO, p, Expire(31));
    b := After(SOLO, FRESH, PROMOTE_A);
    assert b.group.value.members.Keys == {"a"};
  }

  ghost predicate HoldsA(b: Channel) {
    && b.mode == Grouped && b.individual == {} && b.group.Some?
    && b.group.value.members == map["a" := G.Member("a", G.Down, 1, 1, ZERO, 1, G.RenderActive)]
  }

  const FAIL_B := H.PlainEntry("b", A.EventOpen, 40)
  const HEAL_B := H.PlainEntry("b", A.EventResolve, 50)
  const HEAL_A := H.PlainEntry("a", A.EventResolve, 1)
  const FAIL_A := H.PlainEntry("a", A.EventOpen, 1)

  lemma AbsorbsB(b: Channel)
    requires HoldsA(b)
    ensures var live := Routed(SOLO, b, FAIL_B).chan; live.DownInDigest("b") && Routed(SOLO, live, HEAL_B).sends == {}
    ensures var reborn := Reborn(b.group); !reborn.DigestOwns("b") && Routed(SOLO, reborn, HEAL_B).sends == {HEAL_B}
  {
    assert "b" != "a";
  }

  /**
   A failure absorbed since the last save is lost with a crash: the restarted channel does not know b, and sends its
   recovery to the sink that never announced it.
   */
  lemma AbsorbedFailureLost()
    ensures var evs := PROMOTE_A + [Route(FAIL_B)];
            var live, reborn := After(SOLO, FRESH, evs), Reborn(LastSaved(SOLO, FRESH, evs));
            && live.DownInDigest("b") && Step(SOLO, live, Route(HEAL_B)).sends == {}
            && !reborn.DigestOwns("b") && Step(SOLO, reborn, Route(HEAL_B)).sends == {HEAL_B}
  {
    var b := PromotedWithA();
    RunSnoc(SOLO, FRESH, PROMOTE_A, Route(FAIL_B));
    AbsorbsB(b);
  }

  /** A recovery and a failure stamped with the instant of the first failure undo each other. */
  lemma FlickerUndone(b: Channel)
    requires HoldsA(b)
    ensures var u := Routed(SOLO, b, HEAL_A).chan;
            Alters(u, Route(FAIL_A)) && Routed(SOLO, u, FAIL_A).chan.group == b.group
  {
    var u := Routed(SOLO, b, HEAL_A).chan;
    assert u.group.value.members["a"].state == G.Recovering && u.mode == Grouped;
    var d := Routed(SOLO, u, FAIL_A).chan;
    assert d.group.value.members == b.group.value.members;
  }

  /** Why the clock must move on: changes since the last save that leave no trace. */
  lemma SameInstantUndone()
    ensures var evs := PROMOTE_A + [Route(HEAL_A)] + [Route(FAIL_A)];
            Unsaved(SOLO, FRESH, evs) && LastSaved(SOLO, FRESH, evs) == After(SOLO, FRESH, evs).group
  {
    var b := PromotedWithA();
    RunSnoc(SOLO, FRESH, PROMOTE_A, Route(HEAL_A));
    RunSnoc(SOLO, FRESH, PROMOTE_A + [Route(HEAL_A)], Route(FAIL_A));
    UnsavedGrows(SOLO, FRESH, PROMOTE_A + [Route(HEAL_A)], Route(FAIL_A));
    FlickerUndone(b);
  }
}
