/**
 What the deltas of a digest tell a reader who applies them one after the other
 to the rendering the digest was posted with.
 */
module DeltaRuns {
  import opened Base
  import opened Sorting
  import opened Digest
  import opened DigestRuns

  /** How the digest shows the monitor: as of the last snapshot, or not at all. */
  function Shown(g: GroupState, slug: string): RenderClass {
    if slug in g.members then g.members[slug].rendered else RenderNone
  }

  /** What a reader believes of a monitor after applying a delta. */
  function Believed(was: RenderClass, d: Delta, slug: string): RenderClass {
    if slug in d.paused then RenderPaused
    else if slug in d.newlyDown || slug in d.flapped then RenderActive
    else if slug in d.recovered then RenderRecovered
    else was
  }

  /** What the reader believes after all the actions of a run. */
  function Told(was: RenderClass, s: seq<Stamped>, slug: string): RenderClass {
    if s == [] then was else Believed(Told(was, s[..|s| - 1], slug), s[|s| - 1].action.delta, slug)
  }

  /** Recovered without being shown as down. */
  predicate SilentRecovery(m: Member) {
    m.state == Recovered && (m.rendered == RenderNone || m.rendered == RenderPaused)
  }

  ghost predicate Apart(a: seq<string>, b: seq<string>) {
    forall s :: !(s in a && s in b)
  }

  /** The four buckets of a delta are sorted, free of duplicates and apart. */
  lemma BucketsApart(ms: Members)
    ensures var d := DeltaOf(ms);
            && Ascending(d.newlyDown) && Ascending(d.recovered) && Ascending(d.flapped) && Ascending(d.paused)
            && Apart(d.newlyDown, d.recovered) && Apart(d.newlyDown, d.flapped) && Apart(d.newlyDown, d.paused)
            && Apart(d.recovered, d.flapped) && Apart(d.recovered, d.paused) && Apart(d.flapped, d.paused)
  {
  }

  /**
   One delta: it mentions a member iff its class changed other than by a silent recovery, and then tells the new class.
   */
  lemma DeltaTells(ms: Members, slug: string, was: RenderClass)
    ensures DeltaOf(ms).Mentions(slug) <==>
              slug in ms && ms[slug].rendered != RenderOf(ms[slug].state) && !SilentRecovery(ms[slug])
    ensures Believed(was, DeltaOf(ms), slug) == if DeltaOf(ms).Mentions(slug) then RenderOf(ms[slug].state) else was
  {
  }

  /** Which bucket: by how the member was shown and how it would be shown now. */
  lemma BucketsMean(ms: Members, slug: string)
    ensures var d := DeltaOf(ms);
            if slug !in ms then !d.Mentions(slug)
            else
              var shown, now := ms[slug].rendered, RenderOf(ms[slug].state);
              && (slug in d.newlyDown <==> now == RenderActive && shown in {RenderNone, RenderPaused})
              && (slug in d.flapped <==> now == RenderActive && shown == RenderRecovered)
              && (slug in d.recovered <==> now == RenderRecovered && shown == RenderActive)
              && (slug in d.paused <==> now == RenderPaused && shown != RenderPaused)
  {
  }

  // ----- one step

  function PromotedMembers(g: GroupState, now: Time): Members {
    PromoteAll(g.members, now, g.cfg.resolveDebounce)
  }

  /** The evaluation snapshots what the digest shows: it closes, or the heartbeat is due. */
  predicate Snapshots(g: GroupState, now: Time) {
    && g.posted && !g.closed
    && var p := PromotedMembers(g, now);
       (InState(p, Down) == {} && InState(p, Recovering) == {}) || now >= g.lastFlushAt + g.cfg.groupInterval
  }

  ghost predicate SnapshotStep(g: GroupState, op: Op) {
    op.Evaluate? && Snapshots(g, op.now)
  }

  ghost predicate StepMentions(g: GroupState, op: Op, slug: string) {
    exists a :: a in Step(g, op).1 && a.delta.Mentions(slug)
  }

  /** The step snapshots a silent recovery of the monitor. */
  ghost predicate StepSilences(g: GroupState, op: Op, slug: string) {
    SnapshotStep(g, op) && slug in g.members && SilentRecovery(PromotedMembers(g, op.now)[slug])
  }

  lemma ToldOne(was: RenderClass, x: Stamped, slug: string)
    ensures Told(was, [x], slug) == Believed(was, x.action.delta, slug)
  {
    assert [x][..0] == [];
  }

  /** A step asks for at most two actions, and the second carries no delta. */
  lemma FirstDeltaTells(was: RenderClass, op: Op, actions: seq<Action>, slug: string)
    requires |actions| <= 2 && (|actions| == 2 ==> actions[1].delta == NO_DELTA)
    ensures Told(was, Stamp(op, actions), slug) == if actions == [] then was else Believed(was, actions[0].delta, slug)
  {
    var s := Stamp(op, actions);
    if |s| == 1 {
      assert s == [s[0]];
      ToldOne(was, s[0], slug);
    } else if |s| == 2 {
      assert s == [s[0]] + [s[1]];
      ToldConcat(was, [s[0]], [s[1]], slug);
      ToldOne(was, s[0], slug);
      ToldOne(Told(was, [s[0]], slug), s[1], slug);
    }
  }

  lemma StepShows(g: GroupState, op: Op, slug: string)
    requires g.posted
    ensures Step(g, op).0.posted
    ensures Shown(Step(g, op).0, slug) ==
              if SnapshotStep(g, op) && slug in g.members then RenderOf(PromotedMembers(g, op.now)[slug].state)
              else Shown(g, slug)
  {
  }

  /** A step without a snapshot tells nothing. */
  lemma QuietStepTells(g: GroupState, op: Op, slug: string, was: RenderClass)
    requires g.posted && !SnapshotStep(g, op)
    ensures Told(was, Stamp(op, Step(g, op).1), slug) == was && !StepMentions(g, op, slug)
  {
    var actions := Step(g, op).1;
    FirstDeltaTells(was, op, actions, slug);
    assert actions != [] ==> actions[0] in actions;
  }

  /** A snapshot tells what its delta says. */
  lemma SnapshotTells(g: GroupState, op: Op, slug: string, was: RenderClass)
    requires g.posted && SnapshotStep(g, op)
    ensures var d := DeltaOf(PromotedMembers(g, op.now));
            && Told(was, Stamp(op, Step(g, op).1), slug) == Believed(was, d, slug)
            && (StepMentions(g, op, slug) <==> d.Mentions(slug))
  {
    var actions := Step(g, op).1;
    FirstDeltaTells(was, op, actions, slug);
    assert actions != [] ==> actions[0] in actions;
  }

  /** A step tells the reader the new class of exactly the monitors it mentions. */
  lemma StepTells(g: GroupState, op: Op, slug: string, was: RenderClass)
    requires g.posted
    ensures Told(was, Stamp(op, Step(g, op).1), slug) ==
              if StepMentions(g, op, slug) then Shown(Step(g, op).0, slug) else was
    ensures StepMentions(g, op, slug) <==>
              && SnapshotStep(g, op) && slug in g.members && !StepSilences(g, op, slug)
              && Shown(Step(g, op).0, slug) != Shown(g, slug)
  {
    StepShows(g, op, slug);
    if SnapshotStep(g, op) {
      SnapshotTells(g, op, slug, was);
      DeltaTells(PromotedMembers(g, op.now), slug, was);
    } else {
      QuietStepTells(g, op, slug, was);
    }
  }

  // ----- runs

  /** Step k of the run snapshot a silent recovery of the monitor, and no later action mentions it. */
  ghost predicate SilencedAt(g: GroupState, ops: seq<Op>, slug: string, k: int) {
    && 0 <= k < |ops| && StepSilences(After(g, ops[..k]), ops[k], slug)
    && forall j :: k < j < |ops| ==> !StepMentions(After(g, ops[..j]), ops[j], slug)
  }

  ghost predicate Silenced(g: GroupState, ops: seq<Op>, slug: string) {
    exists k :: SilencedAt(g, ops, slug, k)
  }

  lemma SilencedStep(g: GroupState, pre: seq<Op>, op: Op, slug: string)
    ensures Silenced(g, pre + [op], slug) <==>
              || StepSilences(After(g, pre), op, slug)
              || (Silenced(g, pre, slug) && !StepMentions(After(g, pre), op, slug))
  {
    var n, ops := |pre|, pre + [op];
    assert ops[..n] == pre && ops[n] == op;
    forall k | 0 <= k < n ensures ops[..k] == pre[..k] && ops[k] == pre[k] {
    }
    if k :| SilencedAt(g, ops, slug, k) {
      if k < n {
        assert SilencedAt(g, pre, slug, k) && !StepMentions(After(g, ops[..n]), ops[n], slug);
      }
    }
    if k :| SilencedAt(g, pre, slug, k) {
      if !StepMentions(After(g, pre), op, slug) {
        assert SilencedAt(g, ops, slug, k);
      }
    }
    if StepSilences(After(g, pre), op, slug) {
      assert SilencedAt(g, ops, slug, n);
    }
  }

  /** Belief and digest agree, or the digest shows a recovery the reader was never told of. */
  ghost predicate ReaderKnows(told: RenderClass, shown: RenderClass, silenced: bool) {
    if silenced then shown == RenderRecovered && told in {RenderNone, RenderPaused} else told == shown
  }

  lemma ReaderStep(g: GroupState, op: Op, slug: string, told: RenderClass, silenced: bool)
    requires g.posted && ReaderKnows(told, Shown(g, slug), silenced)
    ensures var now := StepSilences(g, op, slug) || (silenced && !StepMentions(g, op, slug));
            ReaderKnows(Told(told, Stamp(op, Step(g, op).1), slug), Shown(Step(g, op).0, slug), now)
  {
    StepTells(g, op, slug, told);
    StepShows(g, op, slug);
  }

  lemma {:induction false} ToldConcat(was: RenderClass, a: seq<Stamped>, b: seq<Stamped>, slug: string)
    ensures Told(was, a + b, slug) == Told(Told(was, a, slug), b, slug)
  {
    if b == [] {
      assert a + b == a;
    } else {
      assert (a + b)[..|a + b| - 1] == a + b[..|b| - 1];
      ToldConcat(was, a, b[..|b| - 1], slug);
    }
  }

  lemma {:induction false} RunKnows(g: GroupState, ops: seq<Op>, slug: string)
    requires g.posted
    ensures After(g, ops).posted
    ensures ReaderKnows(Told(Shown(g, slug), Emitted(g, ops), slug), Shown(After(g, ops), slug), Silenced(g, ops, slug))
  {
    if ops != [] {
      var n := |ops| - 1;
      var pre, op := ops[..n], ops[n];
      var b := After(g, pre);
      assert ops == pre + [op];
      RunKnows(g, pre, slug);
      var told := Told(Shown(g, slug), Emitted(g, pre), slug);
      ReaderStep(b, op, slug, told, Silenced(g, pre, slug));
      SilencedStep(g, pre, op, slug);
      StepShows(b, op, slug);
      ToldConcat(Shown(g, slug), Emitted(g, pre), Stamp(op, Step(b, op).1), slug);
    }
  }

  /**
   Delta replay: applying the deltas of all actions since the post to the rendering the digest was posted with gives
   what the digest shows, for exactly the monitors whose latest change was not a silent recovery.
   */
  lemma DeltasReplay(g: GroupState, ops: seq<Op>, slug: string)
    requires g.posted
    ensures Told(Shown(g, slug), Emitted(g, ops), slug) == Shown(After(g, ops), slug) <==> !Silenced(g, ops, slug)
    ensures Silenced(g, ops, slug) ==> Shown(After(g, ops), slug) == RenderRecovered
  {
    RunKnows(g, ops, slug);
  }

  lemma RunSnoc(g: GroupState, pre: seq<Op>, op: Op)
    ensures After(g, pre + [op]) == Step(After(g, pre), op).0
    ensures Emitted(g, pre + [op]) == Emitted(g, pre) + Stamp(op, Step(After(g, pre), op).1)
  {
    assert (pre + [op])[..|pre|] == pre;
  }

  const BRISK := Config(1, 100, 1000, 1)
  const JOIN_AND_POST: seq<Op> := [] + [MarkDown("a", 1)] + [Open(1)]

  /** A digest posted with a down. */
  lemma PostedWithA() returns (h: GroupState)
    ensures h == After(New("ops", 0, BRISK), JOIN_AND_POST)
    ensures h.posted && !h.closed && h.lastFlushAt == 1 && h.cfg == BRISK
    ensures h.members.Keys == {"a"} && h.members["a"].state == Down
    ensures forall x :: x in Emitted(New("ops", 0, BRISK), JOIN_AND_POST) ==> x.action.delta == NO_DELTA
  {
    var g := New("ops", 0, BRISK);
    RunSnoc(g, [], MarkDown("a", 1));
    RunSnoc(g, [] + [MarkDown("a", 1)], Open(1));
    var h1 := MarkedDown(g, "a", 1);
    assert After(g, [] + [MarkDown("a", 1)]) == h1 && Emitted(g, [] + [MarkDown("a", 1)]) == [];
    assert h1.members.Keys == {"a"} && h1.members["a"].state == Down && !h1.posted && !h1.closed;
    h := Post(h1, 1);
    assert Step(h1, Open(1)) == (h, [Action(PostDigest, NO_DELTA)]);
  }

  /** With b down and up again before the evaluation at 4, and the heartbeat at 101. */
  const FLICKER: seq<Op> := JOIN_AND_POST + [MarkDown("b", 2)] + [MarkUp("b", 3)] + [Evaluate(4)] + [Evaluate(101)]

  /**
   A silent recovery does happen: with a debounce shorter than the heartbeat, b joins and recovers between flushes.
   */
  lemma SilentRecoveryHappens()
    ensures var g := New("ops", 0, BRISK);
            && Shown(After(g, FLICKER), "b") == RenderRecovered
            && forall x :: x in Emitted(g, FLICKER) ==> !x.action.delta.Mentions("b")
  {
    var g := New("ops", 0, BRISK);
    var h2 := PostedWithA();
    var o3 := JOIN_AND_POST + [MarkDown("b", 2)];
    var o4 := o3 + [MarkUp("b", 3)];
    var o5 := o4 + [Evaluate(4)];
    RunSnoc(g, JOIN_AND_POST, MarkDown("b", 2));
    RunSnoc(g, o3, MarkUp("b", 3));
    RunSnoc(g, o4, Evaluate(4));
    RunSnoc(g, o5, Evaluate(101));
    var h4 := After(g, o4);
    var b := h4.members["b"];
    assert b.state == Recovering && b.upSince == 3 && b.rendered == RenderNone && h4.members["a"].state == Down;
    NotDueYet(h4);
    HeartbeatSilences(After(g, o5));
  }

  /** The debounce is over and the heartbeat is not due: b recovers, nothing is told and nothing is shown. */
  lemma NotDueYet(h: GroupState)
    requires h.posted && !h.closed && h.lastFlushAt == 1 && h.cfg == BRISK && "a" in h.members && "b" in h.members
    requires h.members["a"].state == Down && h.members["b"].rendered == RenderNone
    requires h.members["b"].state == Recovering && h.members["b"].upSince == 3
    ensures var k := Step(h, Evaluate(4)).0;
            && k.posted && !k.closed && k.lastFlushAt == 1 && k.cfg == BRISK
            && "a" in k.members && "b" in k.members && k.members["a"].state == Down
            && k.members["b"].state == Recovered && k.members["b"].rendered == RenderNone
    ensures forall x :: x in Stamp(Evaluate(4), Step(h, Evaluate(4)).1) ==> !x.action.delta.Mentions("b")
  {
    var p := PromotedMembers(h, 4);
    assert "a" in InState(p, Down);
  }

  lemma HeartbeatSilences(k: GroupState)
    requires k.posted && !k.closed && k.lastFlushAt == 1 && k.cfg == BRISK && "a" in k.members && "b" in k.members
    requires k.members["a"].state == Down && k.members["b"].state == Recovered && k.members["b"].rendered == RenderNone
    ensures Shown(Step(k, Evaluate(101)).0, "b") == RenderRecovered
    ensures forall x :: x in Stamp(Evaluate(101), Step(k, Evaluate(101)).1) ==> !x.action.delta.Mentions("b")
  {
    var op := Evaluate(101);
    StepTells(k, op, "b", RenderNone);
    StepShows(k, op, "b");
    assert forall x :: x in Stamp(op, Step(k, op).1) ==> x.action in Step(k, op).1;
  }
}
