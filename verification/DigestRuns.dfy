/**
 What holds over every run of a group: the language of its actions and their
 spacing, the debounce, and the invisibility of flaps.
 */
module DigestRuns {
  import opened Base
  import opened Digest

  // ----- the language of actions

  /** Discard, or PostDigest (Update | Remind)* Close, or a prefix of one of them. */
  ghost predicate InLanguage(s: seq<Stamped>) {
    || s == []
    || (|s| == 1 && s[0].action.kind == Discard)
    || (&& s[0].action.kind == PostDigest
        && (forall i :: 1 <= i < |s| ==> s[i].action.kind in {Update, Remind, Close})
        && (forall i :: 1 <= i < |s| - 1 ==> s[i].action.kind != Close))
  }

  /** Actions of one kind keep the given gap to each other and to the first post. */
  ghost predicate Spaced(s: seq<Stamped>, kind: Kind, gap: int) {
    forall i, j :: 0 <= i < j < |s| && s[i].action.kind in {PostDigest, kind} && s[j].action.kind == kind ==>
      s[i].at + gap <= s[j].at
  }

  ghost predicate StampsBelow(s: seq<Stamped>, kind: Kind, limit: Time) {
    forall i :: 0 <= i < |s| && s[i].action.kind in {PostDigest, kind} ==> s[i].at <= limit
  }

  /** What the flags and timers of a group say about the actions it has asked for. */
  ghost predicate Explains(g: GroupState, s: seq<Stamped>) {
    && (!g.posted && !g.closed ==> s == [])
    && (!g.posted && g.closed ==> |s| == 1 && s[0].action.kind == Discard)
    && (g.posted ==>
          && s != [] && s[0].action.kind == PostDigest
          && StampsBelow(s, Update, g.lastFlushAt) && StampsBelow(s, Remind, g.lastReminderAt)
          && (forall i :: 1 <= i < |s| ==> s[i].action.kind in {Update, Remind, Close})
          && (forall i :: 1 <= i < |s| && (s[i].action.kind == Close) ==> g.closed && i == |s| - 1))
    && Spaced(s, Update, g.cfg.groupInterval)
    && Spaced(s, Remind, g.cfg.repeatInterval)
  }

  lemma FlushExplains(g: GroupState, s: seq<Stamped>, now: Time)
    requires Explains(g, s) && g.posted && !g.closed && g.cfg.Positive()
    ensures Explains(Flushed(g, now).0, s + Stamp(Evaluate(now), Flushed(g, now).1))
    ensures Flushed(g, now).0.posted && !Flushed(g, now).0.closed && Flushed(g, now).0.cfg == g.cfg
  {
    var t := Stamp(Evaluate(now), Flushed(g, now).1);
    if now >= g.lastFlushAt + g.cfg.groupInterval {
      if t == [] {
      } else {
        assert t == [t[0]];
      }
    }
    assert t == [] ==> s + t == s;
  }

  lemma RemindExplains(g: GroupState, s: seq<Stamped>, now: Time)
    requires Explains(g, s) && g.posted && !g.closed && g.cfg.Positive()
    ensures Explains(Reminded(g, now).0, s + Stamp(Evaluate(now), Reminded(g, now).1))
  {
    var t := Stamp(Evaluate(now), Reminded(g, now).1);
    assert t == [] ==> s + t == s;
  }

  lemma StampConcat(op: Op, a: seq<Action>, b: seq<Action>)
    ensures Stamp(op, a + b) == Stamp(op, a) + Stamp(op, b)
  {
  }

  lemma FlushRemindExplains(g: GroupState, s: seq<Stamped>, now: Time)
    requires Explains(g, s) && g.cfg.Positive() && g.posted && !g.closed
    ensures var f := Flushed(g, now);
            var r := Reminded(f.0, now);
            Explains(r.0, s + Stamp(Evaluate(now), f.1 + r.1))
  {
    var op := Evaluate(now);
    var f := Flushed(g, now);
    var r := Reminded(f.0, now);
    FlushExplains(g, s, now);
    RemindExplains(f.0, s + Stamp(op, f.1), now);
    StampConcat(op, f.1, r.1);
    assert s + Stamp(op, f.1) + Stamp(op, r.1) == s + (Stamp(op, f.1) + Stamp(op, r.1));
  }

  /** Evaluation of an open, posted group. */
  lemma PostedExplains(g: GroupState, s: seq<Stamped>, now: Time)
    requires Explains(g, s) && g.cfg.Positive() && g.posted && !g.closed
    ensures Explains(Evaluated(g, now).0, s + Stamp(Evaluate(now), Evaluated(g, now).1))
  {
    var p := g.(members := PromoteAll(g.members, now, g.cfg.resolveDebounce));
    if InState(p.members, Down) == {} && InState(p.members, Recovering) == {} {
      var x := Stamped(now, Action(Close, DeltaOf(p.members)));
      assert Stamp(Evaluate(now), Evaluated(g, now).1) == [x];
    } else {
      FlushRemindExplains(p, s, now);
    }
  }

  /** A step that asks for nothing and moves no flag or timer. */
  lemma QuietExplains(g: GroupState, h: GroupState, s: seq<Stamped>)
    requires Explains(g, s)
    requires h == g.(members := h.members)
    ensures Explains(h, s + [])
  {
  }

  /** The first action of a group that has asked for nothing yet. */
  lemma FirstExplains(g: GroupState, x: Stamped, ms: Members)
    requires Explains(g, []) && !g.posted && !g.closed
    ensures x.action.kind == Discard ==> Explains(g.(closed := true, members := ms), [x])
    ensures x.action.kind == PostDigest ==>
              Explains(g.(posted := true, lastFlushAt := x.at, lastReminderAt := x.at, members := ms), [x])
  {
  }

  lemma {:induction false} StepExplains(g: GroupState, s: seq<Stamped>, op: Op)
    requires Explains(g, s) && g.cfg.Positive()
    ensures Explains(Step(g, op).0, s + Stamp(op, Step(g, op).1))
  {
    var (h, actions) := Step(g, op);
    if op.Evaluate? && !g.closed && g.posted {
      PostedExplains(g, s, op.now);
    } else if actions == [] {
      QuietExplains(g, h, s);
      assert Stamp(op, actions) == [];
    } else {
      var x := Stamped(op.now, actions[0]);
      FirstExplains(g, x, h.members);
      assert s + Stamp(op, actions) == [x];
    }
  }

  lemma {:induction false} RunExplains(g: GroupState, ops: seq<Op>)
    requires Explains(g, []) && g.Keyed() && g.cfg.Positive()
    ensures Explains(After(g, ops), Emitted(g, ops))
  {
    if ops != [] {
      var n := |ops| - 1;
      RunExplains(g, ops[..n]);
      AfterKeepsKeyed(g, ops[..n]);
      StepExplains(After(g, ops[..n]), Emitted(g, ops[..n]), ops[n]);
    }
  }

  /** The actions of a fresh group form a digest conversation, whatever is done to it and whenever. */
  lemma {:induction false} RunLanguage(channel: string, at: Time, cfg: Config, ops: seq<Op>)
    ensures InLanguage(Emitted(New(channel, at, cfg), ops))
    ensures Spaced(Emitted(New(channel, at, cfg), ops), Update, cfg.WithDefaults().groupInterval)
    ensures Spaced(Emitted(New(channel, at, cfg), ops), Remind, cfg.WithDefaults().repeatInterval)
  {
    RunExplains(New(channel, at, cfg), ops);
    AfterKeepsKeyed(New(channel, at, cfg), ops);
  }

  // ----- the debounce

  predicate Touches(op: Op, slug: string) {
    (op.MarkDown? || op.MarkUp? || op.MarkPaused?) && op.slug == slug
  }

  predicate IsUp(op: Op, slug: string) {
    op.MarkUp? && op.slug == slug
  }

  predicate IsDown(op: Op, slug: string) {
    op.MarkDown? && op.slug == slug
  }

  /** From op i on, nothing takes the monitor down or out again. */
  ghost predicate UnbrokenSince(ops: seq<Op>, slug: string, i: int)
    requires 0 <= i
  {
    forall k :: i < k < |ops| && Touches(ops[k], slug) ==> ops[k].MarkUp?
  }

  /** Op i is the recovery that ends a down stretch of the monitor. */
  ghost predicate StretchStart(ops: seq<Op>, slug: string, i: int) {
    && 0 <= i < |ops| && IsUp(ops[i], slug)
    && exists k :: 0 <= k < i && IsDown(ops[k], slug) && forall l :: k < l < i ==> !Touches(ops[l], slug)
  }

  /** The monitor has been up without a break since op i. */
  ghost predicate UpStretch(ops: seq<Op>, slug: string, i: int) {
    StretchStart(ops, slug, i) && UnbrokenSince(ops, slug, i)
  }

  /** Evaluation j found the open group's stretch from op i long enough. */
  ghost predicate Confirms(g: GroupState, ops: seq<Op>, i: int, j: int)
    requires 0 <= i < |ops| && ops[i].MarkUp?
  {
    && i < j < |ops| && ops[j].Evaluate?
    && !After(g, ops[..j]).closed
    && ops[j].now >= ops[i].at + g.cfg.resolveDebounce
  }

  /** The last op on the monitor left it down. */
  ghost predicate LeftDown(ops: seq<Op>, slug: string) {
    exists k :: 0 <= k < |ops| && IsDown(ops[k], slug) && forall l :: k < l < |ops| ==> !Touches(ops[l], slug)
  }

  ghost function StateOf(g: GroupState, slug: string): Option<MemberState> {
    if slug in g.members then Some(g.members[slug].state) else None
  }

  ghost predicate UpNow(ops: seq<Op>, slug: string) {
    exists i :: UpStretch(ops, slug, i)
  }

  ghost predicate Confirmed(g: GroupState, ops: seq<Op>, slug: string) {
    exists i, j :: UpStretch(ops, slug, i) && Confirms(g, ops, i, j)
  }

  // How each notion moves when one more op is appended.

  lemma LeftDownStep(ops: seq<Op>, slug: string)
    requires ops != []
    ensures var op := ops[|ops| - 1];
            LeftDown(ops, slug) <==> IsDown(op, slug) || (!Touches(op, slug) && LeftDown(ops[..|ops| - 1], slug))
  {
  }

  lemma UpStretchOld(ops: seq<Op>, slug: string, i: int)
    requires ops != [] && 0 <= i < |ops| - 1
    ensures var op := ops[|ops| - 1];
            UpStretch(ops, slug, i) <==> UpStretch(ops[..|ops| - 1], slug, i) && (Touches(op, slug) ==> op.MarkUp?)
  {
  }

  lemma UpStretchNew(ops: seq<Op>, slug: string)
    requires ops != []
    ensures UpStretch(ops, slug, |ops| - 1) <==> IsUp(ops[|ops| - 1], slug) && LeftDown(ops[..|ops| - 1], slug)
  {
  }

  lemma ConfirmsStep(g: GroupState, ops: seq<Op>, i: int, j: int)
    requires ops != [] && 0 <= i < |ops| - 1 && ops[i].MarkUp?
    ensures j < |ops| - 1 ==> (Confirms(g, ops, i, j) <==> Confirms(g, ops[..|ops| - 1], i, j))
  {
    if 0 <= j < |ops| - 1 { assert ops[..|ops| - 1][..j] == ops[..j]; }
  }

  /** One member's state and up-stamp, read off the state before a step. */
  lemma MemberStep(g: GroupState, op: Op, slug: string)
    ensures var h := Step(g, op).0;
            StateOf(h, slug) ==
            if IsDown(op, slug) then Some(Down)
            else if slug !in g.members then None
            else if IsUp(op, slug) then
              if g.members[slug].state == Down then Some(Recovering) else StateOf(g, slug)
            else if Touches(op, slug) then Some(Paused)
            else if op.Evaluate? && !g.closed && g.members[slug].state == Recovering
                 && op.now >= g.members[slug].upSince + g.cfg.resolveDebounce then Some(Recovered)
            else StateOf(g, slug)
    ensures var h := Step(g, op).0;
            slug in h.members && h.members[slug].state in {Recovering, Recovered} ==>
              && slug in g.members
              && h.members[slug].upSince == if g.members[slug].state == Down then op.at else g.members[slug].upSince
  {
  }

  /** What a run says about one monitor's membership, in terms of the ops alone. */
  ghost predicate Described(g: GroupState, ops: seq<Op>, slug: string) {
    var h := After(g, ops);
    && (StateOf(h, slug) == Some(Down) <==> LeftDown(ops, slug))
    && (StateOf(h, slug) in {Some(Recovering), Some(Recovered)} <==> UpNow(ops, slug))
    && (StateOf(h, slug) == Some(Recovered) <==> Confirmed(g, ops, slug))
    && (forall i :: UpStretch(ops, slug, i) ==> slug in h.members && h.members[slug].upSince == ops[i].at)
  }

  lemma UpNowStep(ops: seq<Op>, slug: string)
    requires ops != []
    ensures var op, pre := ops[|ops| - 1], ops[..|ops| - 1];
            UpNow(ops, slug) <==>
              || (IsUp(op, slug) && LeftDown(pre, slug))
              || (UpNow(pre, slug) && (Touches(op, slug) ==> op.MarkUp?))
  {
    var n := |ops| - 1;
    UpStretchNew(ops, slug);
    if UpNow(ops, slug) {
      var i :| UpStretch(ops, slug, i);
      if i < n { UpStretchOld(ops, slug, i); }
    }
    if UpNow(ops[..n], slug) {
      var i :| UpStretch(ops[..n], slug, i);
      UpStretchOld(ops, slug, i);
    }
  }

  /** The latest evaluation confirms a stretch that was already running. */
  ghost predicate NowConfirms(g: GroupState, ops: seq<Op>, slug: string)
    requires ops != []
  {
    var n := |ops| - 1;
    exists i :: UpStretch(ops[..n], slug, i) && Confirms(g, ops, i, n)
  }

  lemma ConfirmedStep(g: GroupState, ops: seq<Op>, slug: string)
    requires ops != []
    ensures var op, pre := ops[|ops| - 1], ops[..|ops| - 1];
            Confirmed(g, ops, slug) <==>
              NowConfirms(g, ops, slug) || (Confirmed(g, pre, slug) && (Touches(op, slug) ==> op.MarkUp?))
  {
    var n := |ops| - 1;
    if i, j :| UpStretch(ops, slug, i) && Confirms(g, ops, i, j) {
      ConfirmedComesFrom(g, ops, slug, i, j);
    }
    if i :| UpStretch(ops[..n], slug, i) && Confirms(g, ops, i, n) {
      UpStretchOld(ops, slug, i);
    }
    if Confirmed(g, ops[..n], slug) && (Touches(ops[n], slug) ==> ops[n].MarkUp?) {
      ConfirmedStays(g, ops, slug);
    }
  }

  lemma ConfirmedComesFrom(g: GroupState, ops: seq<Op>, slug: string, i: int, j: int)
    requires ops != [] && UpStretch(ops, slug, i) && Confirms(g, ops, i, j)
    ensures var op, pre := ops[|ops| - 1], ops[..|ops| - 1];
            NowConfirms(g, ops, slug) || (Confirmed(g, pre, slug) && (Touches(op, slug) ==> op.MarkUp?))
  {
    UpStretchOld(ops, slug, i);
    ConfirmsStep(g, ops, i, j);
  }

  lemma ConfirmedStays(g: GroupState, ops: seq<Op>, slug: string)
    requires ops != [] && Confirmed(g, ops[..|ops| - 1], slug)
    requires Touches(ops[|ops| - 1], slug) ==> ops[|ops| - 1].MarkUp?
    ensures Confirmed(g, ops, slug)
  {
    var pre := ops[..|ops| - 1];
    var i, j :| UpStretch(pre, slug, i) && Confirms(g, pre, i, j);
    UpStretchOld(ops, slug, i);
    ConfirmsStep(g, ops, i, j);
    assert Confirms(g, ops, i, j);
  }

  lemma UpStampStep(g: GroupState, ops: seq<Op>, slug: string, i: int)
    requires ops != [] && Described(g, ops[..|ops| - 1], slug) && UpStretch(ops, slug, i)
    ensures var h := After(g, ops); slug in h.members && h.members[slug].upSince == ops[i].at
  {
    var n := |ops| - 1;
    var b := After(g, ops[..n]);
    MemberStep(b, ops[n], slug);
    UpStretchNew(ops, slug);
    if i < n {
      UpStretchOld(ops, slug, i);
      assert UpNow(ops[..n], slug) && StateOf(b, slug) in {Some(Recovering), Some(Recovered)};
    } else {
      assert StateOf(b, slug) == Some(Down);
    }
  }

  lemma {:induction false} RunDescribed(g: GroupState, ops: seq<Op>, slug: string)
    requires g.Keyed() && g.members == map[]
    ensures Described(g, ops, slug)
  {
    if ops != [] {
      var n := |ops| - 1;
      var pre, op := ops[..n], ops[n];
      RunDescribed(g, pre, slug);
      AfterKeepsKeyed(g, pre);
      MemberStep(After(g, pre), op, slug);
      LeftDownStep(ops, slug);
      UpNowStep(ops, slug);
      ConfirmedStep(g, ops, slug);
      forall i | UpStretch(ops, slug, i)
        ensures slug in After(g, ops).members && After(g, ops).members[slug].upSince == ops[i].at
      {
        UpStampStep(g, ops, slug, i);
      }
    }
  }

  /**
   A member counts as recovered exactly when it has been up without a break since a
   recovery, and some evaluation of the open group came at least the debounce after it.
   */
  lemma RecoveredIffConfirmed(channel: string, at: Time, cfg: Config, ops: seq<Op>, slug: string)
    ensures StateOf(After(New(channel, at, cfg), ops), slug) == Some(Recovered)
            <==> Confirmed(New(channel, at, cfg), ops, slug)
  {
    RunDescribed(New(channel, at, cfg), ops, slug);
  }

  ghost predicate Closes(g: GroupState, now: Time) {
    exists a :: a in Evaluated(g, now).1 && a.kind == Close
  }

  lemma ClosesIff(g: GroupState, now: Time)
    ensures var h := Evaluated(g, now).0;
            Closes(g, now) <==>
              g.posted && !g.closed && forall s :: s in h.members ==> h.members[s].state in {Recovered, Paused}
  {
    if g.posted && !g.closed {
      var p := PromoteAll(g.members, now, g.cfg.resolveDebounce);
      EvaluatedStates(g, now);
      InStateEmptyIff(p, Down);
      InStateEmptyIff(p, Recovering);
      if InState(p, Down) == {} && InState(p, Recovering) == {} {
        assert Action(Close, DeltaOf(p)) in Evaluated(g, now).1;
      }
    }
  }

  /** An evaluation closes the digest exactly when it is posted, open, and every unpaused member is confirmed up. */
  lemma {:induction false} ClosesIffAllConfirmed(channel: string, at: Time, cfg: Config, ops: seq<Op>, now: Time)
    ensures var g := New(channel, at, cfg);
            var run := ops + [Evaluate(now)];
            Closes(After(g, ops), now) <==>
              && After(g, ops).posted && !After(g, ops).closed
              && forall s :: s in After(g, run).members ==>
                   After(g, run).members[s].state == Paused || Confirmed(g, run, s)
  {
    var g := New(channel, at, cfg);
    var run := ops + [Evaluate(now)];
    assert run[..|run| - 1] == ops;
    ClosesIff(After(g, ops), now);
    var h := After(g, run);
    forall s | s in h.members ensures h.members[s].state == Recovered <==> Confirmed(g, run, s) {
      RunDescribed(g, run, s);
      assert StateOf(h, s) == Some(h.members[s].state);
    }
  }

  // ----- flaps

  /** Op i is a recovery of the monitor, and no op before position j takes it down again. */
  ghost predicate UpBetween(ops: seq<Op>, slug: string, i: int, j: int) {
    0 <= i < j <= |ops| && IsUp(ops[i], slug) && forall k :: i < k < j ==> !IsDown(ops[k], slug)
  }

  /** Every evaluation that falls inside an up-stretch of the monitor comes before the debounce has run out. */
  ghost predicate NeverConfirmed(ops: seq<Op>, slug: string, debounce: int) {
    forall i, j :: UpBetween(ops, slug, i, j) && j < |ops| && ops[j].Evaluate? ==> ops[j].now < ops[i].at + debounce
  }

  ghost predicate NeverPaused(ops: seq<Op>, slug: string) {
    forall k :: 0 <= k < |ops| && ops[k].MarkPaused? ==> ops[k].slug != slug
  }

  ghost predicate StillActive(g: GroupState, ops: seq<Op>, slug: string) {
    && slug in g.members
    && g.members[slug].state in {Down, Recovering} && g.members[slug].rendered == RenderActive
    && (g.members[slug].state == Recovering ==>
          exists i :: UpBetween(ops, slug, i, |ops|) && ops[i].at == g.members[slug].upSince)
  }

  /** An evaluation before the debounce leaves a shown-as-down member alone and does not report on it. */
  lemma ActiveEvaluated(g: GroupState, now: Time, slug: string)
    requires slug in g.members
    requires g.members[slug].state in {Down, Recovering} && g.members[slug].rendered == RenderActive
    requires g.members[slug].state == Recovering ==> now < g.members[slug].upSince + g.cfg.resolveDebounce
    ensures slug in Evaluated(g, now).0.members && Evaluated(g, now).0.members[slug] == g.members[slug]
    ensures forall a :: a in Evaluated(g, now).1 ==> !a.delta.Mentions(slug)
  {
    var p := PromoteAll(g.members, now, g.cfg.resolveDebounce);
    assert p[slug] == g.members[slug];
    assert slug in InState(p, Down) || slug in InState(p, Recovering);
  }

  lemma StillActiveStep(g: GroupState, ops: seq<Op>, slug: string)
    requires ops != [] && StillActive(g, ops[..|ops| - 1], slug)
    requires NeverConfirmed(ops, slug, g.cfg.resolveDebounce) && NeverPaused(ops, slug)
    ensures StillActive(Step(g, ops[|ops| - 1]).0, ops, slug)
    ensures forall a :: a in Step(g, ops[|ops| - 1]).1 ==> !a.delta.Mentions(slug)
  {
    var n := |ops| - 1;
    var pre, op := ops[..n], ops[n];
    if g.members[slug].state == Recovering {
      var i :| UpBetween(pre, slug, i, n) && pre[i].at == g.members[slug].upSince;
      assert op.Evaluate? ==> op.now < g.members[slug].upSince + g.cfg.resolveDebounce;
      assert !IsDown(op, slug) ==> UpBetween(ops, slug, i, n + 1);
    }
    assert IsUp(op, slug) ==> UpBetween(ops, slug, n, n + 1);
    if op.Evaluate? {
      ActiveEvaluated(g, op.now, slug);
    }
  }

  /** A shown-as-down member whose recoveries never outlive the debounce is never reported on. */
  lemma {:induction false} FlapInvisible(g: GroupState, ops: seq<Op>, slug: string)
    requires g.Keyed() && slug in g.members
    requires g.members[slug].state == Down && g.members[slug].rendered == RenderActive
    requires NeverConfirmed(ops, slug, g.cfg.resolveDebounce) && NeverPaused(ops, slug)
    ensures StillActive(After(g, ops), ops, slug)
    ensures forall x :: x in Emitted(g, ops) ==> !x.action.delta.Mentions(slug)
  {
    if ops != [] {
      var n := |ops| - 1;
      var pre := ops[..n];
      forall i, j | UpBetween(pre, slug, i, j) && j < n ensures UpBetween(ops, slug, i, j) && ops[j] == pre[j] {
      }
      FlapInvisible(g, pre, slug);
      AfterKeepsKeyed(g, pre);
      StillActiveStep(After(g, pre), ops, slug);
      var t := Stamp(ops[n], Step(After(g, pre), ops[n]).1);
      assert Emitted(g, ops) == Emitted(g, pre) + t;
      assert forall x :: x in t ==> x.action in Step(After(g, pre), ops[n]).1;
    }
  }
}
