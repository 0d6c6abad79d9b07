/**
 What a digest owes its readers: when a reminder, an update, the first post or
 the silent discard is due, read off the operations and actions before it.
 */
module DigestDuties {
  import opened Base
  import opened Digest
  import opened DigestRuns
  import opened DeltaRuns

  predicate Has(actions: seq<Action>, kind: Kind) {
    exists i :: 0 <= i < |actions| && actions[i].kind == kind
  }

  /** Some monitor's last operation left it down. */
  ghost predicate SomeoneDown(ops: seq<Op>) {
    exists slug :: LeftDown(ops, slug)
  }

  lemma DownIsHistory(g: GroupState, ops: seq<Op>)
    requires g.Keyed() && g.members == map[]
    ensures InState(After(g, ops).members, Down) != {} <==> SomeoneDown(ops)
  {
    var h := After(g, ops);
    InStateEmptyIff(h.members, Down);
    if slug :| LeftDown(ops, slug) {
      RunDescribed(g, ops, slug);
      assert StateOf(h, slug) == Some(Down);
    }
    if slug :| slug in h.members && h.members[slug].state == Down {
      RunDescribed(g, ops, slug);
    }
  }

  // ----- reminders

  /** A step that posts or reminds stamps the reminder timer; no other moves it. */
  lemma StepReminder(g: GroupState, op: Op)
    ensures var (h, actions) := Step(g, op);
            if Has(actions, PostDigest) || Has(actions, Remind)
            then (op.Open? || op.Evaluate?) && h.posted && h.lastReminderAt == op.now
            else h.lastReminderAt == g.lastReminderAt && h.posted == g.posted
  {
    if op.Evaluate? {
      EvaluateReminder(g, op.now);
    } else if op.Open? {
      OpenPostsIff(g, op.now);
    }
  }

  lemma EvaluateReminder(g: GroupState, now: Time)
    ensures var (h, actions) := Evaluated(g, now);
            if Has(actions, PostDigest) || Has(actions, Remind) then h.posted && h.lastReminderAt == now
            else h.lastReminderAt == g.lastReminderAt && h.posted == g.posted
  {
    var (h, actions) := Evaluated(g, now);
    if g.posted && !g.closed {
      PostedActions(g, now);
    } else if actions != [] {
      assert actions[0].kind in {PostDigest, Discard};
      assert actions[0].kind == PostDigest ==> Has(actions, PostDigest);
    }
  }

  /** What an open, posted digest asks for, action by action. */
  lemma PostedActions(g: GroupState, now: Time)
    requires g.posted && !g.closed
    ensures var (h, actions) := Evaluated(g, now);
            && h.posted && !Has(actions, PostDigest) && !Has(actions, Discard)
            && (Has(actions, Remind) <==>
                  InState(g.members, Down) != {} && now >= g.lastReminderAt + g.cfg.repeatInterval)
            && h.lastReminderAt == (if Has(actions, Remind) then now else g.lastReminderAt)
            && (Has(actions, Update) <==>
                  && !Closes(g, now) && now >= g.lastFlushAt + g.cfg.groupInterval
                  && !DeltaOf(PromotedMembers(g, now)).Empty())
            && h.lastFlushAt ==
                 (if !Closes(g, now) && now >= g.lastFlushAt + g.cfg.groupInterval then now else g.lastFlushAt)
  {
    var p := g.(members := PromotedMembers(g, now));
    if InState(p.members, Down) == {} && InState(p.members, Recovering) == {} {
      ClosingActions(g, now);
    } else {
      FlushRemindActions(p, now);
      assert forall i :: 0 <= i < |Evaluated(g, now).1| ==> Evaluated(g, now).1[i].kind != Close;
    }
  }

  lemma ClosingActions(g: GroupState, now: Time)
    requires g.posted && !g.closed
    requires var p := PromotedMembers(g, now); InState(p, Down) == {} && InState(p, Recovering) == {}
    ensures var (h, actions) := Evaluated(g, now);
            && h.posted && h.lastFlushAt == g.lastFlushAt && h.lastReminderAt == g.lastReminderAt && Closes(g, now)
            && forall kind :: Has(actions, kind) <==> kind == Close
  {
    var actions := Evaluated(g, now).1;
    assert actions == [Action(Close, DeltaOf(PromotedMembers(g, now)))];
    assert actions[0].kind == Close && actions[0] in actions;
  }

  /** The heartbeat and the reminder of a digest that stays open. */
  lemma FlushRemindActions(p: GroupState, now: Time)
    ensures var f := Flushed(p, now);
            var r := Reminded(f.0, now);
            var actions := f.1 + r.1;
            && r.0.posted == p.posted && (forall i :: 0 <= i < |actions| ==> actions[i].kind in {Update, Remind})
            && (Has(actions, Remind) <==>
                  InState(p.members, Down) != {} && now >= p.lastReminderAt + p.cfg.repeatInterval)
            && r.0.lastReminderAt == (if Has(actions, Remind) then now else p.lastReminderAt)
            && (Has(actions, Update) <==> now >= p.lastFlushAt + p.cfg.groupInterval && !DeltaOf(p.members).Empty())
            && r.0.lastFlushAt == (if now >= p.lastFlushAt + p.cfg.groupInterval then now else p.lastFlushAt)
  {
    TwoActions(Flushed(p, now).1, Reminded(Flushed(p, now).0, now).1);
  }

  /** At most one update, then at most one reminder. */
  lemma TwoActions(a: seq<Action>, b: seq<Action>)
    requires |a| <= 1 && (a != [] ==> a[0].kind == Update)
    requires |b| <= 1 && (b != [] ==> b[0].kind == Remind)
    ensures (Has(a + b, Update) <==> a != []) && (Has(a + b, Remind) <==> b != [])
    ensures forall i :: 0 <= i < |a + b| ==> (a + b)[i].kind in {Update, Remind}
  {
    if a != [] { assert (a + b)[0] == a[0]; }
    if b != [] { assert (a + b)[|a|] == b[0]; }
  }

  /** The reminder timer holds the time of a post or reminder of the run. */
  ghost predicate TimerTold(g: GroupState, s: seq<Stamped>) {
    g.posted ==> exists i :: 0 <= i < |s| && s[i].action.kind in {PostDigest, Remind} && s[i].at == g.lastReminderAt
  }

  lemma TimerStep(g: GroupState, s: seq<Stamped>, op: Op)
    requires TimerTold(g, s)
    ensures TimerTold(Step(g, op).0, s + Stamp(op, Step(g, op).1))
  {
    var (h, actions) := Step(g, op);
    var all := s + Stamp(op, actions);
    StepReminder(g, op);
    if i :| 0 <= i < |actions| && actions[i].kind in {PostDigest, Remind} {
      assert Has(actions, actions[i].kind);
      assert all[|s| + i] == Stamped(op.now, actions[i]);
    } else if g.posted {
      var i :| 0 <= i < |s| && s[i].action.kind in {PostDigest, Remind} && s[i].at == g.lastReminderAt;
      assert all[i] == s[i];
    }
  }

  lemma {:induction false} RunTimer(g: GroupState, ops: seq<Op>)
    requires !g.posted
    ensures TimerTold(After(g, ops), Emitted(g, ops))
  {
    if ops != [] {
      var n := |ops| - 1;
      RunTimer(g, ops[..n]);
      TimerStep(After(g, ops[..n]), Emitted(g, ops[..n]), ops[n]);
    }
  }

  /**
   An evaluation of a posted, open digest reminds exactly when some monitor's last operation left it down and the post
   and every reminder before are at least the repeat interval back.
   */
  lemma RemindsIff(channel: string, at: Time, cfg: Config, ops: seq<Op>, now: Time)
    requires After(New(channel, at, cfg), ops).posted && !After(New(channel, at, cfg), ops).closed
    ensures var g := New(channel, at, cfg);
            Has(Evaluated(After(g, ops), now).1, Remind) <==>
              && SomeoneDown(ops)
              && forall x :: x in Emitted(g, ops) && x.action.kind in {PostDigest, Remind} ==>
                   x.at + cfg.WithDefaults().repeatInterval <= now
  {
    var g := New(channel, at, cfg);
    var s := Emitted(g, ops);
    PostedActions(After(g, ops), now);
    DownIsHistory(g, ops);
    RunTimer(g, ops);
    RunExplains(g, ops);
    AfterKeepsKeyed(g, ops);
    var i :| 0 <= i < |s| && s[i].action.kind in {PostDigest, Remind} && s[i].at == After(g, ops).lastReminderAt;
    assert s[i] in s;
  }

  // ----- the first post

  /**
   Before it is posted a digest waits for its group wait; then it posts if some monitor's last operation left it down,
   and is discarded otherwise.
   */
  lemma PostsIff(channel: string, at: Time, cfg: Config, ops: seq<Op>, now: Time)
    requires !After(New(channel, at, cfg), ops).posted && !After(New(channel, at, cfg), ops).closed
    ensures var g := New(channel, at, cfg);
            Evaluated(After(g, ops), now).1 ==
              if now < at + cfg.WithDefaults().groupWait then []
              else if SomeoneDown(ops) then [Action(PostDigest, NO_DELTA)]
              else [Action(Discard, NO_DELTA)]
  {
    var g := New(channel, at, cfg);
    DownIsHistory(g, ops);
    AfterKeepsKeyed(g, ops);
  }

  /** Opening posts at once, once: whatever was done before, unless the digest is posted or closed. */
  lemma OpenPostsIff(g: GroupState, now: Time)
    ensures Has(Opened(g, now).1, PostDigest) <==> !g.posted && !g.closed
    ensures !g.posted && !g.closed ==> Opened(g, now).0.lastFlushAt == Opened(g, now).0.lastReminderAt == now
  {
    assert !g.posted && !g.closed ==> Opened(g, now).1[0].kind == PostDigest;
  }

  // ----- the heartbeat

  /** The last beat of a run: the post, and every later evaluation that did not close and came an interval after it. */
  ghost function LastBeat(g: GroupState, ops: seq<Op>): Option<Time> {
    if ops == [] then None else
    var pre, op := ops[..|ops| - 1], ops[|ops| - 1];
    var b, last := After(g, pre), LastBeat(g, pre);
    if Has(Step(b, op).1, PostDigest) then Some(if op.Open? || op.Evaluate? then op.now else ZERO)
    else if op.Evaluate? && last.Some? && !b.closed && !Closes(b, op.now) && op.now >= last.value + g.cfg.groupInterval
    then Some(op.now)
    else last
  }

  ghost predicate BeatKept(h: GroupState, beat: Option<Time>) {
    if h.posted then beat == Some(h.lastFlushAt) else beat.None?
  }

  lemma BeatStep(g: GroupState, op: Op, beat: Option<Time>)
    requires BeatKept(g, beat)
    ensures var (h, actions) := Step(g, op);
            BeatKept(h,
              if Has(actions, PostDigest) then Some(if op.Open? || op.Evaluate? then op.now else ZERO)
              else if op.Evaluate? && beat.Some? && !g.closed && !Closes(g, op.now)
                      && op.now >= beat.value + g.cfg.groupInterval then Some(op.now)
              else beat)
  {
    StepReminder(g, op);
    if op.Evaluate? && g.posted && !g.closed {
      PostedActions(g, op.now);
    } else if op.Open? {
      OpenPostsIff(g, op.now);
    }
  }

  lemma {:induction false} RunBeat(g: GroupState, ops: seq<Op>)
    requires !g.posted && g.Keyed()
    ensures BeatKept(After(g, ops), LastBeat(g, ops))
  {
    if ops != [] {
      var n := |ops| - 1;
      RunBeat(g, ops[..n]);
      AfterKeepsKeyed(g, ops[..n]);
      BeatStep(After(g, ops[..n]), ops[n], LastBeat(g, ops[..n]));
    }
  }

  /** The member's class changed since the last snapshot, other than by a silent recovery. */
  predicate Audible(m: Member) {
    m.rendered != RenderOf(m.state) && !SilentRecovery(m)
  }

  lemma EmptyIffInaudible(ms: Members)
    ensures DeltaOf(ms).Empty() <==> forall slug :: slug in ms ==> !Audible(ms[slug])
  {
    forall slug ensures DeltaOf(ms).Mentions(slug) <==> slug in ms && Audible(ms[slug]) {
      DeltaTells(ms, slug, RenderNone);
    }
    var d := DeltaOf(ms);
    if !d.Empty() {
      var slug := if d.newlyDown != [] then d.newlyDown[0] else if d.recovered != [] then d.recovered[0]
                  else if d.flapped != [] then d.flapped[0] else d.paused[0];
      assert d.Mentions(slug);
    }
  }

  /**
   An evaluation of a posted, open digest sends an update exactly when it does not close the digest, comes an interval
   after the last beat, and finds a member whose class changed audibly since.
   */
  lemma UpdatesIff(channel: string, at: Time, cfg: Config, ops: seq<Op>, now: Time)
    requires After(New(channel, at, cfg), ops).posted && !After(New(channel, at, cfg), ops).closed
    ensures var g := New(channel, at, cfg);
            var b := After(g, ops);
            LastBeat(g, ops).Some? &&
            (Has(Evaluated(b, now).1, Update) <==>
              && !Closes(b, now) && now >= LastBeat(g, ops).value + cfg.WithDefaults().groupInterval
              && exists slug :: slug in b.members && Audible(PromotedMembers(b, now)[slug]))
  {
    var g := New(channel, at, cfg);
    var b := After(g, ops);
    PostedActions(b, now);
    RunBeat(g, ops);
    AfterKeepsKeyed(g, ops);
    EmptyIffInaudible(PromotedMembers(b, now));
  }
}
