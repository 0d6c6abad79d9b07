/**
 What a channel says through its digests over a whole run: one conversation
 after the other, each begun by a promotion and ended by a retirement.
 */
module Conversations {
  import opened Base
  import A = Alert
  import G = Digest
  import R = DigestRuns
  import opened Dispatch
  import opened DispatchRuns

  type Talk = seq<G.Stamped>

  function TimeOf(ev: Event): Time {
    match ev
    case Route(e) => if e.event.Some? then e.event.value.at else ZERO
    case Pause(_, at) => at
    case Expire(now) => now
    case Evaluate(now) => now
  }

  function Stamps(ev: Event, actions: seq<G.Action>): Talk {
    G.Stamp(G.Evaluate(TimeOf(ev)), actions)
  }

  /** All the digest actions a run asks for. */
  ghost function Asked(s: Settings, c: Channel, evs: seq<Event>): Talk {
    if evs == [] then [] else
    var pre, ev := evs[..|evs| - 1], evs[|evs| - 1];
    Asked(s, c, pre) + Stamps(ev, Step(s, After(s, c, pre), ev).actions)
  }

  /** What a reattached digest said before the run, as far as its timers tell: it was posted before either fired. */
  function Earlier(c: Channel): Talk {
    if c.group.None? || !c.group.value.posted then []
    else
      var g := c.group.value;
      var at := if g.lastFlushAt < g.lastReminderAt then g.lastFlushAt else g.lastReminderAt;
      [G.Stamped(at, POST)]
  }

  /** The conversations of a run: those that ended with a retirement, and the one under way. */
  datatype Talks = Talks(done: seq<Talk>, current: Talk)

  ghost predicate Retiring(s: Settings, c: Channel, ev: Event) {
    c.group.Some? && Step(s, c, ev).chan.group.None?
  }

  ghost function TalksOf(s: Settings, c: Channel, evs: seq<Event>): Talks {
    if evs == [] then Talks([], Earlier(c)) else
    var pre, ev := evs[..|evs| - 1], evs[|evs| - 1];
    var b := After(s, c, pre);
    Carried(TalksOf(s, c, pre), Stamps(ev, Step(s, b, ev).actions), Retiring(s, b, ev))
  }

  /** The conversation under way goes on, and ends here if the digest retires. */
  function Carried(t: Talks, more: Talk, ends: bool): Talks {
    if ends then Talks(t.done + [t.current + more], []) else Talks(t.done, t.current + more)
  }

  function Joint(talks: seq<Talk>): Talk {
    if talks == [] then [] else Joint(talks[..|talks| - 1]) + talks[|talks| - 1]
  }

  lemma CarriedCovers(t: Talks, more: Talk, ends: bool)
    ensures var u := Carried(t, more, ends); Joint(u.done) + u.current == Joint(t.done) + t.current + more
  {
    var said := t.current + more;
    assert (t.done + [said])[..|t.done|] == t.done;
    assert Joint(t.done) + said == Joint(t.done) + t.current + more;
  }

  /** Cut at the retirements, the conversations are all that was said. */
  lemma {:induction false} TalksCover(s: Settings, c: Channel, evs: seq<Event>)
    ensures var t := TalksOf(s, c, evs); Joint(t.done) + t.current == Earlier(c) + Asked(s, c, evs)
  {
    if evs == [] {
      assert Joint([]) + Earlier(c) == Earlier(c) + [];
    } else {
      var pre, ev := evs[..|evs| - 1], evs[|evs| - 1];
      var b := After(s, c, pre);
      TalksCover(s, c, pre);
      CarriedCovers(TalksOf(s, c, pre), Stamps(ev, Step(s, b, ev).actions), Retiring(s, b, ev));
      Regroup(Earlier(c), Asked(s, c, pre), Stamps(ev, Step(s, b, ev).actions));
    }
  }

  // ----- how the live digest moves

  /** A step leaves the digest alone and asks for nothing. */
  ghost predicate Rests(c: Channel, o: Outcome) {
    o.chan.group == c.group && o.actions == []
  }

  /** A step is the given operation on the live digest, which goes away iff it is done. */
  ghost predicate Acts(ev: Event, o: Outcome, g: G.GroupState, op: G.Op) {
    && G.Step(g, op).1 == o.actions && G.Stamp(op, o.actions) == Stamps(ev, o.actions)
    && o.chan.group == if Retires(o.actions) then None else Some(G.Step(g, op).0)
  }

  /** A digest that has said nothing yet. */
  predicate Unborn(s: Settings, g: G.GroupState) {
    !g.posted && !g.closed && g.cfg == s.group.WithDefaults()
  }

  lemma RouteMoves(s: Settings, c: Channel, e: Entry) returns (op: Option<G.Op>)
    requires Shaped(c)
    ensures op.None? ==> Rests(c, Routed(s, c, e))
    ensures op.Some? ==> c.group.Some? && !op.value.Open? && !op.value.Evaluate?
    ensures op.Some? ==> Acts(Route(e), Routed(s, c, e), c.group.value, op.value)
  {
    op := None;
    if c.group.Some? && e.event.Some? {
      var slug, at := e.Slug(), e.event.value.at;
      if e.Is(A.EventOpen) {
        op := Some(G.MarkDown(slug, at));
      } else if e.Is(A.EventResolve) && slug !in c.individual && c.DigestOwns(slug) {
        op := Some(G.MarkUp(slug, at));
      }
    }
  }

  predicate IsPromotion(s: Settings, c: Channel, ev: Event) {
    ev.Expire? && c.mode == Pending && Promotes(s, c, ev.now)
  }

  const POST := G.Action(G.PostDigest, G.NO_DELTA)

  /** A promotion opens an unborn digest, which posts at once. */
  lemma PromotionMoves(s: Settings, c: Channel, now: Time) returns (g: G.GroupState)
    requires Shaped(c) && IsPromotion(s, c, Expire(now))
    ensures Unborn(s, g)
    ensures Acts(Expire(now), Expired(s, c, now), g, G.Open(now)) && Expired(s, c, now).actions == [POST]
  {
    g := Joined(Ensured(s, c, Earliest(c.pending, now)), c.pending);
    OpenMoves(s, g, now, Expired(s, c, now));
  }

  lemma OpenMoves(s: Settings, g: G.GroupState, now: Time, o: Outcome)
    requires Unborn(s, g) && o.actions == G.Opened(g, now).1 && o.chan.group == Some(G.Opened(g, now).0)
    ensures Acts(Expire(now), o, g, G.Open(now)) && o.actions == [POST]
  {
  }

  lemma ExpireMoves(s: Settings, c: Channel, now: Time)
    requires Shaped(c) && !IsPromotion(s, c, Expire(now))
    ensures Rests(c, Expired(s, c, now))
  {
  }

  // ----- the conversations

  predicate Finished(t: Talk) {
    t != [] && (t[|t| - 1].action.kind == G.Close || t[|t| - 1].action.kind == G.Discard)
  }

  /**
   Discard, or PostDigest (Update | Remind)* Close, or a prefix of one of them, with both kinds keeping their
   intervals.
   */
  ghost predicate Converses(s: Settings, t: Talk) {
    && R.InLanguage(t)
    && R.Spaced(t, G.Update, s.group.WithDefaults().groupInterval)
    && R.Spaced(t, G.Remind, s.group.WithDefaults().repeatInterval)
  }

  /** What the live digest says about the conversation under way. */
  ghost predicate UnderWay(s: Settings, c: Channel, t: Talk) {
    if c.group.None? then t == []
    else c.group.value.cfg == s.group.WithDefaults() && !c.group.value.closed && R.Explains(c.group.value, t)
  }

  /** An operation that is done with the digest leaves the conversation finished. */
  lemma RetiredFinishes(g: G.GroupState, t: Talk, op: G.Op)
    requires R.Explains(G.Step(g, op).0, t + G.Stamp(op, G.Step(g, op).1)) && Retires(G.Step(g, op).1)
    ensures Finished(t + G.Stamp(op, G.Step(g, op).1))
  {
    var actions := G.Step(g, op).1;
    var all := t + G.Stamp(op, actions);
    var a :| a in actions && (a.kind == G.Close || a.kind == G.Discard);
    var i :| 0 <= i < |actions| && actions[i] == a;
    assert all[|t| + i].action == a;
  }

  /** An operation on a live or unborn digest carries its conversation on. */
  lemma ActsConverses(s: Settings, ev: Event, o: Outcome, g: G.GroupState, op: G.Op, t: Talk)
    requires Acts(ev, o, g, op) && R.Explains(g, t) && !g.closed && g.cfg == s.group.WithDefaults()
    ensures var said := t + Stamps(ev, o.actions);
            && Converses(s, said)
            && (if o.chan.group.None? then Finished(said) else UnderWay(s, o.chan, said))
  {
    R.StepExplains(g, t, op);
    StepKeepsConfig(g, op);
    if Retires(o.actions) {
      RetiredFinishes(g, t, op);
    }
  }

  /** Only what retires a digest closes it, and its intervals are fixed. */
  lemma StepKeepsConfig(g: G.GroupState, op: G.Op)
    requires !g.closed
    ensures G.Step(g, op).0.cfg == g.cfg && (G.Step(g, op).0.closed <==> Retires(G.Step(g, op).1))
  {
    if op.Evaluate? {
      ClosedIffRetires(g, op.now);
    }
  }

  lemma ShapedStep(s: Settings, c: Channel, ev: Event)
    requires Shaped(c)
    ensures Shaped(Step(s, c, ev).chan)
  {
    match ev
    case Route(e) =>
      if e.Is(A.EventOpen) { ShapedOpened(s, c, e); }
      if e.Is(A.EventResolve) { ShapedResolved(c, e); }
    case Pause(slug, at) => ShapedPaused(c, slug, at);
    case Expire(now) => ShapedExpired(s, c, now);
    case Evaluate(now) => ShapedEvaluated(c, now);
  }

  lemma PromotionConverses(s: Settings, c: Channel, now: Time)
    requires Shaped(c) && IsPromotion(s, c, Expire(now))
    ensures var o := Expired(s, c, now); o.chan.group.Some? && UnderWay(s, o.chan, [] + Stamps(Expire(now), o.actions))
  {
    var g := PromotionMoves(s, c, now);
    ActsConverses(s, Expire(now), Expired(s, c, now), g, G.Open(now), []);
  }

  /** One step carries the conversation on, ends it, or begins the next. */
  lemma StepConverses(s: Settings, c: Channel, ev: Event, t: Talk)
    requires Shaped(c) && UnderWay(s, c, t)
    ensures var o := Step(s, c, ev);
            var said := t + Stamps(ev, o.actions);
            if Retiring(s, c, ev) then Converses(s, said) && Finished(said) else UnderWay(s, o.chan, said)
  {
    var o := Step(s, c, ev);
    assert Rests(c, o) ==> t + Stamps(ev, o.actions) == t;
    match ev {
      case Route(e) =>
        var op := RouteMoves(s, c, e);
        if op.Some? { ActsConverses(s, ev, o, c.group.value, op.value, t); }
      case Pause(slug, at) =>
        if c.group.Some? { ActsConverses(s, ev, o, c.group.value, G.MarkPaused(slug, at), t); }
      case Expire(now) =>
        if IsPromotion(s, c, ev) {
          PromotionConverses(s, c, now);
        } else {
          ExpireMoves(s, c, now);
        }
      case Evaluate(now) =>
        if c.group.Some? { ActsConverses(s, ev, o, c.group.value, G.Evaluate(now), t); }
    }
  }

  /** Reattached groups run under the current configuration. */
  predicate Begins(s: Settings, c: Channel) {
    Initial(c) && (c.group.Some? ==> c.group.value.cfg == s.group.WithDefaults())
  }

  /**
   Every run of a channel is a sequence of digest conversations: those cut off by retirements are complete, the last is
   under way iff a digest is live, and each keeps the language and the intervals of a single digest.
   */
  lemma {:induction false} RunConverses(s: Settings, c: Channel, evs: seq<Event>)
    requires Begins(s, c)
    ensures Shaped(After(s, c, evs)) && UnderWay(s, After(s, c, evs), TalksOf(s, c, evs).current)
    ensures forall i :: 0 <= i < |TalksOf(s, c, evs).done| ==>
              Converses(s, TalksOf(s, c, evs).done[i]) && Finished(TalksOf(s, c, evs).done[i])
  {
    if evs == [] {
    } else {
      var pre, ev := evs[..|evs| - 1], evs[|evs| - 1];
      RunConverses(s, c, pre);
      StepConverses(s, After(s, c, pre), ev, TalksOf(s, c, pre).current);
      ShapedStep(s, After(s, c, pre), ev);
    }
  }

  /** The conversation under way: none without a live digest, and otherwise one that is not finished. */
  lemma CurrentTalk(s: Settings, c: Channel, evs: seq<Event>)
    requires Begins(s, c)
    ensures var b, t := After(s, c, evs), TalksOf(s, c, evs).current;
            && Converses(s, t) && !Finished(t)
            && (t != [] <==> b.group.Some? && b.group.value.posted)
  {
    RunConverses(s, c, evs);
  }

  // ----- who begins and who ends a conversation

  /** A digest that was not posted is the one the run reattached to, and no conversation has ended yet. */
  lemma {:induction false} OnlyReattachedUnposted(s: Settings, c: Channel, evs: seq<Event>)
    requires Begins(s, c)
    ensures var b := After(s, c, evs);
            b.group.Some? && !b.group.value.posted ==>
              TalksOf(s, c, evs).done == [] && c.group.Some? && !c.group.value.posted
  {
    if evs != [] {
      var pre, ev := evs[..|evs| - 1], evs[|evs| - 1];
      OnlyReattachedUnposted(s, c, pre);
      RunConverses(s, c, pre);
      PostedStays(s, After(s, c, pre), ev);
    }
  }

  lemma PostedStays(s: Settings, c: Channel, ev: Event)
    requires Shaped(c)
    ensures var d := Step(s, c, ev).chan;
            d.group.Some? && !d.group.value.posted ==> c.group.Some? && !c.group.value.posted
  {
    match ev {
      case Route(e) => var op := RouteMoves(s, c, e);
      case Pause(slug, at) =>
      case Expire(now) =>
        if IsPromotion(s, c, ev) {
          var g := PromotionMoves(s, c, now);
        } else {
          ExpireMoves(s, c, now);
        }
      case Evaluate(now) =>
    }
  }

  predicate Posts(actions: seq<G.Action>) {
    exists i :: 0 <= i < |actions| && actions[i].kind == G.PostDigest
  }

  lemma PostsOnlyUnposted(g: G.GroupState, op: G.Op)
    ensures Posts(G.Step(g, op).1) ==> !g.posted && (op.Open? || op.Evaluate?)
  {
  }

  /**
   One step: a promotion posts, otherwise only an evaluation of an unposted digest does; a retirement ends, and nothing
   else.
   */
  ghost predicate Speaks(s: Settings, c: Channel, ev: Event, o: Outcome) {
    && (IsPromotion(s, c, ev) ==> c.group.None? && o.actions == [POST])
    && (Posts(o.actions) && !IsPromotion(s, c, ev) ==> ev.Evaluate? && c.group.Some? && !c.group.value.posted)
    && (Retires(o.actions) <==> c.group.Some? && o.chan.group.None?)
  }

  lemma ActsSpeaks(s: Settings, c: Channel, ev: Event, o: Outcome, op: G.Op)
    requires !ev.Expire? && c.group.Some? && Acts(ev, o, c.group.value, op)
    requires !op.Open? && (op.Evaluate? ==> ev.Evaluate?)
    ensures Speaks(s, c, ev, o)
  {
    PostsOnlyUnposted(c.group.value, op);
  }

  lemma RestsSpeaks(s: Settings, c: Channel, ev: Event, o: Outcome)
    requires !IsPromotion(s, c, ev) && Rests(c, o)
    ensures Speaks(s, c, ev, o)
  {
  }

  lemma PromotionSpeaks(s: Settings, c: Channel, now: Time)
    requires Shaped(c) && IsPromotion(s, c, Expire(now))
    ensures Speaks(s, c, Expire(now), Expired(s, c, now))
  {
    var g := PromotionMoves(s, c, now);
  }

  lemma StepSpeaks(s: Settings, c: Channel, ev: Event)
    requires Shaped(c)
    ensures Speaks(s, c, ev, Step(s, c, ev))
  {
    var o := Step(s, c, ev);
    match ev {
      case Route(e) =>
        var op := RouteMoves(s, c, e);
        if op.Some? { ActsSpeaks(s, c, ev, o, op.value); } else { RestsSpeaks(s, c, ev, o); }
      case Pause(slug, at) =>
        if c.group.Some? { ActsSpeaks(s, c, ev, o, G.MarkPaused(slug, at)); } else { RestsSpeaks(s, c, ev, o); }
      case Expire(now) =>
        if IsPromotion(s, c, ev) {
          PromotionSpeaks(s, c, now);
        } else {
          ExpireMoves(s, c, now);
          RestsSpeaks(s, c, ev, o);
        }
      case Evaluate(now) =>
        if c.group.Some? { ActsSpeaks(s, c, ev, o, G.Evaluate(now)); } else { RestsSpeaks(s, c, ev, o); }
    }
  }

  /**
   A digest is posted by the promotion that begins its conversation, except one the run reattached to before it was
   posted; a conversation ends with its Close or Discard exactly when the channel retires the digest.
   */
  lemma WhoSpeaks(s: Settings, c: Channel, evs: seq<Event>, ev: Event)
    requires Begins(s, c)
    ensures var b := After(s, c, evs);
            var actions := Step(s, b, ev).actions;
            && (IsPromotion(s, b, ev) ==> TalksOf(s, c, evs).current == [] && actions == [POST])
            && (Posts(actions) && !IsPromotion(s, b, ev) ==>
                  ev.Evaluate? && TalksOf(s, c, evs).done == [] && c.group.Some? && !c.group.value.posted)
            && (Retires(actions) <==> Retiring(s, b, ev))
  {
    RunConverses(s, c, evs);
    OnlyReattachedUnposted(s, c, evs);
    StepSpeaks(s, After(s, c, evs), ev);
  }
}
