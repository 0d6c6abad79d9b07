/**
 The self-health detector: whether a burst of DNS failures means the monitor
 itself is blind. Its state as a value, what its pruned summary says about the
 whole history of reports, and the detector object.
 */
module SelfHealth {
  import opened Base
  import opened Sorting

  datatype FailKind = NoFailure | Dns | Dial | Tls | Timeout | Http

  datatype Config = Config(window: int, minMonitors: int)

  datatype Health = Health(
    degraded: bool, enteredAt: Time, dnsLast: map<string, Time>, lastSuccess: Time, suppressed: nat)

  const HEALTHY := Health(false, ZERO, map[], ZERO, 0)

  datatype Decision = Decision(entered: bool, exited: bool, commit: seq<string>, suppressed: nat)

  const NOTHING := Decision(false, false, [], 0)

  function Reported(h: Health, slug: string, kind: FailKind, success: bool, at: Time): Health {
    if success then (if at > h.lastSuccess then h.(lastSuccess := at) else h)
    else if kind == Dns then
      h.(dnsLast := h.dnsLast[slug := at], suppressed := if h.degraded then h.suppressed + 1 else h.suppressed)
    else h
  }

  predicate SuccessIn(h: Health, now: Time, window: int) {
    h.lastSuccess != ZERO && now - h.lastSuccess < window
  }

  ghost function Decided(cfg: Config, h: Health, now: Time): (Health, Decision) {
    var p := h.(dnsLast := Fresh(h.dnsLast, now, cfg.window));
    if p.degraded then
      if now - p.enteredAt >= cfg.window && SuccessIn(p, now, cfg.window) && |p.dnsLast| < cfg.minMonitors then
        (p.(degraded := false, enteredAt := ZERO, suppressed := 0, dnsLast := map[]),
         NOTHING.(exited := true, suppressed := p.suppressed + |p.dnsLast|))
      else (p, NOTHING)
    else if !SuccessIn(p, now, cfg.window) && |p.dnsLast| >= cfg.minMonitors then
      (p.(degraded := true, enteredAt := now, suppressed := |p.dnsLast|, dnsLast := map[]), NOTHING.(entered := true))
    else (p.(dnsLast := map[]), NOTHING.(commit := Listing(p.dnsLast.Keys)))
  }

  // ----- runs

  datatype Op = Report(slug: string, kind: FailKind, success: bool, at: Time) | Decide(now: Time)

  ghost function Step(cfg: Config, h: Health, op: Op): Health {
    match op
    case Report(slug, kind, success, at) => Reported(h, slug, kind, success, at)
    case Decide(now) => Decided(cfg, h, now).0
  }

  ghost function After(cfg: Config, ops: seq<Op>): Health {
    if ops == [] then HEALTHY else Step(cfg, After(cfg, ops[..|ops| - 1]), ops[|ops| - 1])
  }

  /** What the decision at step k says. */
  ghost function DecisionAt(cfg: Config, ops: seq<Op>, k: int): Decision
    requires 0 <= k < |ops|
  {
    if ops[k].Decide? then Decided(cfg, After(cfg, ops[..k]), ops[k].now).1 else NOTHING
  }

  predicate IsDns(op: Op, slug: string) {
    op.Report? && !op.success && op.kind == Dns && op.slug == slug
  }

  predicate IsSuccess(op: Op) {
    op.Report? && op.success
  }

  // ----- the success veto

  ghost predicate SuccessYoungAt(ops: seq<Op>, now: Time, window: int, i: int) {
    0 <= i < |ops| && IsSuccess(ops[i]) && ops[i].at > ZERO && now - ops[i].at < window
  }

  ghost predicate SuccessYoung(ops: seq<Op>, now: Time, window: int) {
    exists i :: SuccessYoungAt(ops, now, window, i)
  }

  lemma {:induction false} SuccessIsHistory(cfg: Config, ops: seq<Op>, now: Time, window: int)
    ensures SuccessIn(After(cfg, ops), now, window) <==> SuccessYoung(ops, now, window)
    ensures After(cfg, ops).lastSuccess >= ZERO
  {
    if ops != [] {
      var n := |ops| - 1;
      var pre, op := ops[..n], ops[n];
      SuccessIsHistory(cfg, pre, now, window);
      if i :| SuccessYoungAt(pre, now, window, i) {
        assert SuccessYoungAt(ops, now, window, i);
      }
      if i :| SuccessYoungAt(ops, now, window, i) {
        assert i < n ==> SuccessYoungAt(pre, now, window, i);
      }
      assert SuccessYoungAt(ops, now, window, n) <==> IsSuccess(op) && op.at > ZERO && now - op.at < window;
    }
  }

  // ----- the provisional failures

  /** Decision k starts a new tally: it trips, it ends a blind spell, or it settles a healthy window. */
  ghost predicate ClearsAt(cfg: Config, ops: seq<Op>, k: int)
    requires 0 <= k < |ops|
  {
    ops[k].Decide? && (!After(cfg, ops[..k]).degraded || DecisionAt(cfg, ops, k).exited)
  }

  /** Step i is the monitor's last DNS failure, and no decision has settled it. */
  ghost predicate HeldAt(cfg: Config, ops: seq<Op>, slug: string, i: int) {
    && 0 <= i < |ops| && IsDns(ops[i], slug)
    && forall k :: i < k < |ops| ==> !IsDns(ops[k], slug) && !ClearsAt(cfg, ops, k)
  }

  ghost predicate HeldYoungAt(cfg: Config, ops: seq<Op>, now: Time, slug: string, i: int) {
    HeldAt(cfg, ops, slug, i) && now - ops[i].at < cfg.window
  }

  ghost predicate HeldYoung(cfg: Config, ops: seq<Op>, now: Time, slug: string) {
    exists i :: HeldYoungAt(cfg, ops, now, slug, i)
  }

  ghost predicate ClockBelow(ops: seq<Op>, now: Time) {
    forall k :: 0 <= k < |ops| && ops[k].Decide? ==> ops[k].now <= now
  }

  ghost predicate Settles(cfg: Config, h: Health, op: Op) {
    op.Decide? && (!h.degraded || Decided(cfg, h, op.now).1.exited)
  }

  lemma HeldPrefix(cfg: Config, pre: seq<Op>, op: Op, slug: string, i: int)
    requires 0 <= i < |pre|
    ensures HeldAt(cfg, pre + [op], slug, i) <==>
              HeldAt(cfg, pre, slug, i) && !IsDns(op, slug) && !Settles(cfg, After(cfg, pre), op)
  {
    var n, ops := |pre|, pre + [op];
    assert ops[n] == op && ops[..n] == pre;
    forall k | 0 <= k < n ensures ops[k] == pre[k] && (ClearsAt(cfg, ops, k) <==> ClearsAt(cfg, pre, k)) {
      assert ops[..k] == pre[..k];
    }
    assert ClearsAt(cfg, ops, n) <==> Settles(cfg, After(cfg, pre), op);
    if HeldAt(cfg, ops, slug, i) {
      assert !ClearsAt(cfg, ops, n) && !IsDns(ops[n], slug);
    }
  }

  lemma HeldYoungStep(cfg: Config, pre: seq<Op>, op: Op, now: Time, slug: string)
    ensures HeldYoung(cfg, pre + [op], now, slug) <==>
              if IsDns(op, slug) then now - op.at < cfg.window
              else !Settles(cfg, After(cfg, pre), op) && HeldYoung(cfg, pre, now, slug)
  {
    var n, ops := |pre|, pre + [op];
    assert ops[n] == op && forall k {:trigger pre[k]} :: 0 <= k < n ==> ops[k] == pre[k];
    if i :| HeldYoungAt(cfg, ops, now, slug, i) {
      if i < n {
        HeldPrefix(cfg, pre, op, slug, i);
        assert HeldYoungAt(cfg, pre, now, slug, i);
      }
    }
    if i :| HeldYoungAt(cfg, pre, now, slug, i) {
      HeldPrefix(cfg, pre, op, slug, i);
      assert !Settles(cfg, After(cfg, pre), op) && !IsDns(op, slug) ==> HeldYoungAt(cfg, ops, now, slug, i);
    }
    if IsDns(op, slug) {
      assert HeldAt(cfg, ops, slug, n);
      assert now - op.at < cfg.window ==> HeldYoungAt(cfg, ops, now, slug, n);
    }
  }

  /** The pruned summary agrees with the whole history of reports and decisions. */
  lemma {:induction false} TallyIsHistory(cfg: Config, ops: seq<Op>, now: Time, slug: string)
    requires ClockBelow(ops, now)
    ensures Young(After(cfg, ops).dnsLast, slug, now, cfg.window) <==> HeldYoung(cfg, ops, now, slug)
  {
    if ops != [] {
      var n := |ops| - 1;
      var pre, op := ops[..n], ops[n];
      assert ops == pre + [op];
      TallyIsHistory(cfg, pre, now, slug);
      HeldYoungStep(cfg, pre, op, now, slug);
    }
  }

  /** The monitors with an unsettled DNS failure younger than the window at now. */
  ghost function Failing(cfg: Config, ops: seq<Op>, now: Time): set<string> {
    set i | 0 <= i < |ops| && ops[i].Report? && HeldYoungAt(cfg, ops, now, ops[i].slug, i) :: ops[i].slug
  }

  lemma FreshIsFailing(cfg: Config, ops: seq<Op>, now: Time)
    requires ClockBelow(ops, now)
    ensures Fresh(After(cfg, ops).dnsLast, now, cfg.window).Keys == Failing(cfg, ops, now)
  {
    var dns := After(cfg, ops).dnsLast;
    forall slug ensures slug in Fresh(dns, now, cfg.window) <==> slug in Failing(cfg, ops, now) {
      TallyIsHistory(cfg, ops, now, slug);
      if i :| HeldYoungAt(cfg, ops, now, slug, i) {
        assert ops[i].slug == slug;
      }
    }
  }

  /** Step i is the monitor's last DNS failure since the last decision. */
  ghost predicate ProvisionalAt(ops: seq<Op>, slug: string, i: int) {
    0 <= i < |ops| && IsDns(ops[i], slug) && forall k :: i < k < |ops| ==> !IsDns(ops[k], slug) && !ops[k].Decide?
  }

  /** Once healthy, only what came after the last decision is unsettled. */
  lemma {:induction false} HealthyMeansSettled(cfg: Config, ops: seq<Op>, i: int)
    requires 0 <= i < |ops| && !After(cfg, ops).degraded
    requires forall k :: i < k < |ops| ==> !ClearsAt(cfg, ops, k)
    ensures forall k :: i < k < |ops| ==> !ops[k].Decide?
  {
    var n := |ops| - 1;
    if i < n {
      var pre := ops[..n];
      assert !ClearsAt(cfg, ops, n);
      assert !ops[n].Decide?;
      forall k | i < k < n ensures !ClearsAt(cfg, pre, k) {
        assert pre[..k] == ops[..k] && !ClearsAt(cfg, ops, k);
      }
      HealthyMeansSettled(cfg, pre, i);
    }
  }

  lemma HeldIffProvisional(cfg: Config, ops: seq<Op>, slug: string, i: int)
    requires !After(cfg, ops).degraded
    ensures HeldAt(cfg, ops, slug, i) <==> ProvisionalAt(ops, slug, i)
  {
    if HeldAt(cfg, ops, slug, i) {
      HealthyMeansSettled(cfg, ops, i);
    }
  }

  // ----- decisions

  /**
   The detector trips exactly when enough monitors have a young unsettled DNS failure and no young probe succeeded.
   */
  lemma EntersIff(cfg: Config, ops: seq<Op>, now: Time)
    requires ClockBelow(ops, now)
    ensures Decided(cfg, After(cfg, ops), now).1.entered <==>
              && !After(cfg, ops).degraded
              && |Failing(cfg, ops, now)| >= cfg.minMonitors && !SuccessYoung(ops, now, cfg.window)
  {
    FreshIsFailing(cfg, ops, now);
    SuccessIsHistory(cfg, ops, now, cfg.window);
  }

  /** Step e tripped, and nothing since has ended the blind spell. */
  ghost predicate BlindSince(cfg: Config, ops: seq<Op>, e: int) {
    0 <= e < |ops| && DecisionAt(cfg, ops, e).entered && forall k :: e < k < |ops| ==> !DecisionAt(cfg, ops, k).exited
  }

  lemma DecisionPrefix(cfg: Config, pre: seq<Op>, op: Op, k: int)
    requires 0 <= k <= |pre|
    ensures k < |pre| ==> DecisionAt(cfg, pre + [op], k) == DecisionAt(cfg, pre, k)
    ensures k == |pre| ==>
              DecisionAt(cfg, pre + [op], k) == if op.Decide? then Decided(cfg, After(cfg, pre), op.now).1 else NOTHING
  {
    assert (pre + [op])[..k] == pre[..k];
    assert k == |pre| ==> pre[..k] == pre;
  }

  lemma BlindSincePrefix(cfg: Config, pre: seq<Op>, op: Op, e: int)
    requires 0 <= e < |pre|
    ensures BlindSince(cfg, pre + [op], e) <==>
              BlindSince(cfg, pre, e) && !(op.Decide? && Decided(cfg, After(cfg, pre), op.now).1.exited)
  {
    var n, ops := |pre|, pre + [op];
    forall k | 0 <= k <= n
      ensures k < n ==> DecisionAt(cfg, ops, k) == DecisionAt(cfg, pre, k)
      ensures k == n ==>
                DecisionAt(cfg, ops, k) == if op.Decide? then Decided(cfg, After(cfg, pre), op.now).1 else NOTHING
    {
      DecisionPrefix(cfg, pre, op, k);
    }
    if BlindSince(cfg, ops, e) {
      assert !DecisionAt(cfg, ops, n).exited;
    }
  }

  ghost predicate Blind(cfg: Config, ops: seq<Op>) {
    exists e :: BlindSince(cfg, ops, e)
  }

  lemma BlindStep(cfg: Config, pre: seq<Op>, op: Op)
    ensures var d := if op.Decide? then Decided(cfg, After(cfg, pre), op.now).1 else NOTHING;
            Blind(cfg, pre + [op]) <==> d.entered || (Blind(cfg, pre) && !d.exited)
    ensures forall e :: BlindSince(cfg, pre + [op], e) ==>
              || (e < |pre| && BlindSince(cfg, pre, e))
              || (e == |pre| && op.Decide? && Decided(cfg, After(cfg, pre), op.now).1.entered)
  {
    var n, ops := |pre|, pre + [op];
    DecisionPrefix(cfg, pre, op, n);
    if e :| BlindSince(cfg, pre, e) {
      BlindSincePrefix(cfg, pre, op, e);
    }
    forall e | BlindSince(cfg, ops, e) && e < n ensures BlindSince(cfg, pre, e) {
      BlindSincePrefix(cfg, pre, op, e);
    }
    if op.Decide? && Decided(cfg, After(cfg, pre), op.now).1.entered {
      assert BlindSince(cfg, ops, n);
    }
    if e :| BlindSince(cfg, ops, e) {
      if e < n { BlindSincePrefix(cfg, pre, op, e); }
    }
  }

  /** Degraded means some decision tripped and none has ended it since; the entry time is that decision's. */
  lemma {:induction false} DegradedIff(cfg: Config, ops: seq<Op>)
    ensures After(cfg, ops).degraded <==> Blind(cfg, ops)
    ensures forall e :: BlindSince(cfg, ops, e) ==> After(cfg, ops).enteredAt == ops[e].now
  {
    if ops != [] {
      var n := |ops| - 1;
      var pre, op := ops[..n], ops[n];
      assert ops == pre + [op];
      DegradedIff(cfg, pre);
      BlindStep(cfg, pre, op);
      forall e | BlindSince(cfg, ops, e) ensures After(cfg, ops).enteredAt == ops[e].now {
        if e < n {
          assert BlindSince(cfg, pre, e) && pre[e] == ops[e] && After(cfg, pre).degraded;
        }
      }
    }
  }

  /**
   A blind spell ends exactly when it has lasted a window, a probe has succeeded recently, and few monitors still fail.
   */
  lemma ExitsIff(cfg: Config, ops: seq<Op>, now: Time)
    requires ClockBelow(ops, now)
    ensures Decided(cfg, After(cfg, ops), now).1.exited <==>
              && (exists e :: BlindSince(cfg, ops, e) && now - ops[e].now >= cfg.window)
              && SuccessYoung(ops, now, cfg.window) && |Failing(cfg, ops, now)| < cfg.minMonitors
  {
    FreshIsFailing(cfg, ops, now);
    SuccessIsHistory(cfg, ops, now, cfg.window);
    DegradedIff(cfg, ops);
  }

  /** Entries and exits alternate, and every blind spell lasts at least a window. */
  lemma SpellsAlternate(cfg: Config, ops: seq<Op>, now: Time)
    ensures Decided(cfg, After(cfg, ops), now).1.entered ==> !Blind(cfg, ops)
    ensures Decided(cfg, After(cfg, ops), now).1.exited ==>
              exists e :: BlindSince(cfg, ops, e) && now >= ops[e].now + cfg.window
  {
    DegradedIff(cfg, ops);
  }

  // ----- commits

  /**
   Outside a blind spell, a monitor that failed since the last decision is committed, or counted into the trip, exactly
   when its latest failure is younger than the window.
   */
  lemma CommittedIffYoung(cfg: Config, ops: seq<Op>, now: Time, slug: string, i: int)
    requires ClockBelow(ops, now) && !After(cfg, ops).degraded && ProvisionalAt(ops, slug, i)
    ensures var d := Decided(cfg, After(cfg, ops), now).1;
            && (slug in d.commit <==> !d.entered && now - ops[i].at < cfg.window)
            && (slug in Failing(cfg, ops, now) <==> now - ops[i].at < cfg.window)
  {
    HeldIffProvisional(cfg, ops, slug, i);
    FreshIsFailing(cfg, ops, now);
    assert now - ops[i].at < cfg.window ==> HeldYoungAt(cfg, ops, now, slug, i);
    if j :| HeldYoungAt(cfg, ops, now, slug, j) {
      HeldIffProvisional(cfg, ops, slug, j);
      assert i == j;
    }
  }

  /** With decisions at most a window apart, no failure reported after the previous decision is lost. */
  lemma NothingLost(cfg: Config, ops: seq<Op>, now: Time, slug: string, i: int, p: int)
    requires ClockBelow(ops, now) && !After(cfg, ops).degraded && ProvisionalAt(ops, slug, i)
    requires 0 <= p < i && ops[p].Decide? && ops[i].at > ops[p].now && now - ops[p].now <= cfg.window
    ensures var d := Decided(cfg, After(cfg, ops), now).1;
            if d.entered then slug in Failing(cfg, ops, now) else slug in d.commit
  {
    CommittedIffYoung(cfg, ops, now, slug, i);
  }

  /** A failure on the very instant of the previous decision is lost when the next comes a full window later. */
  lemma BoundaryFailureLost()
    ensures var cfg := Config(10, 2);
            var ops := [Decide(5), Report("a", Dns, false, 5)];
            ProvisionalAt(ops, "a", 1) && Decided(cfg, After(cfg, ops), 15).1 == NOTHING
  {
    var cfg := Config(10, 2);
    var ops := [Decide(5), Report("a", Dns, false, 5)];
    assert ops[..1] == [Decide(5)] && ops[..1][..0] == [];
    assert After(cfg, ops[..1]).dnsLast == map[] && !After(cfg, ops[..1]).degraded;
    var h := After(cfg, ops);
    assert h.dnsLast == map["a" := 5];
    assert Fresh(h.dnsLast, 15, 10) == map[];
    ListingEmpty({});
    assert Fresh(h.dnsLast, 15, 10).Keys == {};
  }

  /** What is committed was reported since the last decision, while the detector was healthy. */
  lemma {:induction false} CommitsOnlyHealthyReports(cfg: Config, ops: seq<Op>, now: Time, slug: string)
    requires ClockBelow(ops, now) && slug in Decided(cfg, After(cfg, ops), now).1.commit
    ensures exists i :: ProvisionalAt(ops, slug, i) && !After(cfg, ops[..i]).degraded
  {
    var h := After(cfg, ops);
    assert slug in Fresh(h.dnsLast, now, cfg.window).Keys;
    TallyIsHistory(cfg, ops, now, slug);
    var i :| HeldYoungAt(cfg, ops, now, slug, i);
    HeldIffProvisional(cfg, ops, slug, i);
    NoDecisionKeepsMode(cfg, ops, i);
  }

  lemma {:induction false} NoDecisionKeepsMode(cfg: Config, ops: seq<Op>, i: int)
    requires 0 <= i <= |ops| && forall k :: i <= k < |ops| ==> !ops[k].Decide?
    ensures After(cfg, ops[..i]).degraded == After(cfg, ops).degraded
  {
    if i == |ops| {
      assert ops[..i] == ops;
    } else {
      var n := |ops| - 1;
      NoDecisionKeepsMode(cfg, ops[..n], i);
      assert ops[..n][..i] == ops[..i];
    }
  }

  /** Outside a blind spell nothing counts as suppressed. */
  lemma {:induction false} HealthySuppressesNothing(cfg: Config, ops: seq<Op>)
    ensures !After(cfg, ops).degraded ==> After(cfg, ops).suppressed == 0
  {
    if ops != [] {
      HealthySuppressesNothing(cfg, ops[..|ops| - 1]);
    }
  }

  // ----- the suppressed tally

  /** How many DNS failures were reported from step e on. */
  ghost function DnsReports(ops: seq<Op>, e: int): nat
    requires 0 <= e <= |ops|
    decreases |ops|
  {
    if e == |ops| then 0 else
    var n := |ops| - 1;
    DnsReports(ops[..n], e) + Counts(ops[n])
  }

  function Counts(op: Op): nat {
    if op.Report? && IsDns(op, op.slug) then 1 else 0
  }

  lemma DnsReportsSnoc(pre: seq<Op>, op: Op, e: int)
    requires 0 <= e <= |pre|
    ensures DnsReports(pre + [op], e) == DnsReports(pre, e) + Counts(op)
  {
    assert (pre + [op])[..|pre|] == pre;
  }

  /** Blind, a step that does not end the spell counts its failure. */
  lemma BlindStepCounts(cfg: Config, h: Health, op: Op)
    requires h.degraded && !(op.Decide? && Decided(cfg, h, op.now).1.exited)
    ensures Step(cfg, h, op).degraded && Step(cfg, h, op).suppressed == h.suppressed + Counts(op)
  {
  }

  lemma {:induction false} SuppressedIs(cfg: Config, ops: seq<Op>, e: int)
    requires BlindSince(cfg, ops, e)
    ensures After(cfg, ops).degraded
    ensures After(cfg, ops).suppressed ==
              |Fresh(After(cfg, ops[..e]).dnsLast, ops[e].now, cfg.window)| + DnsReports(ops, e + 1)
  {
    var n := |ops| - 1;
    var pre, op := ops[..n], ops[n];
    assert ops == pre + [op];
    if e < n {
      BlindSincePrefix(cfg, pre, op, e);
      SuppressedIs(cfg, pre, e);
      assert pre[..e] == ops[..e];
      BlindStepCounts(cfg, After(cfg, pre), op);
      DnsReportsSnoc(pre, op, e + 1);
    } else {
      DecisionPrefix(cfg, pre, op, n);
      assert ops[..e] == pre;
    }
  }

  /**
   The count reported on exit is the monitors of the trip, plus the failures reported blind, plus the monitors still
   failing on exit, which the second term counted already. It is the number of discarded failures exactly when no
   monitor is still failing.
   */
  lemma ExitTally(cfg: Config, ops: seq<Op>, now: Time, e: int)
    requires ClockBelow(ops, now) && BlindSince(cfg, ops, e) && Decided(cfg, After(cfg, ops), now).1.exited
    requires ClockBelow(ops[..e], ops[e].now)
    ensures var discarded := |Failing(cfg, ops[..e], ops[e].now)| + DnsReports(ops, e + 1);
            var told := Decided(cfg, After(cfg, ops), now).1.suppressed;
            told == discarded + |Failing(cfg, ops, now)| && (told == discarded <==> Failing(cfg, ops, now) == {})
  {
    SuppressedIs(cfg, ops, e);
    FreshIsFailing(cfg, ops, now);
    FreshIsFailing(cfg, ops[..e], ops[e].now);
    var a := Fresh(After(cfg, ops).dnsLast, now, cfg.window);
    var b := Fresh(After(cfg, ops[..e]).dnsLast, ops[e].now, cfg.window);
    assert |a| == |a.Keys| && |b| == |b.Keys|;
  }

  function DnsFailure(slug: string, at: Time): Op {
    Report(slug, Dns, false, at)
  }

  const PAIR := Config(10, 2)
  const TRIP: seq<Op> := [] + [DnsFailure("a", 1)] + [DnsFailure("b", 2)]
  const SPELL: seq<Op> := TRIP + [Decide(5)] + [DnsFailure("a", 14)] + [Report("c", NoFailure, true, 14)]

  lemma RunSnoc(cfg: Config, pre: seq<Op>, op: Op)
    ensures After(cfg, pre + [op]) == Step(cfg, After(cfg, pre), op)
  {
    assert (pre + [op])[..|pre|] == pre;
  }

  /** Two monitors fail, and the decision at 5 trips. */
  lemma TwoTrip()
    ensures After(PAIR, TRIP).dnsLast == map["a" := 1, "b" := 2] && |Failing(PAIR, TRIP, 5)| == 2
    ensures Decided(PAIR, After(PAIR, TRIP), 5) == (Health(true, 5, map[], ZERO, 2), NOTHING.(entered := true))
  {
    RunSnoc(PAIR, [], DnsFailure("a", 1));
    RunSnoc(PAIR, [] + [DnsFailure("a", 1)], DnsFailure("b", 2));
    var h := After(PAIR, TRIP);
    assert h.dnsLast == map["a" := 1, "b" := 2] && !SuccessIn(h, 5, 10);
    assert Fresh(h.dnsLast, 5, 10) == h.dnsLast;
    assert h.dnsLast.Keys == {"a", "b"} && |h.dnsLast| == 2;
    FreshIsFailing(PAIR, TRIP, 5);
  }

  /** A trip by a and b, a failing on blind, a success: the exit tells of four suppressed failures where three were. */
  lemma ExitTellsTooMuch()
    ensures var dec := Decided(PAIR, After(PAIR, SPELL), 15).1;
            && SPELL[..2] == TRIP && BlindSince(PAIR, SPELL, 2) && dec.exited && dec.suppressed == 4
            && |Failing(PAIR, TRIP, 5)| + DnsReports(SPELL, 3) == 3
  {
    TwoTrip();
    var o3 := TRIP + [Decide(5)];
    var o4 := o3 + [DnsFailure("a", 14)];
    RunSnoc(PAIR, TRIP, Decide(5));
    RunSnoc(PAIR, o3, DnsFailure("a", 14));
    RunSnoc(PAIR, o4, Report("c", NoFailure, true, 14));
    assert SPELL[..2] == TRIP && SPELL[..4] == o4 && o4[..3] == o3;
    var h := After(PAIR, SPELL);
    assert h == Health(true, 5, map["a" := 14], 14, 3);
    assert Fresh(h.dnsLast, 15, 10) == h.dnsLast;
    assert DnsReports(o3, 3) == 0 && DnsReports(o4, 3) == 1;
  }

  // ----- the detector

  class Detector {
    const cfg: Config
    var degraded: bool
    var enteredAt: Time
    var dnsLast: map<string, Time>
    var lastSuccess: Time
    var suppressed: nat

    constructor (cfg: Config)
      ensures this.cfg == cfg && View() == HEALTHY
    {
      this.cfg := cfg;
      degraded, enteredAt, dnsLast, lastSuccess, suppressed := false, ZERO, map[], ZERO, 0;
    }

    ghost function View(): Health
      reads this
    {
      Health(degraded, enteredAt, dnsLast, lastSuccess, suppressed)
    }

    method Report(slug: string, kind: FailKind, success: bool, at: Time)
      modifies this
      ensures View() == Reported(old(View()), slug, kind, success, at)
    {
      if success {
        if at > lastSuccess {
          lastSuccess := at;
        }
        return;
      }
      if kind == Dns {
        dnsLast := dnsLast[slug := at];
        if degraded {
          suppressed := suppressed + 1;
        }
      }
    }

    method Decide(now: Time) returns (dec: Decision)
      modifies this
      ensures (View(), dec) == Decided(cfg, old(View()), now)
    {
      Prune(now);
      dec := NOTHING;
      var success := lastSuccess != ZERO && now - lastSuccess < cfg.window;
      if degraded {
        if now - enteredAt >= cfg.window && success && |dnsLast| < cfg.minMonitors {
          degraded, enteredAt := false, ZERO;
          dec := dec.(exited := true, suppressed := suppressed + |dnsLast|);
          suppressed, dnsLast := 0, map[];
        }
        return;
      }
      if !success && |dnsLast| >= cfg.minMonitors {
        degraded, enteredAt := true, now;
        dec := dec.(entered := true);
        suppressed := |dnsLast|;
        dnsLast := map[];
        return;
      }
      ListingEmpty(dnsLast.Keys);
      if |dnsLast| > 0 {
        var commit := CommitList();
        dec := dec.(commit := commit);
        dnsLast := map[];
      }
    }

    /** The provisional monitors, sorted. */
    method CommitList() returns (commit: seq<string>)
      ensures commit == Listing(dnsLast.Keys)
    {
      commit := [];
      var todo := dnsLast.Keys;
      while todo != {}
        invariant todo <= dnsLast.Keys && Collects(commit, dnsLast.Keys - todo)
        decreases |todo|
      {
        var x :| x in todo;
        CollectsOneMore(commit, dnsLast.Keys - todo, x);
        assert dnsLast.Keys - (todo - {x}) == dnsLast.Keys - todo + {x};
        commit := commit + [x];
        todo := todo - {x};
      }
      assert dnsLast.Keys - todo == dnsLast.Keys;
      SortLists(commit, dnsLast.Keys);
      commit := Sort(commit);
    }

    method Prune(now: Time)
      modifies this`dnsLast
      ensures dnsLast == Fresh(old(dnsLast), now, cfg.window)
    {
      var todo := dnsLast.Keys;
      while todo != {}
        invariant todo <= dnsLast.Keys <= old(dnsLast).Keys
        invariant forall x :: x in old(dnsLast) && x !in todo ==> (x in dnsLast <==> now - old(dnsLast)[x] < cfg.window)
        invariant forall x :: x in dnsLast ==> dnsLast[x] == old(dnsLast)[x]
        decreases |todo|
      {
        var x :| x in todo;
        if now - dnsLast[x] >= cfg.window {
          dnsLast := dnsLast - {x};
        }
        todo := todo - {x};
      }
    }
  }
}
