/**
 The per-channel sliding-window breaker of the webhook handler: its bucket as a
 value, what holds over every run, and the limiter that keeps one bucket per
 channel.
 */
module Limiter {
  import opened Base

  datatype Bucket = Bucket(approvals: seq<Time>, dropped: nat, lastNotice: Time, engaged: bool)

  const EMPTY := Bucket([], 0, ZERO, false)

  datatype Limits = Limits(perChannel: nat, window: int, noticeEvery: int) {
    /** What the constructor insists on. */
    predicate Sound() {
      perChannel > 0 ==> window > 0 && noticeEvery > 0
    }
  }

  /** Drop leading approvals up to the first one after the cutoff. */
  function DropStale(approvals: seq<Time>, cutoff: Time): seq<Time> {
    if approvals == [] || approvals[0] > cutoff then approvals else DropStale(approvals[1..], cutoff)
  }

  function Pruned(l: Limits, b: Bucket, now: Time): Bucket {
    b.(approvals := DropStale(b.approvals, now - l.window))
  }

  /** One Allow: the new bucket, whether the alert may post, and whether the breaker just engaged. */
  function Allowed(l: Limits, b: Bucket, now: Time): (Bucket, bool, bool) {
    var p := Pruned(l, b, now);
    if |p.approvals| >= l.perChannel then (p.(dropped := p.dropped + 1, engaged := true), false, !p.engaged)
    else (p.(approvals := p.approvals + [now], engaged := false), true, false)
  }

  /** One NoticeDue: the new bucket and the drops it reports. */
  function Noticed(l: Limits, b: Bucket, now: Time): (Bucket, nat) {
    if b.dropped == 0 || (b.lastNotice != ZERO && now - b.lastNotice < l.noticeEvery) then (b, 0)
    else (b.(dropped := 0, lastNotice := now), b.dropped)
  }

  // ----- runs of one bucket

  datatype Op = Allow(now: Time) | NoticeDue(now: Time) | Snapshot(now: Time)

  function Step(l: Limits, b: Bucket, op: Op): Bucket {
    match op
    case Allow(now) => Allowed(l, b, now).0
    case NoticeDue(now) => Noticed(l, b, now).0
    case Snapshot(now) => Pruned(l, b, now)
  }

  function After(l: Limits, ops: seq<Op>): Bucket {
    if ops == [] then EMPTY else Step(l, After(l, ops[..|ops| - 1]), ops[|ops| - 1])
  }

  /** The times of all approvals of a run, oldest first. */
  function Approvals(l: Limits, ops: seq<Op>): seq<Time> {
    if ops == [] then [] else
    var pre, op := ops[..|ops| - 1], ops[|ops| - 1];
    Approvals(l, pre) + if op.Allow? && Allowed(l, After(l, pre), op.now).1 then [op.now] else []
  }

  /** How many alerts a run dropped. */
  function Drops(l: Limits, ops: seq<Op>): nat {
    if ops == [] then 0 else
    var pre, op := ops[..|ops| - 1], ops[|ops| - 1];
    Drops(l, pre) + if op.Allow? && !Allowed(l, After(l, pre), op.now).1 then 1 else 0
  }

  datatype Notice = Notice(at: Time, count: nat)

  /** The notices of a run that reported anything. */
  function Notices(l: Limits, ops: seq<Op>): seq<Notice> {
    if ops == [] then [] else
    var pre, op := ops[..|ops| - 1], ops[|ops| - 1];
    Notices(l, pre) +
    if op.NoticeDue? && Noticed(l, After(l, pre), op.now).1 > 0
    then [Notice(op.now, Noticed(l, After(l, pre), op.now).1)]
    else []
  }

  function Total(ns: seq<Notice>): nat {
    if ns == [] then 0 else Total(ns[..|ns| - 1]) + ns[|ns| - 1].count
  }

  /** The clock never goes back. */
  predicate Monotone(ops: seq<Op>) {
    forall i, j :: 0 <= i < j < |ops| ==> ops[i].now <= ops[j].now
  }

  predicate Until(ops: seq<Op>, now: Time) {
    forall i :: 0 <= i < |ops| ==> ops[i].now <= now
  }

  predicate Ordered(ts: seq<Time>) {
    forall i, j :: 0 <= i < j < |ts| ==> ts[i] <= ts[j]
  }

  /** The times in the half-open interval from lo to hi. */
  function Between(ts: seq<Time>, lo: Time, hi: Time): seq<Time> {
    if ts == [] then [] else (if lo <= ts[0] < hi then [ts[0]] else []) + Between(ts[1..], lo, hi)
  }

  /** The times after the cutoff. */
  function Recent(ts: seq<Time>, cutoff: Time): seq<Time> {
    if ts == [] then [] else (if ts[0] > cutoff then [ts[0]] else []) + Recent(ts[1..], cutoff)
  }

  lemma {:induction false} RecentConcat(a: seq<Time>, b: seq<Time>, cutoff: Time)
    ensures Recent(a + b, cutoff) == Recent(a, cutoff) + Recent(b, cutoff)
  {
    if a == [] {
      assert a + b == b;
    } else {
      assert (a + b)[1..] == a[1..] + b;
      RecentConcat(a[1..], b, cutoff);
    }
  }

  lemma {:induction false} RecentAll(ts: seq<Time>, cutoff: Time)
    requires forall i :: 0 <= i < |ts| ==> ts[i] > cutoff
    ensures Recent(ts, cutoff) == ts
  {
    if ts != [] {
      RecentAll(ts[1..], cutoff);
    }
  }

  lemma {:induction false} RecentTwice(ts: seq<Time>, early: Time, late: Time)
    requires early <= late
    ensures Recent(Recent(ts, early), late) == Recent(ts, late)
  {
    if ts != [] {
      RecentTwice(ts[1..], early, late);
      var head := if ts[0] > early then [ts[0]] else [];
      RecentConcat(head, Recent(ts[1..], early), late);
    }
  }

  /** On an ordered list, dropping the stale head keeps exactly the recent times. */
  lemma {:induction false} DropStaleIsRecent(ts: seq<Time>, cutoff: Time)
    requires Ordered(ts)
    ensures DropStale(ts, cutoff) == Recent(ts, cutoff)
    ensures Ordered(DropStale(ts, cutoff))
    ensures forall i :: 0 <= i < |DropStale(ts, cutoff)| ==> DropStale(ts, cutoff)[i] in ts
  {
    if ts == [] {
    } else if ts[0] > cutoff {
      RecentAll(ts, cutoff);
    } else {
      DropStaleIsRecent(ts[1..], cutoff);
    }
  }

  /** Nothing the bucket forgot is recent now or can become so. */
  ghost predicate Keeps(b: Bucket, all: seq<Time>, cutoff: Time) {
    Ordered(b.approvals) && Agree(b.approvals, all, cutoff)
  }

  predicate Below(ts: seq<Time>, now: Time) {
    forall i :: 0 <= i < |ts| ==> ts[i] <= now
  }

  /** Two lists agree on everything recent from the cutoff on. */
  ghost predicate Agree(a: seq<Time>, b: seq<Time>, cutoff: Time) {
    forall c :: c >= cutoff ==> Recent(a, c) == Recent(b, c)
  }

  /** Forgetting what is stale at the cutoff forgets nothing that matters from then on. */
  lemma RecentAgrees(ts: seq<Time>, kept: seq<Time>, cutoff: Time)
    requires kept == Recent(ts, cutoff)
    ensures Agree(kept, ts, cutoff)
  {
    forall c | c >= cutoff ensures Recent(kept, c) == Recent(ts, c) {
      RecentTwice(ts, cutoff, c);
    }
  }

  lemma PrunedKeeps(l: Limits, b: Bucket, all: seq<Time>, now: Time)
    requires Keeps(b, all, now - l.window) && Below(b.approvals, now)
    ensures Pruned(l, b, now).approvals == Recent(all, now - l.window)
    ensures Keeps(Pruned(l, b, now), all, now - l.window) && Below(Pruned(l, b, now).approvals, now)
  {
    var cutoff, kept := now - l.window, DropStale(b.approvals, now - l.window);
    StaysBelow(b.approvals, cutoff, now);
    RecentAgrees(b.approvals, kept, cutoff);
  }

  lemma StaysBelow(ts: seq<Time>, cutoff: Time, now: Time)
    requires Ordered(ts) && Below(ts, now)
    ensures DropStale(ts, cutoff) == Recent(ts, cutoff)
    ensures Ordered(DropStale(ts, cutoff)) && Below(DropStale(ts, cutoff), now)
  {
    DropStaleIsRecent(ts, cutoff);
    var kept := DropStale(ts, cutoff);
    forall i | 0 <= i < |kept| ensures kept[i] <= now {
      assert kept[i] in ts;
    }
  }

  lemma OrderedGrows(ts: seq<Time>, now: Time)
    requires Ordered(ts) && Below(ts, now)
    ensures Ordered(ts + [now]) && Below(ts + [now], now)
  {
  }

  lemma ApprovalKeeps(b: Bucket, all: seq<Time>, cutoff: Time, now: Time)
    requires Keeps(b, all, cutoff) && Below(b.approvals, now)
    ensures Keeps(b.(approvals := b.approvals + [now]), all + [now], cutoff)
    ensures Below(b.approvals + [now], now)
  {
    OrderedGrows(b.approvals, now);
    forall c | c >= cutoff ensures Recent(b.approvals + [now], c) == Recent(all + [now], c) {
      RecentConcat(b.approvals, [now], c);
      RecentConcat(all, [now], c);
    }
  }

  /** Everything a run maintains up to its latest clock reading. */
  ghost predicate Sane(l: Limits, b: Bucket, all: seq<Time>, now: Time) {
    Keeps(b, all, now - l.window) && Below(b.approvals, now) && Ordered(all) && Below(all, now)
  }

  lemma StepSane(l: Limits, b: Bucket, all: seq<Time>, op: Op)
    requires Sane(l, b, all, op.now)
    ensures Sane(l, Step(l, b, op), all + if op.Allow? && Allowed(l, b, op.now).1 then [op.now] else [], op.now)
  {
    PrunedKeeps(l, b, all, op.now);
    if op.Allow? && Allowed(l, b, op.now).1 {
      ApprovalKeeps(Pruned(l, b, op.now), all, op.now - l.window, op.now);
      OrderedGrows(all, op.now);
    } else {
      assert all + [] == all;
      assert Step(l, b, op).approvals == if op.NoticeDue? then b.approvals else Pruned(l, b, op.now).approvals;
    }
  }

  lemma {:induction false} RunSane(l: Limits, ops: seq<Op>, now: Time)
    requires Monotone(ops) && Until(ops, now)
    ensures Sane(l, After(l, ops), Approvals(l, ops), now)
  {
    if ops != [] {
      var pre, op := ops[..|ops| - 1], ops[|ops| - 1];
      RunSane(l, pre, op.now);
      StepSane(l, After(l, pre), Approvals(l, pre), op);
      assert op.now <= now;
    }
  }

  /**
   The pruned list is exactly the approvals younger than the window, and one is given iff there are fewer than the
   limit.
   */
  lemma AllowsIffRoom(l: Limits, ops: seq<Op>, now: Time)
    requires Monotone(ops + [Allow(now)])
    ensures Pruned(l, After(l, ops), now).approvals == Recent(Approvals(l, ops), now - l.window)
    ensures Allowed(l, After(l, ops), now).1 <==> |Recent(Approvals(l, ops), now - l.window)| < l.perChannel
  {
    var run := ops + [Allow(now)];
    assert run[..|ops|] == ops && run[|ops|].now == now;
    RunSane(l, ops, now);
    PrunedKeeps(l, After(l, ops), Approvals(l, ops), now);
  }

  // ----- no window ever holds more than the limit

  /** Approvals a full limit apart are a full window apart. */
  ghost predicate Spread(l: Limits, ts: seq<Time>) {
    forall i, j :: 0 <= i < j < |ts| && j - i >= l.perChannel ==> ts[j] >= ts[i] + l.window
  }

  /** A recent time makes everything after it recent. */
  lemma RecentCount(ts: seq<Time>, cutoff: Time, i: nat)
    requires Ordered(ts) && i < |ts| && ts[i] > cutoff
    ensures |Recent(ts, cutoff)| >= |ts| - i
  {
    assert ts == ts[..i] + ts[i..];
    RecentConcat(ts[..i], ts[i..], cutoff);
    RecentAll(ts[i..], cutoff);
  }

  lemma SpreadGrows(l: Limits, all: seq<Time>, now: Time)
    requires Spread(l, all) && Ordered(all) && |Recent(all, now - l.window)| < l.perChannel
    ensures Spread(l, all + [now])
  {
    forall i: nat | i < |all| && |all| - i >= l.perChannel ensures all[i] <= now - l.window {
      if all[i] > now - l.window {
        RecentCount(all, now - l.window, i);
      }
    }
  }

  lemma {:induction false} RunSpread(l: Limits, ops: seq<Op>)
    requires Monotone(ops)
    ensures Spread(l, Approvals(l, ops))
  {
    if ops != [] {
      var pre, op := ops[..|ops| - 1], ops[|ops| - 1];
      RunSpread(l, pre);
      RunSane(l, pre, op.now);
      if op.Allow? && Allowed(l, After(l, pre), op.now).1 {
        PrunedKeeps(l, After(l, pre), Approvals(l, pre), op.now);
        SpreadGrows(l, Approvals(l, pre), op.now);
      } else {
        assert Approvals(l, ops) == Approvals(l, pre);
      }
    }
  }

  lemma {:induction false} BetweenConcat(a: seq<Time>, b: seq<Time>, lo: Time, hi: Time)
    ensures Between(a + b, lo, hi) == Between(a, lo, hi) + Between(b, lo, hi)
  {
    if a == [] {
      assert a + b == b;
    } else {
      assert (a + b)[1..] == a[1..] + b;
      BetweenConcat(a[1..], b, lo, hi);
    }
  }

  lemma {:induction false} BetweenBound(ts: seq<Time>, lo: Time, hi: Time)
    ensures |Between(ts, lo, hi)| <= |ts|
    ensures (forall i :: 0 <= i < |ts| ==> ts[i] >= hi) ==> Between(ts, lo, hi) == []
  {
    if ts != [] {
      BetweenBound(ts[1..], lo, hi);
    }
  }

  /** Everything a full limit behind the first time lies a window behind it. */
  lemma SpreadTail(l: Limits, ts: seq<Time>, from: Time)
    requires Spread(l, ts) && |ts| > l.perChannel > 0 && from <= ts[0]
    ensures forall j :: 0 <= j < |ts[l.perChannel..]| ==> ts[l.perChannel..][j] >= from + l.window
  {
    var tail := ts[l.perChannel..];
    forall j | 0 <= j < |tail| ensures tail[j] >= from + l.window {
      assert tail[j] == ts[l.perChannel + j];
    }
  }

  /** From the first time on, only the first of them can lie inside the window. */
  lemma SpreadHead(l: Limits, ts: seq<Time>, from: Time)
    requires Spread(l, ts) && |ts| > l.perChannel > 0 && from <= ts[0]
    ensures |Between(ts, from, from + l.window)| <= l.perChannel
  {
    var head, tail := ts[..l.perChannel], ts[l.perChannel..];
    SpreadTail(l, ts, from);
    assert ts == head + tail;
    BetweenConcat(head, tail, from, from + l.window);
    BetweenBound(head, from, from + l.window);
    BetweenBound(tail, from, from + l.window);
  }

  lemma {:induction false} SpreadBound(l: Limits, ts: seq<Time>, from: Time)
    requires l.perChannel > 0 && Spread(l, ts)
    ensures |Between(ts, from, from + l.window)| <= l.perChannel
  {
    if |ts| <= l.perChannel {
      BetweenBound(ts, from, from + l.window);
    } else if from <= ts[0] {
      SpreadHead(l, ts, from);
    } else {
      SpreadBound(l, ts[1..], from);
    }
  }

  /** Flood bound: no half-open interval of window length holds more approvals than the limit. */
  lemma FloodBound(l: Limits, ops: seq<Op>, from: Time)
    requires Monotone(ops) && l.perChannel > 0
    ensures |Between(Approvals(l, ops), from, from + l.window)| <= l.perChannel
  {
    RunSpread(l, ops);
    SpreadBound(l, Approvals(l, ops), from);
  }

  // ----- drops and notices

  /** Conservation: every drop has been reported by a notice or is still pending. */
  lemma {:induction false} DropsConserved(l: Limits, ops: seq<Op>)
    ensures Drops(l, ops) == Total(Notices(l, ops)) + After(l, ops).dropped
  {
    if ops != [] {
      var pre, op := ops[..|ops| - 1], ops[|ops| - 1];
      DropsConserved(l, pre);
      var b := After(l, pre);
      if op.NoticeDue? && Noticed(l, b, op.now).1 > 0 {
      } else {
        assert Notices(l, ops) == Notices(l, pre);
      }
    }
  }

  predicate NoticesSpaced(l: Limits, ns: seq<Notice>) {
    forall i :: 0 < i < |ns| ==> ns[i].at - ns[i - 1].at >= l.noticeEvery
  }

  /** On a running clock, notices that report anything keep their distance. */
  lemma {:induction false} NoticeSpacing(l: Limits, ops: seq<Op>)
    requires forall i :: 0 <= i < |ops| ==> ops[i].now != ZERO
    ensures NoticesSpaced(l, Notices(l, ops))
    ensures After(l, ops).lastNotice ==
              if Notices(l, ops) == [] then ZERO else Notices(l, ops)[|Notices(l, ops)| - 1].at
    ensures forall i :: 0 <= i < |Notices(l, ops)| ==> Notices(l, ops)[i].at != ZERO && Notices(l, ops)[i].count > 0
  {
    if ops != [] {
      var n := |ops| - 1;
      NoticeSpacing(l, ops[..n]);
      if !(ops[n].NoticeDue? && Noticed(l, After(l, ops[..n]), ops[n].now).1 > 0) {
        assert Notices(l, ops) == Notices(l, ops[..n]);
      }
    }
  }

  /** What is owed: the drops no notice has reported yet. */
  function Owed(l: Limits, ops: seq<Op>): int {
    Drops(l, ops) - Total(Notices(l, ops))
  }

  /**
   On a running clock a notice reports everything that is owed, as soon as something is and the last notice that
   reported anything, if there was one, is far enough back; otherwise it reports nothing.
   */
  lemma NoticeReportsOwed(l: Limits, ops: seq<Op>, now: Time)
    requires forall i :: 0 <= i < |ops| ==> ops[i].now != ZERO
    ensures var told := Notices(l, ops);
            Noticed(l, After(l, ops), now).1 ==
              if Owed(l, ops) > 0 && (told == [] || now - told[|told| - 1].at >= l.noticeEvery) then Owed(l, ops) else 0
  {
    DropsConserved(l, ops);
    NoticeSpacing(l, ops);
  }

  // ----- engaging

  /** Step k asked for an approval and got it, or not. */
  predicate ApprovedAt(l: Limits, ops: seq<Op>, k: int)
    requires 0 <= k < |ops|
  {
    ops[k].Allow? && Allowed(l, After(l, ops[..k]), ops[k].now).1
  }

  predicate DeniedAt(l: Limits, ops: seq<Op>, k: int)
    requires 0 <= k < |ops|
  {
    ops[k].Allow? && !Allowed(l, After(l, ops[..k]), ops[k].now).1
  }

  ghost predicate DeniedSince(l: Limits, ops: seq<Op>, k: int) {
    0 <= k < |ops| && DeniedAt(l, ops, k) && forall j :: k < j < |ops| ==> !ApprovedAt(l, ops, j)
  }

  /** Some alert was denied and none was approved since. */
  ghost predicate Denying(l: Limits, ops: seq<Op>) {
    exists k :: DeniedSince(l, ops, k)
  }

  lemma DenyingStep(l: Limits, pre: seq<Op>, op: Op)
    ensures var b := After(l, pre);
            Denying(l, pre + [op]) <==>
              if op.Allow? then !Allowed(l, b, op.now).1 else Denying(l, pre)
  {
    var n, ops := |pre|, pre + [op];
    assert ops[..n] == pre && ops[n] == op;
    forall k | 0 <= k < n
      ensures DeniedAt(l, ops, k) <==> DeniedAt(l, pre, k)
      ensures ApprovedAt(l, ops, k) <==> ApprovedAt(l, pre, k)
    {
      assert ops[..k] == pre[..k] && ops[k] == pre[k];
    }
    if k :| DeniedSince(l, ops, k) {
      assert k < n ==> DeniedSince(l, pre, k) && !ApprovedAt(l, ops, n);
    }
    if k :| DeniedSince(l, pre, k) {
      assert !ApprovedAt(l, ops, n) ==> DeniedSince(l, ops, k);
    }
    if DeniedAt(l, ops, n) {
      assert DeniedSince(l, ops, n);
    }
  }

  lemma {:induction false} EngagedIsDenying(l: Limits, ops: seq<Op>)
    ensures After(l, ops).engaged <==> Denying(l, ops)
  {
    if ops != [] {
      var n := |ops| - 1;
      EngagedIsDenying(l, ops[..n]);
      DenyingStep(l, ops[..n], ops[n]);
      assert ops[..n] + [ops[n]] == ops;
    }
  }

  /** The breaker announces that it engages on the first denial since the last approval, and only then. */
  lemma JustEngagedIff(l: Limits, ops: seq<Op>, now: Time)
    ensures Allowed(l, After(l, ops), now).2 <==> !Allowed(l, After(l, ops), now).1 && !Denying(l, ops)
  {
    EngagedIsDenying(l, ops);
  }

  // ----- the limiter

  datatype Snap = Snap(inWindow: nat, dropped: nat, engaged: bool)

  /** One bucket per channel, created on the first alert. A zero limit switches the breaker off. */
  class Breaker {
    const limits: Limits
    var buckets: map<string, Bucket>

    constructor (limits: Limits)
      requires limits.Sound()
      ensures this.limits == limits && buckets == map[]
    {
      this.limits, buckets := limits, map[];
    }

    function View(channel: string): Bucket
      reads this
    {
      if channel in buckets then buckets[channel] else EMPTY
    }

    twostate predicate OthersKept(channel: string)
      reads this
    {
      forall c :: c != channel ==> View(c) == old(View(c))
    }

    method Allow(channel: string, now: Time) returns (allowed: bool, justEngaged: bool)
      modifies this
      ensures OthersKept(channel)
      ensures if limits.perChannel == 0 then allowed && !justEngaged && buckets == old(buckets)
              else (View(channel), allowed, justEngaged) == Allowed(limits, old(View(channel)), now)
    {
      if limits.perChannel == 0 {
        return true, false;
      }
      var b := if channel in buckets then buckets[channel] else EMPTY;
      var kept := Prune(b.approvals, now);
      b := b.(approvals := kept);
      if |b.approvals| >= limits.perChannel {
        allowed, justEngaged := false, !b.engaged;
        b := b.(dropped := b.dropped + 1, engaged := true);
      } else {
        allowed, justEngaged := true, false;
        b := b.(approvals := b.approvals + [now], engaged := false);
      }
      buckets := buckets[channel := b];
    }

    method NoticeDue(channel: string, now: Time) returns (n: nat)
      modifies this
      ensures OthersKept(channel)
      ensures if limits.perChannel == 0 then n == 0 && buckets == old(buckets)
              else (View(channel), n) == Noticed(limits, old(View(channel)), now)
    {
      if limits.perChannel == 0 || channel !in buckets || buckets[channel].dropped == 0 {
        return 0;
      }
      var b := buckets[channel];
      if b.lastNotice != ZERO && now - b.lastNotice < limits.noticeEvery {
        return 0;
      }
      n := b.dropped;
      buckets := buckets[channel := b.(dropped := 0, lastNotice := now)];
    }

    /** A diagnostic reading: it says what the next Allow would see and loses no count. */
    method Snapshot(channel: string, now: Time) returns (s: Snap)
      modifies this
      ensures OthersKept(channel)
      ensures if limits.perChannel == 0 then s == Snap(0, 0, false) && buckets == old(buckets)
              else && View(channel) == Pruned(limits, old(View(channel)), now)
                   && s.dropped == old(View(channel)).dropped && s.inWindow == |View(channel).approvals|
                   && s.engaged == !Allowed(limits, old(View(channel)), now).1
    {
      if limits.perChannel == 0 || channel !in buckets {
        return Snap(0, 0, false);
      }
      var kept := Prune(buckets[channel].approvals, now);
      buckets := buckets[channel := buckets[channel].(approvals := kept)];
      s := Snap(|kept|, buckets[channel].dropped, |kept| >= limits.perChannel);
    }

    /** Walk past the stale head of the list and keep the rest. */
    method Prune(approvals: seq<Time>, now: Time) returns (kept: seq<Time>)
      ensures kept == DropStale(approvals, now - limits.window)
    {
      var cutoff := now - limits.window;
      var i := 0;
      while i < |approvals| && approvals[i] <= cutoff
        invariant 0 <= i <= |approvals|
        invariant DropStale(approvals, cutoff) == DropStale(approvals[i..], cutoff)
      {
        assert approvals[i..][1..] == approvals[i + 1..];
        i := i + 1;
      }
      kept := approvals[i..];
    }
  }
}
