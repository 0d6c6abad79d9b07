/**
 One scheduler tick as it runs: the dependsOn gate, the in-cycle retries, the
 self-health hold and the write-back of the monitor row.
 */
module Scheduler {
  import opened Base
  import opened Alert

  /** One probe attempt: cut short by shutdown, or a result with its failure class. */
  datatype Probe = Interrupted | Done(code: int, error: string, dns: bool)

  datatype Plan = Plan(slug: string, dependsOn: seq<string>, retries: nat, reminderInterval: int)

  predicate Settles(p: Probe) {
    p.Interrupted? || p.error == ""
  }

  /** Attempt k is the one a tick of the given number of attempts reports: the first to settle, or else the last. */
  ghost predicate Decisive(probe: nat -> Probe, attempts: nat, k: nat) {
    && k < attempts
    && (forall i: nat :: i < k ==> !Settles(probe(i)))
    && (Settles(probe(k)) || k == attempts - 1)
  }

  predicate IsDown(parents: map<string, MonitorRow>, slug: string) {
    slug in parents && parents[slug].status == Down
  }

  /** What a tick amounts to, given what the probes and the parents say. */
  function Meaning(p: Probe, selfHealth: bool, now: Time, plan: Plan): Tick {
    if p.Interrupted? || (selfHealth && p.dns) then NoSignal
    else Checked(Check(if p.error == "" then Ok else Fail, now, p.code, p.error, plan.reminderInterval))
  }

  /**
   What a tick tells the other components besides its event: the digest of a pause, or the self-health detector of a
   probe.
   */
  datatype Notice =
    | NoNotice
    | DigestPause(slug: string, at: Time)
    | HealthReport(slug: string, dns: bool, success: bool, at: Time)

  function NoticeOf(gated: bool, p: Probe, selfHealth: bool, now: Time, plan: Plan): Notice {
    if gated then DigestPause(plan.slug, now)
    else if p.Interrupted? || !selfHealth then NoNotice
    else HealthReport(plan.slug, p.dns, p.error == "", now)
  }

  class Monitor {
    var row: MonitorRow

    constructor (row: MonitorRow)
      ensures this.row == row
    {
      this.row := row;
    }

    /**
     One check cycle. The ghost result is the decisive attempt: a success within the allowed attempts is reported
     as one however many failures came before it.
     */
    method Tick(plan: Plan, parents: map<string, MonitorRow>, probe: nat -> Probe, selfHealth: bool, now: Time)
      returns (event: Option<Event>, notice: Notice, ghost k: nat)
      modifies this
      ensures Decisive(probe, plan.retries + 1, k)
      ensures var gated := exists p :: p in plan.dependsOn && IsDown(parents, p);
              var t := if gated then ParentDown else Meaning(probe(k), selfHealth, now, plan);
              (row, event) == TickStep(old(row), t) && notice == NoticeOf(gated, probe(k), selfHealth, now, plan)
    {
      k := Earliest(probe, plan.retries + 1);
      var gated := AnyParentDown(plan.dependsOn, parents);
      if gated {
        if row.status != TemporaryPaused {
          row := row.(status := TemporaryPaused);
        }
        return None, DigestPause(plan.slug, now), k;
      }
      var attempts := plan.retries + 1;
      var attempt := 0;
      var res := probe(0);
      while attempt < attempts
        invariant 0 <= attempt <= attempts && (attempt == 0 ==> res == probe(0))
        invariant forall i: nat :: i < attempt ==> !Settles(probe(i))
        invariant attempt > 0 ==> res == probe(attempt - 1)
      {
        res := probe(attempt);
        if res.Interrupted? {
          assert k == attempt;
          return None, NoNotice, k;
        }
        if res.error == "" {
          break;
        }
        attempt := attempt + 1;
      }
      assert res == probe(k);
      notice := NoNotice;
      if selfHealth {
        notice := HealthReport(plan.slug, res.dns, res.error == "", now);
        if res.dns {
          return None, notice, k;
        }
      }
      var r := row;
      if r.status == TemporaryPaused {
        if r.openedAt.Some? {
          r := r.(status := Down);
        } else {
          r := r.(status := Up);
        }
      }
      var check := Check(if res.error == "" then Ok else Fail, now, res.code, res.error, plan.reminderInterval);
      var (next, e) := Apply(r.Machine(), check);
      row := r.Written(next);
      return e, notice, k;
    }

    ghost method Earliest(probe: nat -> Probe, attempts: nat) returns (k: nat)
      requires attempts > 0
      ensures Decisive(probe, attempts, k)
    {
      k := 0;
      while k < attempts - 1 && !Settles(probe(k))
        invariant k < attempts && forall i: nat :: i < k ==> !Settles(probe(i))
      {
        k := k + 1;
      }
    }
  }

  /** The gate: unknown parents are skipped, one down parent is enough. */
  method AnyParentDown(parents: seq<string>, rows: map<string, MonitorRow>) returns (down: bool)
    ensures down <==> exists p :: p in parents && IsDown(rows, p)
  {
    for i := 0 to |parents|
      invariant forall j :: 0 <= j < i ==> !IsDown(rows, parents[j])
    {
      if parents[i] !in rows {
        continue;
      }
      if rows[parents[i]].status == Down {
        assert parents[i] in parents && IsDown(rows, parents[i]);
        return true;
      }
    }
    return false;
  }

  /**
   The decisive attempt is unique, so a tick is determined by its inputs; it succeeds iff some attempt does before any
   interruption.
   */
  lemma DecisiveSucceedsIff(probe: nat -> Probe, attempts: nat, k: nat)
    requires Decisive(probe, attempts, k)
    ensures forall l :: Decisive(probe, attempts, l) ==> l == k
    ensures probe(k).Done? && probe(k).error == "" <==>
              exists i: nat :: i < attempts && probe(i).Done? && probe(i).error == ""
                               && forall j: nat :: j < i ==> !probe(j).Interrupted?
  {
  }

  /**
   What a tick that was not gated means, attempt by attempt: an interruption and, under self-health, a DNS failure leave
   the row and the story alone; every other result is a check of the outcome, code and error the probe gave.
   */
  lemma DecisiveProbeMeans(row: MonitorRow, ticks: seq<Tick>, p: Probe, selfHealth: bool, now: Time, plan: Plan)
    ensures var t := Meaning(p, selfHealth, now, plan);
            var held := p.Interrupted? || (selfHealth && p.dns);
            && (held ==> TickStep(row, t) == (row, None) && Events(row, ticks + [t]) == Events(row, ticks))
            && (!held ==>
                  var outcome := if p.error == "" then Ok else Fail;
                  t == Checked(Check(outcome, now, p.code, p.error, plan.reminderInterval)))
  {
    var t := Meaning(p, selfHealth, now, plan);
    if p.Interrupted? || (selfHealth && p.dns) {
      OthersAddNothing(row, ticks, t);
    }
  }

  /** A failing probe of an up monitor that is not held back opens an incident with the probe's code and error. */
  lemma FailureOpens(row: MonitorRow, ticks: seq<Tick>, p: Probe, selfHealth: bool, now: Time, plan: Plan)
    requires row.status == Up && row.openedAt.None? && Clocked(ticks) && !Running(Events(row, ticks))
    requires p.Done? && p.error != "" && !(selfHealth && p.dns)
    ensures var s := Events(row, ticks + [Meaning(p, selfHealth, now, plan)]);
            && |s| == |Events(row, ticks)| + 1
            && s[|s| - 1].event == Event(EventOpen, now, p.code, p.error, 0)
  {
    ChecksAreAnswered(row, ticks, Meaning(p, selfHealth, now, plan).check);
  }

  /**
   The self-health detector hears of every probe that was not gated or interrupted, the digest of every gated tick.
   */
  lemma WhoIsTold(gated: bool, p: Probe, selfHealth: bool, now: Time, plan: Plan)
    ensures var n := NoticeOf(gated, p, selfHealth, now, plan);
            && (n.DigestPause? <==> gated)
            && (n.HealthReport? <==> !gated && selfHealth && p.Done?)
            && (n.HealthReport? ==>
                  n.slug == plan.slug && n.dns == p.dns && n.success == (p.error == "") && n.at == now)
  {
  }
}
