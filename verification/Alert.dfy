/**
 One monitor's incident state machine, and the scheduler tick that drives it
 through the persisted row, pauses included.
 */
module Alert {
  import opened Base

  datatype Status = Up | Down | TemporaryPaused

  datatype Outcome = Ok | Fail

  datatype Check = Check(outcome: Outcome, at: Time, statusCode: int, error: string, reminderInterval: int)

  datatype State = State(status: Status, openedAt: Time, lastReminderAt: Time)

  datatype EventKind = EventOpen | EventResolve | EventReminder

  datatype Event = Event(kind: EventKind, at: Time, statusCode: int, error: string, downtime: int)

  function Apply(prev: State, c: Check): (State, Option<Event>) {
    if prev.status == Up && c.outcome == Fail then
      (State(Down, c.at, c.at), Some(Event(EventOpen, c.at, c.statusCode, c.error, 0)))
    else if prev.status == Down && c.outcome == Ok then
      (State(Up, ZERO, ZERO), Some(Event(EventResolve, c.at, 0, "", c.at - prev.openedAt)))
    else if prev.status == Down && c.outcome == Fail
         && c.reminderInterval > 0 && c.at - prev.lastReminderAt >= c.reminderInterval then
      (prev.(lastReminderAt := c.at), Some(Event(EventReminder, c.at, c.statusCode, c.error, 0)))
    else (prev, None)
  }

  /** The persisted monitor row, as far as the state machine reads it. */
  datatype MonitorRow = MonitorRow(
    slug: string, dependsOn: seq<string>, status: Status, openedAt: Option<Time>, lastReminderAt: Option<Time>)
  {
    /** A row an unpaused history can leave behind: an incident is open exactly when it has a birth time. */
    predicate Consistent() {
      && (status == Up ==> openedAt.None?)
      && (status == Down ==> openedAt.Some? && openedAt.value != ZERO)
    }

    /** Restore the pre-pause classification. */
    function Resumed(): MonitorRow {
      if status != TemporaryPaused then this
      else this.(status := if openedAt.Some? then Down else Up)
    }

    function Machine(): State {
      State(status, DerefTime(openedAt), DerefTime(lastReminderAt))
    }

    /** The row after a check left the machine in the given state. */
    function Written(next: State): MonitorRow {
      this.(status := next.status, openedAt := TimePtr(next.openedAt), lastReminderAt := TimePtr(next.lastReminderAt))
    }
  }

  /** What one tick amounts to: gated by a down parent, held back as possible blindness or interrupted, or checked. */
  datatype Tick = ParentDown | NoSignal | Checked(check: Check)

  function TickStep(row: MonitorRow, t: Tick): (MonitorRow, Option<Event>) {
    match t
    case ParentDown => (row.(status := TemporaryPaused), None)
    case NoSignal => (row, None)
    case Checked(c) =>
      var (next, event) := Apply(row.Resumed().Machine(), c);
      (row.Resumed().Written(next), event)
  }

  // ----- runs

  datatype Emission = Emission(event: Event, check: Check)

  function RowAfter(row: MonitorRow, ticks: seq<Tick>): MonitorRow {
    if ticks == [] then row
    else TickStep(RowAfter(row, ticks[..|ticks| - 1]), ticks[|ticks| - 1]).0
  }

  /** The events of a run, each with the check that raised it. */
  function Events(row: MonitorRow, ticks: seq<Tick>): seq<Emission> {
    if ticks == [] then []
    else
      var n := |ticks| - 1;
      Events(row, ticks[..n]) +
      match TickStep(RowAfter(row, ticks[..n]), ticks[n]).1
      case None => []
      case Some(e) => [Emission(e, ticks[n].check)]
  }

  /** The ticks that carried a check. */
  function Checks(ticks: seq<Tick>): seq<Tick> {
    if ticks == [] then []
    else
      var t := ticks[|ticks| - 1];
      Checks(ticks[..|ticks| - 1]) + if t.Checked? then [t] else []
  }

  /** The clock is running: no check carries the unset time. */
  predicate Clocked(ticks: seq<Tick>) {
    forall i :: 0 <= i < |ticks| && ticks[i].Checked? ==> ticks[i].check.at != ZERO
  }

  lemma {:induction false} ConsistentStep(row: MonitorRow, t: Tick)
    requires row.Resumed().Consistent() && (t.Checked? ==> t.check.at != ZERO)
    ensures TickStep(row, t).0.Resumed().Consistent()
    ensures !t.Checked? ==> TickStep(row, t).0.Resumed() == row.Resumed() && TickStep(row, t).1 == None
  {
  }

  lemma {:induction false} OnlyChecksMatter(row: MonitorRow, ticks: seq<Tick>)
    requires row.Resumed().Consistent() && Clocked(ticks)
    ensures Events(row, ticks) == Events(row, Checks(ticks))
    ensures RowAfter(row, ticks).Resumed() == RowAfter(row, Checks(ticks)).Resumed()
    ensures RowAfter(row, ticks).Resumed().Consistent()
  {
    if ticks != [] {
      var n := |ticks| - 1;
      var pre, t := ticks[..n], ticks[n];
      OnlyChecksMatter(row, pre);
      ConsistentStep(RowAfter(row, pre), t);
      if t.Checked? {
      } else {
        assert Checks(ticks) == Checks(pre) && Events(row, ticks) == Events(row, pre);
      }
    }
  }

  /**
   Pause transparency: runs that differ only in their paused and signal-free ticks raise the same events and resume
   alike.
   */
  lemma PauseTransparent(row: MonitorRow, a: seq<Tick>, b: seq<Tick>)
    requires row.Resumed().Consistent() && Clocked(a) && Clocked(b)
    requires Checks(a) == Checks(b)
    ensures Events(row, a) == Events(row, b)
    ensures RowAfter(row, a).Resumed() == RowAfter(row, b).Resumed()
  {
    OnlyChecksMatter(row, a);
    OnlyChecksMatter(row, b);
  }

  // ----- the event grammar

  /** Event j opens exactly when it is the first or follows a resolve. */
  predicate FitsAt(s: seq<Emission>, j: int)
    requires 0 <= j < |s|
  {
    s[j].event.kind == EventOpen <==> j == 0 || s[j - 1].event.kind == EventResolve
  }

  /** Event i opens the incident that is still running just before event j. */
  ghost predicate OpensFor(s: seq<Emission>, i: int, j: int)
    requires j <= |s|
  {
    0 <= i < j && s[i].event.kind == EventOpen && forall k :: i < k < j ==> s[k].event.kind == EventReminder
  }

  /** A resolve reports the gap to its own open. */
  ghost predicate DowntimeAt(s: seq<Emission>, j: int)
    requires 0 <= j < |s|
  {
    s[j].event.kind == EventResolve ==>
      exists i :: OpensFor(s, i, j) && s[j].event.downtime == s[j].event.at - s[i].event.at
  }

  /** A reminder keeps its own interval to the event before it, which is the open or the previous reminder. */
  predicate SpacedAt(s: seq<Emission>, j: int)
    requires 0 <= j < |s|
  {
    s[j].event.kind == EventReminder ==>
      && j > 0 && s[j - 1].event.kind != EventResolve
      && 0 < s[j].check.reminderInterval <= s[j].event.at - s[j - 1].event.at
  }

  /** (Open Reminder* Resolve)*, or a prefix of it. */
  ghost predicate Grammatical(s: seq<Emission>) {
    forall j :: 0 <= j < |s| ==> FitsAt(s, j)
  }

  ghost predicate DowntimesExact(s: seq<Emission>) {
    forall j :: 0 <= j < |s| ==> DowntimeAt(s, j)
  }

  ghost predicate RemindersSpaced(s: seq<Emission>) {
    forall j :: 0 <= j < |s| ==> SpacedAt(s, j)
  }

  ghost predicate Told(row: MonitorRow, s: seq<Emission>) {
    && Grammatical(s) && DowntimesExact(s) && RemindersSpaced(s)
    && (forall i :: 0 <= i < |s| ==> s[i].event.at == s[i].check.at != ZERO)
    && (row.status == Up <==> s == [] || s[|s| - 1].event.kind == EventResolve)
    && (row.status == Down ==>
          && (exists i :: OpensFor(s, i, |s|) && row.openedAt == Some(s[i].event.at))
          && row.lastReminderAt == Some(s[|s| - 1].event.at))
  }

  lemma OpensForExtends(s: seq<Emission>, x: Emission, i: int, j: int)
    requires j <= |s|
    ensures OpensFor(s + [x], i, j) <==> OpensFor(s, i, j)
  {
    assert forall k :: 0 <= k < |s| ==> (s + [x])[k] == s[k];
  }

  /** Appending one event that fits the story so far. */
  lemma StoryExtends(s: seq<Emission>, x: Emission)
    requires Grammatical(s) && DowntimesExact(s) && RemindersSpaced(s)
    requires x.event.kind == EventOpen <==> s == [] || s[|s| - 1].event.kind == EventResolve
    requires x.event.kind == EventResolve ==>
               exists i :: OpensFor(s, i, |s|) && x.event.downtime == x.event.at - s[i].event.at
    requires x.event.kind == EventReminder ==>
               s != [] && 0 < x.check.reminderInterval <= x.event.at - s[|s| - 1].event.at
    ensures Grammatical(s + [x]) && DowntimesExact(s + [x]) && RemindersSpaced(s + [x])
  {
    var t := s + [x];
    forall j | 0 <= j < |t| ensures FitsAt(t, j) && SpacedAt(t, j) && DowntimeAt(t, j) {
      assert j < |s| ==> t[j] == s[j] && FitsAt(s, j) && SpacedAt(s, j) && DowntimeAt(s, j);
      if t[j].event.kind == EventResolve {
        var i :| OpensFor(s, i, j) && t[j].event.downtime == t[j].event.at - s[i].event.at;
        OpensForExtends(s, x, i, j);
      }
    }
  }

  lemma {:induction false} ToldStep(row: MonitorRow, s: seq<Emission>, c: Check)
    requires row.Consistent() && row.status != TemporaryPaused && Told(row, s) && c.at != ZERO
    ensures var r := TickStep(row, Checked(c));
            Told(r.0, s + match r.1 { case None => [] case Some(e) => [Emission(e, c)] })
  {
    var r := TickStep(row, Checked(c));
    if r.1.None? {
      assert s + [] == s;
    } else {
      var x := Emission(r.1.value, c);
      StoryExtends(s, x);
      if row.status == Up {
        assert OpensFor(s + [x], |s|, |s| + 1);
      } else if x.event.kind == EventReminder {
        var i :| OpensFor(s, i, |s|) && row.openedAt == Some(s[i].event.at);
        OpensForExtends(s, x, i, |s|);
        assert OpensFor(s + [x], i, |s| + 1);
      }
    }
  }

  lemma {:induction false} RunTold(row: MonitorRow, ticks: seq<Tick>)
    requires row.status == Up && row.openedAt.None? && Clocked(ticks)
    ensures Told(RowAfter(row, ticks).Resumed(), Events(row, ticks))
  {
    if ticks != [] {
      var n := |ticks| - 1;
      RunTold(row, ticks[..n]);
      OnlyChecksMatter(row, ticks[..n]);
      var b := RowAfter(row, ticks[..n]);
      ConsistentStep(b, ticks[n]);
      if ticks[n].Checked? {
        ToldStep(b.Resumed(), Events(row, ticks[..n]), ticks[n].check);
      } else {
        assert Events(row, ticks) == Events(row, ticks[..n]);
      }
    }
  }

  /** An incident is running: the story has an open that no resolve has followed. */
  predicate Running(s: seq<Emission>) {
    s != [] && s[|s| - 1].event.kind != EventResolve
  }

  /** A running incident is due a reminder at a check: it asks for them, and the last event is far enough back. */
  predicate ReminderDue(s: seq<Emission>, c: Check) {
    Running(s) && c.reminderInterval > 0 && c.at - s[|s| - 1].event.at >= c.reminderInterval
  }

  /** The event a check adds to the story, if any. */
  ghost predicate Adds(s: seq<Emission>, c: Check, added: seq<Emission>) {
    if c.outcome == Fail && !Running(s) then
      added == [Emission(Event(EventOpen, c.at, c.statusCode, c.error, 0), c)]
    else if c.outcome == Ok && Running(s) then
      exists i :: OpensFor(s, i, |s|) && added == [Emission(Event(EventResolve, c.at, 0, "", c.at - s[i].event.at), c)]
    else if c.outcome == Fail && ReminderDue(s, c) then
      added == [Emission(Event(EventReminder, c.at, c.statusCode, c.error, 0), c)]
    else added == []
  }

  /**
   Every check is answered: a failure opens an incident iff none runs, a success resolves one iff it runs, a failure
   reminds iff a reminder is due, and nothing else is said. Pauses and signal-free ticks before it do not matter.
   */
  lemma ChecksAreAnswered(row: MonitorRow, ticks: seq<Tick>, c: Check)
    requires row.status == Up && row.openedAt.None? && Clocked(ticks)
    ensures exists added :: Adds(Events(row, ticks), c, added) &&
              Events(row, ticks + [Checked(c)]) == Events(row, ticks) + added
  {
    RunTold(row, ticks);
    OnlyChecksMatter(row, ticks);
    var s, b := Events(row, ticks), RowAfter(row, ticks);
    ApplyAnswers(b.Resumed(), s, c);
    var r := TickStep(b.Resumed(), Checked(c));
    assert TickStep(b, Checked(c)) == r;
    var added := match r.1 { case None => [] case Some(e) => [Emission(e, c)] };
    assert Adds(s, c, added);
  }

  lemma ApplyAnswers(row: MonitorRow, s: seq<Emission>, c: Check)
    requires row.Consistent() && row.status != TemporaryPaused && Told(row, s)
    ensures Adds(s, c, match TickStep(row, Checked(c)).1 { case None => [] case Some(e) => [Emission(e, c)] })
  {
    if row.status == Down {
      var i :| OpensFor(s, i, |s|) && row.openedAt == Some(s[i].event.at);
    }
  }

  /** Ticks without a check add nothing. */
  lemma OthersAddNothing(row: MonitorRow, ticks: seq<Tick>, t: Tick)
    requires !t.Checked?
    ensures Events(row, ticks + [t]) == Events(row, ticks)
  {
  }

  /** A monitor that starts up tells a well-formed story, through every pause. */
  lemma EventGrammar(row: MonitorRow, ticks: seq<Tick>)
    requires row.status == Up && row.openedAt.None? && Clocked(ticks)
    ensures var s := Events(row, ticks); Grammatical(s) && DowntimesExact(s) && RemindersSpaced(s)
  {
    RunTold(row, ticks);
  }
}
