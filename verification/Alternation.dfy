/**
 Where the alternation the dispatcher counts on comes from: a channel fed by the
 incident state machines of its monitors never sees an incident opened twice.
 */
module Alternation {
  import A = Alert
  import opened Dispatch
  import opened DispatchRuns

  predicate LeavesOpen(s: seq<A.Emission>) {
    s != [] && s[|s| - 1].event.kind != A.EventResolve
  }

  /** An open is the first event or follows a resolve. */
  ghost predicate OpensAfterResolve(s: seq<A.Emission>) {
    forall j :: 0 < j < |s| && s[j].event.kind == A.EventOpen ==> s[j - 1].event.kind == A.EventResolve
  }

  /** Whatever state a monitor starts in, it opens an incident only when none is open. */
  lemma {:induction false} MonitorAlternates(row: A.MonitorRow, ticks: seq<A.Tick>)
    requires row.Resumed().Consistent() && A.Clocked(ticks)
    ensures OpensAfterResolve(A.Events(row, ticks))
    ensures LeavesOpen(A.Events(row, ticks)) ==> A.RowAfter(row, ticks).Resumed().status == A.Down
  {
    if ticks != [] {
      var n := |ticks| - 1;
      var before, t := A.RowAfter(row, ticks[..n]), ticks[n];
      MonitorAlternates(row, ticks[..n]);
      A.OnlyChecksMatter(row, ticks[..n]);
      if t.Checked? {
        assert A.TickStep(before, t) == A.TickStep(before.Resumed(), t);
      } else {
        A.ConsistentStep(before, t);
        assert A.Events(row, ticks) == A.Events(row, ticks[..n]);
      }
    }
  }

  /** The events of one monitor that were routed to the channel, in order. */
  function RoutedFor(evs: seq<Event>, slug: string): seq<A.Event> {
    if evs == [] then [] else
    var ev := evs[|evs| - 1];
    RoutedFor(evs[..|evs| - 1], slug) +
    if ev.Route? && ev.e.event.Some? && ev.e.Slug() == slug then [ev.e.event.value] else []
  }

  function EventsOf(s: seq<A.Emission>): seq<A.Event> {
    seq(|s|, i requires 0 <= i < |s| => s[i].event)
  }

  /** The channel carries what some monitor's check cycles raised. */
  ghost predicate FedBy(evs: seq<Event>, slug: string, row: A.MonitorRow, ticks: seq<A.Tick>) {
    row.Resumed().Consistent() && A.Clocked(ticks) && RoutedFor(evs, slug) == EventsOf(A.Events(row, ticks))
  }

  /** Every monitor's routed events come from its own state machine. */
  ghost predicate Fed(evs: seq<Event>) {
    forall slug :: FedFor(evs, slug)
  }

  ghost predicate FedFor(evs: seq<Event>, slug: string) {
    exists row, ticks :: FedBy(evs, slug, row, ticks)
  }

  ghost predicate SoundFor(evs: seq<Event>, slug: string) {
    var s := RoutedFor(evs, slug);
    forall j :: 0 < j < |s| && s[j].kind == A.EventOpen ==> s[j - 1].kind == A.EventResolve
  }

  lemma {:induction false} OpenMeansLastNotResolve(evs: seq<Event>, slug: string)
    requires OpenNow(evs, slug)
    ensures var s := RoutedFor(evs, slug); s != [] && s[|s| - 1].kind != A.EventResolve
  {
    var pre, ev := evs[..|evs| - 1], evs[|evs| - 1];
    assert evs == pre + [ev];
    OpenStep(pre, ev, slug);
    if !Opens(ev, slug) {
      OpenMeansLastNotResolve(pre, slug);
    }
  }

  lemma {:induction false} SoundAlternates(evs: seq<Event>)
    requires forall slug :: SoundFor(evs, slug)
    ensures Alternates(evs)
  {
    if evs != [] {
      var n := |evs| - 1;
      var pre, ev := evs[..n], evs[n];
      forall slug ensures SoundFor(pre, slug) {
        assert SoundFor(evs, slug);
        assert forall j :: 0 <= j < |RoutedFor(pre, slug)| ==> RoutedFor(evs, slug)[j] == RoutedFor(pre, slug)[j];
      }
      SoundAlternates(pre);
      forall j | 0 <= j < |evs| && evs[j].Route? && evs[j].e.Is(A.EventOpen)
        ensures !OpenNow(evs[..j], evs[j].e.Slug())
      {
        if j < n {
          assert pre[j] == evs[j] && pre[..j] == evs[..j];
        } else {
          var slug := ev.e.Slug();
          var s, all := RoutedFor(pre, slug), RoutedFor(evs, slug);
          assert SoundFor(evs, slug) && all == s + [ev.e.event.value];
          assert all[|s|].kind == A.EventOpen;
          assert s != [] ==> all[|s| - 1].kind == A.EventResolve;
          if OpenNow(pre, slug) {
            OpenMeansLastNotResolve(pre, slug);
          }
        }
      }
    }
  }

  lemma FedForSound(evs: seq<Event>, slug: string)
    requires FedFor(evs, slug)
    ensures SoundFor(evs, slug)
  {
    var row, ticks :| FedBy(evs, slug, row, ticks);
    MonitorAlternates(row, ticks);
    var s := A.Events(row, ticks);
    assert forall j {:trigger s[j]} :: 0 <= j < |s| ==> RoutedFor(evs, slug)[j] == s[j].event;
  }

  /** The dispatcher's assumption, discharged: events raised by the monitors' own state machines alternate. */
  lemma FedAlternates(evs: seq<Event>)
    requires Fed(evs)
    ensures Alternates(evs)
  {
    forall slug ensures SoundFor(evs, slug) {
      FedForSound(evs, slug);
    }
    SoundAlternates(evs);
  }

  /** End to end: in a channel fed by its monitors, every open unpaused incident has exactly one owner. */
  lemma FedSingleOwner(s: Settings, c: Channel, evs: seq<Event>, slug: string)
    requires Initial(c) && Fed(evs)
    ensures Owners(After(s, c, evs), slug) <= 1
    ensures LiveNow(evs, slug) ==> Owners(After(s, c, evs), slug) == 1
  {
    FedAlternates(evs);
    SingleOwner(s, c, evs, slug);
  }
}
