/**
 The manager as it runs, channel by channel: the pool, the burst count, the
 notifier's claims and the live group are fields that every operation updates in
 place. Each method is one critical section of the manager's lock; the sink
 calls it asks for happen after it returns.
 */
module ChannelManager {
  import opened Base
  import A = Alert
  import G = Digest
  import opened GroupMachine
  import opened Persistence
  import opened Dispatch
  import opened DispatchRuns
  import opened CrashRuns

  /** The configured waits: unset values get their defaults, and the burst window covers at least one pool. */
  function Configure(
    channel: string, pendingWait: int, burstThreshold: int, burstWindow: int, cfg: G.Config): (s: Settings)
    ensures s.burstWindow >= s.pendingWait > 0
    ensures s.pendingWait == if pendingWait > 0 then pendingWait else 30 * SECOND
    ensures s.burstWindow > s.pendingWait ==> s.burstWindow == if burstWindow > 0 then burstWindow else 5 * MINUTE
    ensures s.burstWindow == s.pendingWait ==> (if burstWindow > 0 then burstWindow else 5 * MINUTE) <= s.pendingWait
    ensures s.channel == channel && s.burstThreshold == burstThreshold && s.group == cfg
    ensures pendingWait > 0 && burstWindow >= pendingWait ==>
              s == Settings(channel, pendingWait, burstThreshold, burstWindow, cfg)
  {
    var pw := if pendingWait <= 0 then 30 * SECOND else pendingWait;
    var bw := if burstWindow <= 0 then 5 * MINUTE else burstWindow;
    Settings(channel, pw, burstThreshold, if bw < pw then pw else bw, cfg)
  }

  /**
   A crash and restart: a new dispatcher over the same store finds the group as of the last save, and nothing else.
   */
  method Restart(d: Dispatcher) returns (n: Dispatcher)
    requires d.Valid()
    ensures fresh(n) && n.Valid() && n.Attached() && n.s == d.s && n.stored == d.stored && Initial(n.View())
    ensures forall saved :: d.Holds(saved) && Restorable(d.s, saved) ==> n.View() == Reborn(saved)
  {
    n := new Dispatcher(d.s, d.stored);
    assert forall saved :: d.Holds(saved) ==> n.Holds(saved);
    n.Reattach();
  }

  class Dispatcher {
    const s: Settings

    var mode: Mode
    var pending: Pool
    var pendingDue: Time
    var down: map<string, Time>
    var individual: set<string>

    var live: Group?
    var liveId: int

    /** The store's open incident group of this channel. */
    var stored: Option<GroupRow>
    var nextId: int

    constructor (s: Settings, stored: Option<GroupRow>)
      requires stored.Some? ==> stored.value.channelSlug == s.channel && !stored.value.closed
      ensures Valid() && View() == FRESH && this.s == s && this.stored == stored && live == null
    {
      this.s, this.stored := s, stored;
      mode, pending, pendingDue, down, individual := Individual, map[], ZERO, map[], {};
      live, liveId, nextId := null, 0, 1;
    }

    ghost function Objects(): set<object>
      reads this
    {
      if live == null then {this} else {this, live}
    }

    ghost predicate Valid()
      reads this, Objects()
    {
      && (live != null ==> live.View().Keyed() && live.channel == s.channel && live.cfg == s.group.WithDefaults())
      && (live == null ==> mode != Grouped)
      && PoolFiled(pending)
      && (stored.Some? ==> stored.value.channelSlug == s.channel && !stored.value.closed)
    }

    /** The open group of the store, if any, is live. */
    predicate Attached()
      reads this
    {
      stored.Some? ==> live != null
    }

    /**
     The dispatcher state; a live group means group mode, whether or not the channel was routed to since it reattached.
     */
    ghost function View(): Channel
      reads this, Objects()
    {
      Channel(if live != null then Grouped else mode, pending, pendingDue, down, individual,
              if live != null then Some(live.View()) else None)
    }

    /** The store's open group is a row of the given one. */
    ghost predicate Holds(saved: Option<G.GroupState>)
      reads this
    {
      if saved.None? then stored.None? else stored.Some? && IsRowOf(stored.value, stored.value.id, saved.value)
    }

    /** Startup: make the store's open group live again. */
    method Reattach()
      requires Valid() && View() == FRESH
      modifies this
      ensures Valid() && Attached() && Initial(View()) && stored == old(stored) && fresh(Objects() - {this})
      ensures View() ==
              if stored.Some? then FRESH.(mode := Grouped, group := Some(FromRow(stored.value, s.group))) else FRESH
      ensures forall saved :: Holds(saved) && Restorable(s, saved) ==> View() == Reborn(saved)
    {
      forall saved | Holds(saved) && Restorable(s, saved) && saved.Some?
        ensures FromRow(stored.value, s.group) == saved.value
      {
        RowRoundTrip(stored.value, stored.value.id, saved.value, s.group);
      }
      if stored.Some? {
        live := LoadGroup(stored.value, s.group);
        liveId := stored.value.id;
        MembersOfKeyed(stored.value.members);
      }
    }

    /** Every operation first brings a reattached channel into group mode. */
    method Normalize()
      requires Valid()
      modifies this`mode
      ensures Valid() && View() == old(View()) && mode == View().mode
    {
      if live != null && mode != Grouped {
        mode := Grouped;
      }
    }

    /** The group a failure at the given time joins: live, stored, or born then. */
    ghost function GroupFor(at: Time): G.GroupState
      reads this, Objects()
    {
      if live != null then live.View()
      else if stored.Some? then FromRow(stored.value, s.group)
      else G.New(s.channel, at, s.group)
    }

    /** The live group: already in memory, read back from the store, or newly created there. */
    method EnsureGroup(at: Time) returns (g: Group)
      modifies this`live, this`liveId, this`stored, this`nextId
      ensures live == g && (old(live) == g || fresh(g))
      ensures g.View() == old(GroupFor(at))
      ensures old(live) != null ==> g == old(live) && stored == old(stored) && liveId == old(liveId)
      ensures old(live) == null && old(stored).None? ==> stored == Some(Created(liveId, s.channel, at).header)
      ensures old(stored).Some? ==> stored == old(stored)
    {
      if live != null {
        return live;
      }
      if stored.Some? {
        g := LoadGroup(stored.value, s.group);
        live, liveId := g, stored.value.id;
        return;
      }
      var id := nextId;
      nextId := nextId + 1;
      stored := Some(Created(id, s.channel, at).header);
      g := new Group(s.channel, at, s.group);
      live, liveId := g, id;
    }

    method RouteOpen(e: Entry)
      requires Valid() && e.Is(A.EventOpen)
      modifies Objects()
      ensures Valid() && (old(Attached()) ==> Attached()) && fresh(Objects() - old(Objects())) && stored == old(stored)
      ensures Outcome(View(), {}, []) == Opened(s, old(View()), e)
    {
      var slug, at := e.Slug(), e.event.value.at;
      Normalize();
      down := down[slug := at];
      match mode {
        case Grouped =>
          var g := EnsureGroup(at);
          g.MarkDown(slug, at);
        case Individual =>
          mode := Pending;
          pendingDue := at + s.pendingWait;
          pending := map[slug := PendingEntry(e, at)];
        case Pending =>
          pending := pending[slug := PendingEntry(e, at)];
      }
    }

    /** Take a monitor out of the pool; an emptied pool ends the pending window. */
    method Retract(slug: string)
      requires Valid() && live == null
      modifies this`mode, this`pending, this`pendingDue
      ensures Valid() && View() == old(View()).Retracted(slug)
    {
      pending := pending - {slug};
      if |pending| == 0 {
        mode, pending, pendingDue := Individual, map[], ZERO;
      }
    }

    method RouteResolve(e: Entry) returns (send: bool)
      requires Valid() && e.Is(A.EventResolve)
      modifies Objects()
      ensures Valid() && Objects() == old(Objects()) && stored == old(stored)
      ensures Outcome(View(), if send then {e} else {}, []) == Resolved(old(View()), e)
    {
      var slug := e.Slug();
      Normalize();
      var owned := slug in individual;
      down := down - {slug};
      individual := individual - {slug};
      if owned {
        return true;
      }
      match mode {
        case Grouped =>
          if slug !in live.members {
            return true;
          }
          live.MarkUp(slug, e.event.value.at);
          return false;
        case Pending =>
          Retract(slug);
          return false;
        case Individual =>
          return true;
      }
    }

    method RouteReminder(e: Entry) returns (send: bool)
      requires Valid() && e.Is(A.EventReminder)
      modifies this`mode
      ensures Valid() && View() == old(View())
      ensures Outcome(View(), if send then {e} else {}, []) == Reminded(old(View()), e)
    {
      Normalize();
      var carried := live != null && e.Slug() in live.members;
      send := e.Slug() in individual || mode == Individual || (mode == Grouped && !carried);
    }

    /** The dispatcher entry: route one alert event, and say whether it goes to the per-monitor sink now. */
    method Route(e: Entry) returns (send: bool)
      requires Valid()
      modifies Objects()
      ensures Valid() && (old(Attached()) ==> Attached()) && fresh(Objects() - old(Objects())) && stored == old(stored)
      ensures Outcome(View(), if send then {e} else {}, []) == Routed(s, old(View()), e)
    {
      if e.event.None? {
        return false;
      }
      match e.event.value.kind {
        case EventOpen =>
          RouteOpen(e);
          return false;
        case EventResolve =>
          send := RouteResolve(e);
        case EventReminder =>
          send := RouteReminder(e);
      }
    }

    method Pause(slug: string, at: Time)
      requires Valid()
      modifies Objects()
      ensures Valid() && Objects() == old(Objects()) && stored == old(stored)
      ensures View() == Paused(old(View()), slug, at)
    {
      Normalize();
      down := down - {slug};
      match mode {
        case Grouped =>
          if live != null {
            live.MarkPaused(slug, at);
          }
        case Pending =>
          Retract(slug);
        case Individual =>
      }
    }

    /** Drop the failures older than the burst window. */
    method PruneDown(now: Time)
      modifies this`down
      ensures down == Fresh(old(down), now, s.burstWindow)
    {
      var todo := down.Keys;
      while todo != {}
        invariant todo <= down.Keys <= old(down).Keys
        invariant forall x :: x in old(down) && x !in todo ==> (x in down <==> now - old(down)[x] < s.burstWindow)
        invariant forall x :: x in down ==> down[x] == old(down)[x]
        decreases |todo|
      {
        var x :| x in todo;
        if now - down[x] >= s.burstWindow {
          down := down - {x};
        }
        todo := todo - {x};
      }
    }

    /** The size of the burst: what is counted down, and what the pool adds to it. */
    method BurstSize() returns (n: nat)
      ensures n == |down.Keys + pending.Keys|
    {
      n := |down.Keys|;
      var todo := pending.Keys;
      ghost var seen := down.Keys;
      while todo != {}
        invariant todo <= pending.Keys && n == |seen|
        invariant forall x :: x in seen <==> x in down || (x in pending && x !in todo)
        decreases |todo|
      {
        var x :| x in todo;
        if x !in down {
          n := n + 1;
          seen := seen + {x};
        }
        todo := todo - {x};
      }
      assert seen == down.Keys + pending.Keys;
    }

    /** The pool's first failure, or now. */
    method FirstEntered(now: Time) returns (earliest: Time)
      ensures earliest == Earliest(pending, now)
    {
      earliest := now;
      var todo := pending.Keys;
      while todo != {}
        invariant todo <= pending.Keys
        invariant earliest <= now && forall x :: x in pending && x !in todo ==> earliest <= pending[x].enteredAt
        invariant earliest == now || exists x :: x in pending && pending[x].enteredAt == earliest
        decreases |todo|
      {
        var x :| x in todo;
        if pending[x].enteredAt < earliest {
          earliest := pending[x].enteredAt;
        }
        todo := todo - {x};
      }
    }

    /** Mark every pool member down in the group, in whatever order the map yields them. */
    static method JoinPool(pool: Pool, g: Group)
      requires PoolFiled(pool)
      modifies g
      ensures g.View() == Joined(old(g.View()), pool)
    {
      ghost var before := g.View();
      var todo := pool.Keys;
      while todo != {}
        invariant todo <= pool.Keys && PartJoined(before, g.View(), pool, todo)
        decreases |todo|
      {
        var x :| x in todo;
        PartJoinedStep(before, g.View(), pool, todo, x);
        g.MarkDown(pool[x].entry.member.slug, pool[x].enteredAt);
        todo := todo - {x};
      }
      PartJoinedDone(before, g.View(), pool);
    }

    /** Hand the pool's incidents to the per-monitor notifier, which will send each entry once. */
    method TakePool() returns (entries: seq<Entry>)
      requires PoolFiled(pending)
      modifies this`individual
      ensures individual == old(individual) + pending.Keys
      ensures (set e | e in entries) == Entries(pending) && |entries| == |pending|
    {
      entries := [];
      var todo := pending.Keys;
      while todo != {}
        invariant todo <= pending.Keys
        invariant forall x :: x in individual <==> x in old(individual) || (x in pending && x !in todo)
        invariant forall e :: e in entries <==> exists x :: x in pending && x !in todo && pending[x].entry == e
        invariant |entries| == |pending.Keys| - |todo|
        decreases |todo|
      {
        var x :| x in todo;
        entries := entries + [pending[x].entry];
        individual := individual + {pending[x].entry.member.slug};
        todo := todo - {x};
      }
    }

    predicate PoolPromotes(c: Channel, now: Time) {
      c.mode == Pending && c.pending != map[] && Promotes(s, c, now)
    }

    /**
     An expired pool, after any parent probes: discard it if it drained, promote it to the digest, or flush it to the
     sink. The channel is unlocked before this runs and while the entries are sent, so other steps may come in between.
     A pool promoted while the store holds an open group that was not reattached joins that group.
     */
    method ExpirePending(now: Time) returns (entries: seq<Entry>, actions: seq<G.Action>)
      requires Valid()
      modifies Objects()
      ensures Valid() && (old(Attached()) ==> Attached()) && fresh(Objects() - old(Objects()))
      ensures old(Attached()) || !PoolPromotes(old(View()), now) ==>
                Outcome(View(), (set e | e in entries), actions) == Expired(s, old(View()), now)
      ensures !old(Attached()) && PoolPromotes(old(View()), now) ==>
                var r := G.Opened(Joined(FromRow(old(stored).value, s.group), old(pending)), now);
                var c := old(View()).(down := Fresh(old(down), now, s.burstWindow)).Idle();
                && View() == c.(mode := Grouped, group := Some(r.0))
                && entries == [] && actions == r.1
      ensures |entries| == |(set e | e in entries)|
      ensures if !PoolPromotes(old(View()), now) then stored == old(stored) else old(Attached()) ==> Holds(View().group)
    {
      entries, actions := [], [];
      if live != null || mode != Pending {
        return;
      }
      if |pending| == 0 {
        mode, pending, pendingDue := Individual, map[], ZERO;
        return;
      }
      PruneDown(now);
      var burst := BurstSize();
      assert View() == old(View()).(down := Fresh(old(down), now, s.burstWindow));
      assert Promotes(s, old(View()), now) <==> s.burstThreshold > 0 && burst >= s.burstThreshold;
      if s.burstThreshold > 0 && burst >= s.burstThreshold {
        actions := Promote(now);
        return;
      }
      entries := Flush();
    }

    /** Send the pool as individual pages. */
    method Flush() returns (entries: seq<Entry>)
      requires Valid() && live == null
      modifies this
      ensures Valid() && live == null && stored == old(stored)
      ensures View() == old(View()).Idle().(individual := old(individual) + old(pending).Keys)
      ensures (set e | e in entries) == Entries(old(pending)) && |entries| == |(set e | e in entries)|
    {
      entries := TakePool();
      EntriesDistinct(pending);
      mode, pending, pendingDue := Individual, map[], ZERO;
    }

    /** Let the pool join the group and post its digest unless it is posted already. */
    static method PostPool(pool: Pool, g: Group, now: Time) returns (actions: seq<G.Action>)
      requires PoolFiled(pool)
      modifies g
      ensures var r := G.Opened(Joined(old(g.View()), pool), now); g.View() == r.0 && actions == r.1
    {
      JoinPool(pool, g);
      var action := g.Open(now);
      actions := if action.Some? then [action.value] else [];
    }

    /** Turn the pool into a digest, posted at once: the pool already did the waiting. */
    method Promote(now: Time) returns (actions: seq<G.Action>)
      requires Valid() && live == null
      modifies this
      ensures Valid() && Attached() && fresh(Objects() - {this})
      ensures var r := G.Opened(Joined(old(GroupFor(Earliest(pending, now))), old(pending)), now);
              View() == old(View()).Idle().(mode := Grouped, group := Some(r.0)) && actions == r.1
      ensures old(Attached()) ==> Holds(View().group)
    {
      var earliest := FirstEntered(now);
      if stored.Some? {
        MembersOfKeyed(stored.value.members);
      }
      PostedPoolKeyed(GroupFor(earliest), pending, now);
      var g := EnsureGroup(earliest);
      actions := PostPool(pending, g, now);
      if actions != [] {
        Save();
      }
      mode, pending, pendingDue := Grouped, map[], ZERO;
    }

    /** Persist the live group; a closed group is no longer among the open ones. */
    method Save()
      requires live != null && live.View().Keyed()
      modifies this`stored
      ensures if live.closed then stored == None else stored.Some? && IsRowOf(stored.value, liveId, live.View())
    {
      var row := ToRow(liveId, live);
      stored := if row.closed then None else Some(row);
    }

    /** One evaluation of the live group: advance it, persist it, and retire the channel when the group is done. */
    method EvaluateGroup(now: Time) returns (actions: seq<G.Action>)
      requires Valid() && (live != null ==> !live.closed)
      modifies Objects()
      ensures Valid() && (old(Attached()) ==> Attached()) && Objects() <= old(Objects())
      ensures Outcome(View(), {}, actions) == Evaluated(old(View()), now)
      ensures live != null ==> stored.Some? && IsRowOf(stored.value, liveId, live.View())
      ensures if old(live) == null then stored == old(stored) else Holds(View().group)
    {
      if live == null {
        return [];
      }
      var retire;
      actions, retire := Advance(now);
      if retire {
        RetireChannel();
      }
    }

    /** One evaluator pass over the channel when nothing else comes in between: a due pool first, then the group. */
    method EvaluatorPass(now: Time) returns (entries: seq<Entry>, actions: seq<G.Action>)
      requires Valid() && Attached() && (live != null ==> !live.closed)
      modifies Objects()
      ensures Valid() && Attached() && fresh(Objects() - old(Objects()))
      ensures Outcome(View(), (set e | e in entries), actions) == Passed(s, old(View()), now)
    {
      entries, actions := [], [];
      if live == null && mode == Pending && now >= pendingDue {
        entries, actions := ExpirePending(now);
      }
      var more := EvaluateGroup(now);
      actions := actions + more;
    }

    /** Evaluate and persist the live group, and say whether it is done. */
    method Advance(now: Time) returns (actions: seq<G.Action>, retire: bool)
      requires Valid() && live != null && !live.closed
      modifies live, this`stored
      ensures Valid() && View() == old(View()).(group := Some(live.View()))
      ensures (live.View(), actions) == G.Evaluated(old(live.View()), now)
      ensures retire <==> Retires(actions)
      ensures if retire then stored.None? else stored.Some? && IsRowOf(stored.value, liveId, live.View())
    {
      G.EvaluatedKeeps(live.View(), now);
      ClosedIffRetires(live.View(), now);
      actions := live.Evaluate(now);
      retire := Retire(actions);
      Save();
    }

    /** Back to individual mode once the group is gone. */
    method RetireChannel()
      requires Valid() && stored.None?
      modifies this
      ensures Valid() && live == null && stored == None && View() == Retired(old(View()))
    {
      live := null;
      mode, pending, pendingDue := Individual, map[], ZERO;
      ForgetUnowned();
    }

    method Retire(actions: seq<G.Action>) returns (retire: bool)
      ensures retire <==> Retires(actions)
    {
      retire := false;
      for i := 0 to |actions|
        invariant retire <==> exists j :: 0 <= j < i && (actions[j].kind == G.Close || actions[j].kind == G.Discard)
      {
        if actions[i].kind == G.Discard || actions[i].kind == G.Close {
          retire := true;
        }
      }
    }

    /** The digest accounted for everything it covered; what the notifier owns stays counted. */
    method ForgetUnowned()
      modifies this`down
      ensures down == map x | x in old(down) && x in individual :: old(down)[x]
    {
      var todo := down.Keys;
      while todo != {}
        invariant todo <= down.Keys <= old(down).Keys
        invariant forall x :: x in old(down) && x !in todo ==> (x in down <==> x in individual)
        invariant forall x :: x in down ==> down[x] == old(down)[x]
        decreases |todo|
      {
        var x :| x in todo;
        if x !in individual {
          down := down - {x};
        }
        todo := todo - {x};
      }
    }
  }

  /** All but the given part of the pool has joined. */
  ghost predicate PartJoined(before: G.GroupState, g: G.GroupState, pool: Pool, todo: set<string>) {
    && g == before.(members := g.members)
    && g.members.Keys == before.members.Keys + (pool.Keys - todo)
    && forall x :: x in g.members ==>
         g.members[x] ==
         if x in pool && x !in todo then G.DownMember(before.members, x, pool[x].enteredAt) else before.members[x]
  }

  lemma PartJoinedStep(before: G.GroupState, g: G.GroupState, pool: Pool, todo: set<string>, x: string)
    requires todo <= pool.Keys && x in todo && PartJoined(before, g, pool, todo)
    ensures PartJoined(before, G.MarkedDown(g, x, pool[x].enteredAt), pool, todo - {x})
  {
  }

  lemma PartJoinedDone(before: G.GroupState, g: G.GroupState, pool: Pool)
    requires PartJoined(before, g, pool, {})
    ensures g == Joined(before, pool)
  {
  }

  /** A pool that joins and posts leaves the group filed by slug, under its own channel and intervals. */
  lemma PostedPoolKeyed(g: G.GroupState, pool: Pool, now: Time)
    requires g.Keyed() && PoolFiled(pool)
    ensures var h := G.Opened(Joined(g, pool), now).0;
            h.Keyed() && h.channel == g.channel && h.cfg == g.cfg && (g.closed <==> h.closed)
  {
  }
}
