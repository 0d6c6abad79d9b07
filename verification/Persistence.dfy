/**
 The persisted form of a live group, and the restart that reads it back.
 */
module Persistence {
  import opened Base
  import opened Sorting
  import opened Digest
  import opened GroupMachine

  datatype MemberRow = MemberRow(
    monitorSlug: string, state: MemberState, joinedAt: Time, downSince: Option<Time>,
    upSince: Option<Time>, changedAt: Time, rendered: RenderClass)

  datatype GroupRow = GroupRow(
    id: int, channelSlug: string, openedAt: Time, digestChannel: string, digestTS: string, posted: bool,
    closed: bool, lastFlushAt: Option<Time>, lastReminderAt: Option<Time>, members: seq<MemberRow>)

  function RowOfMember(m: Member): MemberRow {
    MemberRow(m.slug, m.state, m.joinedAt, TimePtr(m.downSince), TimePtr(m.upSince), m.changedAt, m.rendered)
  }

  function MemberOfRow(r: MemberRow): Member {
    Member(r.monitorSlug, r.state, r.joinedAt, DerefTime(r.downSince), DerefTime(r.upSince), r.changedAt, r.rendered)
  }

  /** rows holds one row per member, in any order. */
  ghost predicate RowsOf(rows: seq<MemberRow>, ms: Members) {
    && (forall i, j :: 0 <= i < j < |rows| ==> rows[i].monitorSlug != rows[j].monitorSlug)
    && (forall r :: r in rows ==> r.monitorSlug in ms && r == RowOfMember(ms[r.monitorSlug]))
    && (forall s :: s in ms ==> RowOfMember(ms[s]) in rows)
  }

  ghost predicate IsRowOf(row: GroupRow, id: int, g: GroupState) {
    && row == GroupRow(id, g.channel, g.openedAt, g.digestChannel, g.digestTS, g.posted, g.closed,
                       TimePtr(g.lastFlushAt), TimePtr(g.lastReminderAt), row.members)
    && RowsOf(row.members, g.members)
  }

  /** The member map a list of rows rebuilds; a later row for the same slug wins. */
  function MembersOf(rows: seq<MemberRow>): Members {
    if rows == [] then map[]
    else
      var r := rows[|rows| - 1];
      MembersOf(rows[..|rows| - 1])[r.monitorSlug := MemberOfRow(r)]
  }

  /** The group a persisted row rehydrates under the current configuration. */
  function FromRow(row: GroupRow, cfg: Config): GroupState {
    New(row.channelSlug, row.openedAt, cfg).(
      digestChannel := row.digestChannel, digestTS := row.digestTS, posted := row.posted, closed := row.closed,
      lastFlushAt := DerefTime(row.lastFlushAt), lastReminderAt := DerefTime(row.lastReminderAt),
      members := MembersOf(row.members))
  }

  lemma {:induction false} MembersOfKeyed(rows: seq<MemberRow>)
    ensures forall s :: s in MembersOf(rows) ==> MembersOf(rows)[s].slug == s
  {
    if rows != [] {
      MembersOfKeyed(rows[..|rows| - 1]);
    }
  }

  /** Projecting a live group. The member loop visits the map in no fixed order. */
  method ToRow(id: int, g: Group) returns (row: GroupRow)
    requires g.View().Keyed()
    ensures IsRowOf(row, id, g.View())
  {
    var rows: seq<MemberRow> := [];
    var todo := g.members.Keys;
    while todo != {}
      invariant todo <= g.members.Keys
      invariant RowsOf(rows, map s | s in g.members && s !in todo :: g.members[s])
      decreases |todo|
    {
      var s :| s in todo;
      var m := g.members[s];
      var downSince, upSince := TimePtr(m.downSince), TimePtr(m.upSince);
      rows := rows + [MemberRow(m.slug, m.state, m.joinedAt, downSince, upSince, m.changedAt, m.rendered)];
      todo := todo - {s};
    }
    assert g.members == map s | s in g.members && s !in todo :: g.members[s];
    row := GroupRow(id, g.channel, g.openedAt, g.digestChannel, g.digestTS, g.posted, g.closed,
                    TimePtr(g.lastFlushAt), TimePtr(g.lastReminderAt), rows);
  }

  /** Rehydrating a group from its row. */
  method LoadGroup(row: GroupRow, cfg: Config) returns (g: Group)
    ensures fresh(g) && g.View() == FromRow(row, cfg)
  {
    g := new Group(row.channelSlug, row.openedAt, cfg);
    g.digestChannel, g.digestTS, g.posted, g.closed := row.digestChannel, row.digestTS, row.posted, row.closed;
    g.lastFlushAt, g.lastReminderAt := DerefTime(row.lastFlushAt), DerefTime(row.lastReminderAt);
    var ms: Members := map[];
    for i := 0 to |row.members|
      invariant ms == MembersOf(row.members[..i])
      invariant fresh(g) && g.View() == FromRow(row, cfg).(members := g.members)
    {
      var mr := row.members[i];
      assert row.members[..i + 1][..i] == row.members[..i];
      ms := ms[mr.monitorSlug := Member(mr.monitorSlug, mr.state, mr.joinedAt, DerefTime(mr.downSince),
                                        DerefTime(mr.upSince), mr.changedAt, mr.rendered)];
    }
    assert row.members[..|row.members|] == row.members;
    g.members := ms;
  }

  // ----- the round trip

  lemma {:induction false} MembersOfIs(rows: seq<MemberRow>)
    requires forall i, j :: 0 <= i < j < |rows| ==> rows[i].monitorSlug != rows[j].monitorSlug
    ensures MembersOf(rows).Keys == set r | r in rows :: r.monitorSlug
    ensures forall r :: r in rows ==> MembersOf(rows)[r.monitorSlug] == MemberOfRow(r)
  {
    if rows != [] {
      var n := |rows| - 1;
      assert rows == rows[..n] + [rows[n]];
      MembersOfIs(rows[..n]);
    }
  }

  lemma MembersRoundTrip(rows: seq<MemberRow>, ms: Members)
    requires RowsOf(rows, ms) && forall s :: s in ms ==> ms[s].slug == s
    ensures MembersOf(rows) == ms
  {
    MembersOfIs(rows);
    forall s | s in ms ensures s in MembersOf(rows) && MembersOf(rows)[s] == ms[s] {
      assert RowOfMember(ms[s]) in rows && MemberOfRow(RowOfMember(ms[s])) == ms[s];
    }
  }

  lemma RowRoundTrip(row: GroupRow, id: int, g: GroupState, cfg: Config)
    requires IsRowOf(row, id, g) && g.Keyed() && g.cfg == cfg.WithDefaults()
    ensures FromRow(row, cfg) == g
  {
    MembersRoundTrip(row.members, g.members);
  }

  // ----- the store

  /** The stored group: the header row and its member rows by slug. */
  datatype Stored = Stored(header: GroupRow, members: map<string, MemberRow>)

  /** Creating a group stores its birth and nothing else. */
  function Created(id: int, channel: string, at: Time): Stored {
    Stored(GroupRow(id, channel, at, "", "", false, false, None, None, []), map[])
  }

  function Upserted(ms: map<string, MemberRow>, rows: seq<MemberRow>): map<string, MemberRow> {
    if rows == [] then ms
    else Upserted(ms, rows[..|rows| - 1])[rows[|rows| - 1].monitorSlug := rows[|rows| - 1]]
  }

  /** Saving updates the mutable header columns and upserts the members; channel and birth stay as created. */
  function Saved(st: Stored, row: GroupRow): Stored {
    Stored(
      st.header.(digestChannel := row.digestChannel, digestTS := row.digestTS, posted := row.posted,
                 closed := row.closed, lastFlushAt := row.lastFlushAt, lastReminderAt := row.lastReminderAt),
      Upserted(st.members, row.members))
  }

  /** Loading reads the member rows in slug order. */
  ghost function Loaded(st: Stored): GroupRow {
    var slugs := Listing(st.members.Keys);
    st.header.(members := seq(|slugs|, i requires 0 <= i < |slugs| => (assert slugs[i] in slugs; st.members[slugs[i]])))
  }

  lemma {:induction false} UpsertedIs(before: map<string, MemberRow>, rows: seq<MemberRow>)
    requires forall i, j :: 0 <= i < j < |rows| ==> rows[i].monitorSlug != rows[j].monitorSlug
    ensures Upserted(before, rows).Keys == before.Keys + set r | r in rows :: r.monitorSlug
    ensures forall r :: r in rows ==> Upserted(before, rows)[r.monitorSlug] == r
  {
    if rows != [] {
      var n := |rows| - 1;
      assert rows == rows[..n] + [rows[n]];
      UpsertedIs(before, rows[..n]);
    }
  }

  /** Loading a store that holds exactly the members' rows lists them in slug order. */
  lemma LoadedRows(st: Stored, ms: Members)
    requires st.members.Keys == ms.Keys
    requires forall s :: s in ms ==> ms[s].slug == s && st.members[s] == RowOfMember(ms[s])
    ensures RowsOf(Loaded(st).members, ms)
  {
    var slugs, rows := Listing(st.members.Keys), Loaded(st).members;
    forall i, j | 0 <= i < j < |rows| ensures rows[i].monitorSlug != rows[j].monitorSlug {
      assert slugs[i] in slugs && slugs[j] in slugs;
      BeforeIrreflexive(slugs[i]);
    }
    forall s | s in ms ensures RowOfMember(ms[s]) in rows {
      assert s in slugs;
      var i :| 0 <= i < |slugs| && slugs[i] == s;
      assert rows[i] == RowOfMember(ms[s]);
    }
    forall r | r in rows ensures r.monitorSlug in ms && r == RowOfMember(ms[r.monitorSlug]) {
      var i :| 0 <= i < |rows| && rows[i] == r;
      assert slugs[i] in slugs;
    }
  }

  /** Upserting a group's rows over a store that knows no other members leaves exactly them. */
  lemma UpsertedRows(before: map<string, MemberRow>, rows: seq<MemberRow>, ms: Members)
    requires RowsOf(rows, ms) && before.Keys <= ms.Keys && forall s :: s in ms ==> ms[s].slug == s
    ensures Upserted(before, rows).Keys == ms.Keys
    ensures forall s :: s in ms ==> Upserted(before, rows)[s] == RowOfMember(ms[s])
  {
    UpsertedIs(before, rows);
    forall s | s in ms ensures s in Upserted(before, rows) && Upserted(before, rows)[s] == RowOfMember(ms[s]) {
      assert RowOfMember(ms[s]) in rows;
    }
  }

  /** Saving a group over its own stored row and loading it back yields a row of the same group. */
  lemma SaveThenLoad(st: Stored, row: GroupRow, id: int, g: GroupState)
    requires IsRowOf(row, id, g) && g.Keyed()
    requires st.header.id == id && st.header.channelSlug == g.channel && st.header.openedAt == g.openedAt
    requires st.members.Keys <= g.members.Keys
    ensures IsRowOf(Loaded(Saved(st, row)), id, g)
    ensures Saved(st, row).members.Keys == g.members.Keys
  {
    UpsertedRows(st.members, row.members, g.members);
    LoadedRows(Saved(st, row), g.members);
  }

  /**
   Restart transparency: run a group, save it, load it under the same configuration, and every later run asks
   for exactly the actions the surviving group would have asked for.
   */
  lemma RestartTransparent(
    st: Stored, row: GroupRow, channel: string, at: Time, cfg: Config, before: seq<Op>, later: seq<Op>)
    requires st.header.channelSlug == channel && st.header.openedAt == at
    requires st.members.Keys <= After(New(channel, at, cfg), before).members.Keys
    requires IsRowOf(row, st.header.id, After(New(channel, at, cfg), before))
    ensures var g := After(New(channel, at, cfg), before);
            var reborn := FromRow(Loaded(Saved(st, row)), cfg);
            reborn == g && Emitted(reborn, later) == Emitted(g, later) && After(reborn, later) == After(g, later)
  {
    var g := After(New(channel, at, cfg), before);
    AfterKeepsKeyed(New(channel, at, cfg), before);
    SaveThenLoad(st, row, st.header.id, g);
    RowRoundTrip(Loaded(Saved(st, row)), st.header.id, g, cfg);
  }
}
