/** The weekly leaderboard (`get_weekly_leaderboard`). The practice sessions
    created since a week ago (the cutoff is a parameter, since the server reads
    it from the clock) are fetched in store order, capped at 1000, and
    aggregated per user in order of first appearance. Every aggregated user who
    still has a user document becomes an entry. The entries are sorted by best
    speed, highest first, with Python's stable sort, and the first `limit` are
    returned. */
module Leaderboard {
  import opened Scoring
  import opened Aggregates
  import opened Accounts

  /** The condition of the query: `created_at >= weekAgo`. */
  function CreatedSince(weekAgo: int): PracticeRecord -> bool {
    (r: PracticeRecord) => r.createdAt >= weekAgo
  }

  /** The sessions the route aggregates. */
  function Recent(all: seq<PracticeRecord>, weekAgo: int): seq<PracticeRecord> {
    Cap(Filter(all, CreatedSince(weekAgo)))
  }

  // ---------------------------------------------------------------------
  // Aggregation per user

  /** One user's running totals: the speed total, the session count and the
      best speed. */
  datatype UserAgg = UserAgg(totalWpm: real, count: nat, bestWpm: real)

  /** The totals a user starts from on their first session. */
  const Fresh := UserAgg(0.0, 0, 0.0)

  /** One session added to a user's totals. */
  function Add(a: UserAgg, wpm: real): UserAgg {
    UserAgg(a.totalWpm + wpm, a.count + 1, Max2(a.bestWpm, wpm))
  }

  /** The aggregation dictionary: its keys in insertion order, and the totals
      per key. */
  datatype Tallied = Tallied(order: seq<string>, stats: map<string, UserAgg>)

  /** The aggregation loop over `sessions`. */
  function Tally(sessions: seq<PracticeRecord>): Tallied {
    if sessions == [] then Tallied([], map[])
    else
      var t := Tally(sessions[..|sessions| - 1]);
      var s := sessions[|sessions| - 1];
      if s.userId in t.stats then Tallied(t.order, t.stats[s.userId := Add(t.stats[s.userId], s.wpm)])
      else Tallied(t.order + [s.userId], t.stats[s.userId := Add(Fresh, s.wpm)])
  }

  /** The speeds of `id`'s sessions, in order. */
  function WpmsOf(sessions: seq<PracticeRecord>, id: string): seq<real> {
    if sessions == [] then []
    else
      var init := WpmsOf(sessions[..|sessions| - 1], id);
      if sessions[|sessions| - 1].userId == id then init + [sessions[|sessions| - 1].wpm] else init
  }

  /** What the totals of `id` should be: the sum, the number, and the
      running maximum from 0 of their speeds. */
  function Reference(sessions: seq<PracticeRecord>, id: string): UserAgg {
    var ws := WpmsOf(sessions, id);
    UserAgg(Sum(ws), |ws|, MaxFrom(0.0, ws))
  }

  /** The aggregation has a key exactly for the users with a session, each
      listed once in its order, and its totals are the reference totals. */
  lemma {:induction false} TallyReference(sessions: seq<PracticeRecord>)
    ensures var t := Tally(sessions);
            && (forall id :: id in t.stats <==> id in t.order)
            && (forall id :: id in t.stats <==> WpmsOf(sessions, id) != [])
            && (forall id :: id in t.stats ==> t.stats[id] == Reference(sessions, id))
            && (forall i, j :: 0 <= i < j < |t.order| ==> t.order[i] != t.order[j])
    decreases |sessions|
  {
    if sessions != [] {
      var init := sessions[..|sessions| - 1];
      var s := sessions[|sessions| - 1];
      TallyReference(init);
      WpmsStep(sessions);
      ReferenceStep(WpmsOf(init, s.userId), s.wpm);
      var t := Tally(init);
      var t' := Tally(sessions);
      forall id | id in t'.stats
        ensures t'.stats[id] == Reference(sessions, id)
      {
        if id != s.userId {
          assert t'.stats[id] == t.stats[id];
        }
      }
      forall id
        ensures id in t'.stats <==> id in t'.order
        ensures id in t'.stats <==> WpmsOf(sessions, id) != []
      {
      }
      forall i, j | 0 <= i < j < |t'.order|
        ensures t'.order[i] != t'.order[j]
      {
        if s.userId !in t.stats && j == |t.order| {
          assert t'.order[i] in t.order;
        }
      }
    }
  }

  /** One more session adds its speed to its own user's speeds only. */
  lemma WpmsStep(sessions: seq<PracticeRecord>)
    requires sessions != []
    ensures var init := sessions[..|sessions| - 1];
            var s := sessions[|sessions| - 1];
            forall id :: WpmsOf(sessions, id) == if id == s.userId then WpmsOf(init, id) + [s.wpm] else WpmsOf(init, id)
  {
  }

  /** The reference totals of one more speed are the old totals, or the
      fresh ones for a first speed, with that speed added. */
  lemma ReferenceStep(ws: seq<real>, w: real)
    ensures Sum(ws + [w]) == Sum(ws) + w
    ensures MaxFrom(0.0, ws + [w]) == Max2(MaxFrom(0.0, ws), w)
    ensures ws == [] ==> Sum(ws) == 0.0 && MaxFrom(0.0, ws) == 0.0
  {
    assert (ws + [w])[..|ws|] == ws;
  }

  /** The position of `id`'s first session, or the number of sessions when
      `id` has none. */
  function FirstIndex(sessions: seq<PracticeRecord>, id: string): (i: nat)
    ensures i <= |sessions|
    ensures i < |sessions| ==> sessions[i].userId == id
    ensures forall k :: 0 <= k < i ==> sessions[k].userId != id
  {
    if sessions == [] then 0
    else
      var i := FirstIndex(sessions[..|sessions| - 1], id);
      if i < |sessions| - 1 then i
      else if sessions[|sessions| - 1].userId == id then |sessions| - 1
      else |sessions|
  }

  /** The aggregation lists exactly the users with a session, in order of
      their first session. */
  lemma {:induction false} TallyOrder(sessions: seq<PracticeRecord>)
    ensures var t := Tally(sessions);
            && (forall id :: id in t.order <==> FirstIndex(sessions, id) < |sessions|)
            && (forall i, j :: 0 <= i < j < |t.order| ==>
                  FirstIndex(sessions, t.order[i]) < FirstIndex(sessions, t.order[j]))
    decreases |sessions|
  {
    if sessions != [] {
      var init := sessions[..|sessions| - 1];
      var s := sessions[|sessions| - 1];
      TallyOrder(init);
      TallyReference(init);
      var t := Tally(init);
      var t' := Tally(sessions);
      forall id
        ensures id in t'.order <==> FirstIndex(sessions, id) < |sessions|
      {
      }
      forall i, j | 0 <= i < j < |t'.order|
        ensures FirstIndex(sessions, t'.order[i]) < FirstIndex(sessions, t'.order[j])
      {
        assert t'.order[i] in t.order;
        if j < |t.order| {
          assert t'.order[j] in t.order;
        }
      }
    }
  }

  // ---------------------------------------------------------------------
  // Entries

  /** One row of the weekly leaderboard. */
  datatype LeaderboardEntry = LeaderboardEntry(
    username: string, wpm: real, averageWpm: real, level: Level, xp: int)

  /** The row of a user with the given totals. */
  function EntryOf(u: User, a: UserAgg): LeaderboardEntry
    requires a.count > 0
  {
    LeaderboardEntry(u.username, a.bestWpm, a.totalWpm / a.count as real, u.level, u.xp)
  }

  /** Every listed user has totals over at least one session. */
  ghost predicate Counted(order: seq<string>, stats: map<string, UserAgg>) {
    forall k :: 0 <= k < |order| ==> order[k] in stats && stats[order[k]].count > 0
  }

  /** The rows of the listed users that have a user document, in order. */
  function BuildEntries(order: seq<string>, stats: map<string, UserAgg>, users: map<string, User>): (r: seq<LeaderboardEntry>)
    requires Counted(order, stats)
    ensures |r| <= |order|
  {
    if order == [] then []
    else
      var init := BuildEntries(order[..|order| - 1], stats, users);
      var id := order[|order| - 1];
      if id in users then init + [EntryOf(users[id], stats[id])] else init
  }

  /** A row belongs to a listed user with a document, and every listed user
      with a document has a row. */
  lemma {:induction false} BuildEntriesMembers(order: seq<string>, stats: map<string, UserAgg>, users: map<string, User>)
    requires Counted(order, stats)
    ensures forall e :: e in BuildEntries(order, stats, users) <==>
              exists id :: id in order && id in users && e == EntryOf(users[id], stats[id])
    decreases |order|
  {
    if order != [] {
      var init := order[..|order| - 1];
      BuildEntriesMembers(init, stats, users);
      assert order == init + [order[|order| - 1]];
    }
  }

  /** The condition `if user:` of the second loop. */
  function HasDocument(users: map<string, User>): string -> bool {
    (id: string) => id in users
  }

  /** The rows are those of the listed users with a document, one per such
      user and in the order of the list. */
  lemma {:induction false} BuildEntriesRows(order: seq<string>, stats: map<string, UserAgg>, users: map<string, User>)
    requires Counted(order, stats)
    ensures var ids := Filter(order, HasDocument(users));
            var r := BuildEntries(order, stats, users);
            && |r| == |ids|
            && forall k :: 0 <= k < |ids| ==>
                 && ids[k] in users && ids[k] in order && ids[k] in stats && stats[ids[k]].count > 0
                 && r[k] == EntryOf(users[ids[k]], stats[ids[k]])
    decreases |order|
  {
    if order != [] {
      var init := order[..|order| - 1];
      BuildEntriesRows(init, stats, users);
      var ids := Filter(init, HasDocument(users));
      var r := BuildEntries(init, stats, users);
      forall k | 0 <= k < |ids|
        ensures ids[k] in order
      {
        assert ids[k] in init;
      }
    }
  }

  // ---------------------------------------------------------------------
  // Stable sort, highest speed first

  ghost predicate SortedDesc(s: seq<LeaderboardEntry>) {
    forall i, j :: 0 <= i < j < |s| ==> s[i].wpm >= s[j].wpm
  }

  /** `x` placed after every entry at least as fast. */
  function Insert(s: seq<LeaderboardEntry>, x: LeaderboardEntry): (r: seq<LeaderboardEntry>)
    ensures |r| == |s| + 1
  {
    if s == [] then [x]
    else if s[|s| - 1].wpm >= x.wpm then s + [x]
    else Insert(s[..|s| - 1], x) + [s[|s| - 1]]
  }

  /** `sort(key=wpm, reverse=True)`, by insertion from the left. */
  function SortDesc(s: seq<LeaderboardEntry>): (r: seq<LeaderboardEntry>)
    ensures |r| == |s|
  {
    if s == [] then [] else Insert(SortDesc(s[..|s| - 1]), s[|s| - 1])
  }

  /** The entries of speed exactly `w`, in order. */
  function WithWpm(s: seq<LeaderboardEntry>, w: real): seq<LeaderboardEntry> {
    if s == [] then []
    else
      var init := WithWpm(s[..|s| - 1], w);
      if s[|s| - 1].wpm == w then init + [s[|s| - 1]] else init
  }

  /** Inserting adds `x` and keeps every other entry. */
  lemma {:induction false} InsertPerm(s: seq<LeaderboardEntry>, x: LeaderboardEntry)
    ensures multiset(Insert(s, x)) == multiset(s) + multiset{x}
    decreases |s|
  {
    if s != [] && s[|s| - 1].wpm < x.wpm {
      InsertPerm(s[..|s| - 1], x);
      assert s == s[..|s| - 1] + [s[|s| - 1]];
    }
  }

  /** Inserting into a sorted sequence keeps it sorted. */
  lemma {:induction false} InsertSorted(s: seq<LeaderboardEntry>, x: LeaderboardEntry)
    requires SortedDesc(s)
    ensures SortedDesc(Insert(s, x))
    decreases |s|
  {
    if s != [] && s[|s| - 1].wpm < x.wpm {
      var init := s[..|s| - 1];
      var last := s[|s| - 1];
      InsertSorted(init, x);
      InsertPerm(init, x);
      var r := Insert(init, x);
      forall k | 0 <= k < |r|
        ensures r[k].wpm >= last.wpm
      {
        assert r[k] in multiset(r);
        if r[k] != x {
          assert r[k] in multiset(init);
          var i :| 0 <= i < |init| && init[i] == r[k];
          assert s[i] == init[i];
        }
      }
      var r' := r + [last];
      forall i, j | 0 <= i < j < |r'|
        ensures r'[i].wpm >= r'[j].wpm
      {
        if j == |r| {
          assert r'[i] == r[i];
        }
      }
    }
  }

  /** Inserting `x` puts it after every other entry of its speed. */
  lemma {:induction false} InsertStable(s: seq<LeaderboardEntry>, x: LeaderboardEntry, w: real)
    ensures WithWpm(Insert(s, x), w) == if x.wpm == w then WithWpm(s, w) + [x] else WithWpm(s, w)
    decreases |s|
  {
    if s == [] {
      assert [x][..0] == [];
    } else if s[|s| - 1].wpm >= x.wpm {
      assert (s + [x])[..|s|] == s;
    } else {
      var init := s[..|s| - 1];
      InsertStable(init, x, w);
      var r := Insert(init, x);
      assert (r + [s[|s| - 1]])[..|r|] == r;
    }
  }

  /** The sort orders by speed, highest first, keeps every entry, and keeps
      the relative order of entries of equal speed. */
  lemma {:induction false} SortDescSpec(s: seq<LeaderboardEntry>)
    ensures SortedDesc(SortDesc(s))
    ensures multiset(SortDesc(s)) == multiset(s)
    ensures forall w :: WithWpm(SortDesc(s), w) == WithWpm(s, w)
    decreases |s|
  {
    if s != [] {
      var init := s[..|s| - 1];
      SortDescSpec(init);
      InsertSorted(SortDesc(init), s[|s| - 1]);
      InsertPerm(SortDesc(init), s[|s| - 1]);
      assert s == init + [s[|s| - 1]];
      forall w
        ensures WithWpm(SortDesc(s), w) == WithWpm(s, w)
      {
        InsertStable(SortDesc(init), s[|s| - 1], w);
      }
    }
  }

  /** Python's `s[:limit]`: a negative limit drops that many from the end. */
  function Slice(s: seq<LeaderboardEntry>, limit: int): (r: seq<LeaderboardEntry>)
    ensures |r| <= |s| && r == s[..|r|]
    ensures limit >= 0 ==> |r| == if limit <= |s| then limit else |s|
    ensures limit < 0 ==> |r| == if -limit <= |s| then |s| + limit else 0
  {
    if limit >= 0 then (if limit <= |s| then s[..limit] else s)
    else if -limit <= |s| then s[..|s| + limit] else []
  }

  // ---------------------------------------------------------------------
  // The route

  /** The full board, before the limit. */
  function FullBoard(all: seq<PracticeRecord>, weekAgo: int, users: map<string, User>): seq<LeaderboardEntry> {
    var t := Tally(Recent(all, weekAgo));
    TallyCounted(Recent(all, weekAgo));
    SortDesc(BuildEntries(t.order, t.stats, users))
  }

  lemma TallyCounted(sessions: seq<PracticeRecord>)
    ensures Counted(Tally(sessions).order, Tally(sessions).stats)
  {
    TallyReference(sessions);
    var t := Tally(sessions);
    forall k | 0 <= k < |t.order|
      ensures t.order[k] in t.stats && t.stats[t.order[k]].count > 0
    {
      assert t.order[k] in t.order;
    }
  }

  /** What `get_weekly_leaderboard(limit)` answers. */
  function WeeklyBoard(all: seq<PracticeRecord>, weekAgo: int, users: map<string, User>, limit: int): seq<LeaderboardEntry> {
    Slice(FullBoard(all, weekAgo, users), limit)
  }

  /** The route's two loops: the aggregation, then the rows, which are then
      sorted and cut to the limit. */
  method GetWeeklyLeaderboard(all: seq<PracticeRecord>, weekAgo: int, users: map<string, User>, limit: int)
    returns (board: seq<LeaderboardEntry>)
    ensures board == WeeklyBoard(all, weekAgo, users, limit)
  {
    var sessions := Recent(all, weekAgo);
    var order: seq<string> := [];
    var stats: map<string, UserAgg> := map[];
    for i := 0 to |sessions|
      invariant Tallied(order, stats) == Tally(sessions[..i])
    {
      assert sessions[..i + 1][..i] == sessions[..i];
      var s := sessions[i];
      if s.userId !in stats {
        order := order + [s.userId];
        stats := stats[s.userId := Fresh];
      }
      stats := stats[s.userId := Add(stats[s.userId], s.wpm)];
    }
    assert sessions[..|sessions|] == sessions;
    TallyCounted(sessions);
    var entries: seq<LeaderboardEntry> := [];
    for j := 0 to |order|
      invariant entries == BuildEntries(order[..j], stats, users)
    {
      assert order[..j + 1][..j] == order[..j];
      var id := order[j];
      if id in users {
        entries := entries + [EntryOf(users[id], stats[id])];
      }
    }
    assert order[..|order|] == order;
    board := Slice(SortDesc(entries), limit);
  }

  /** The users the board has a row for, in the order the rows are built. */
  function BoardUsers(recent: seq<PracticeRecord>, users: map<string, User>): seq<string> {
    Filter(Tally(recent).order, HasDocument(users))
  }

  /** The board's users are exactly the users with a document and a recent
      session, in order of their first recent session, so each appears once. */
  lemma BoardUsersSpec(recent: seq<PracticeRecord>, users: map<string, User>)
    ensures var ids := BoardUsers(recent, users);
            && (forall id :: id in ids <==> id in users && FirstIndex(recent, id) < |recent|)
            && (forall i, j :: 0 <= i < j < |ids| ==> FirstIndex(recent, ids[i]) < FirstIndex(recent, ids[j]))
            && (forall k :: 0 <= k < |ids| ==> ids[k] in users && WpmsOf(recent, ids[k]) != [])
  {
    BoardUsersMembers(recent, users);
    BoardUsersOrdered(recent, users);
    BoardUsersActive(recent, users);
  }

  /** A board user has a document and a recent session, and every such user
      is a board user. */
  lemma BoardUsersMembers(recent: seq<PracticeRecord>, users: map<string, User>)
    ensures forall id :: id in BoardUsers(recent, users) <==> id in users && FirstIndex(recent, id) < |recent|
  {
    TallyOrder(recent);
    FilterSpec(Tally(recent).order, HasDocument(users));
  }

  /** The board users come in order of their first recent session. */
  lemma BoardUsersOrdered(recent: seq<PracticeRecord>, users: map<string, User>)
    ensures var ids := BoardUsers(recent, users);
            forall i, j :: 0 <= i < j < |ids| ==> FirstIndex(recent, ids[i]) < FirstIndex(recent, ids[j])
  {
    var order := Tally(recent).order;
    var ids := BoardUsers(recent, users);
    TallyOrder(recent);
    FilterSpec(order, HasDocument(users));
    var idx: seq<nat> :| PicksAt(ids, order, idx);
    forall i, j | 0 <= i < j < |ids|
      ensures FirstIndex(recent, ids[i]) < FirstIndex(recent, ids[j])
    {
      assert ids[i] == order[idx[i]] && ids[j] == order[idx[j]];
    }
  }

  /** Every board user has a document and recent speeds. */
  lemma BoardUsersActive(recent: seq<PracticeRecord>, users: map<string, User>)
    ensures var ids := BoardUsers(recent, users);
            forall k :: 0 <= k < |ids| ==> ids[k] in users && WpmsOf(recent, ids[k]) != []
  {
    var t := Tally(recent);
    var ids := BoardUsers(recent, users);
    TallyReference(recent);
    FilterSpec(t.order, HasDocument(users));
    forall k | 0 <= k < |ids|
      ensures ids[k] in users && WpmsOf(recent, ids[k]) != []
    {
      assert ids[k] in ids;
    }
  }

  /** The row of each user in `ids`, with the reference totals of their
      recent sessions. */
  function Rows(ids: seq<string>, recent: seq<PracticeRecord>, users: map<string, User>): seq<LeaderboardEntry>
    requires forall k :: 0 <= k < |ids| ==> ids[k] in users && WpmsOf(recent, ids[k]) != []
  {
    seq(|ids|, k requires 0 <= k < |ids| => EntryOf(users[ids[k]], Reference(recent, ids[k])))
  }

  /** The board is sorted by best speed, highest first, holds at most
      `limit` rows, and is a prefix of the full board. The full board has a
      row exactly for each user with a recent session and a user document,
      carrying the user's best speed and mean speed over those sessions: it
      is a reordering of the rows of the board's users, one each, that keeps
      rows of equal speed in order of their users' first recent session. */
  lemma WeeklyBoardSpec(all: seq<PracticeRecord>, weekAgo: int, users: map<string, User>, limit: int)
    ensures var full := FullBoard(all, weekAgo, users);
            var board := WeeklyBoard(all, weekAgo, users, limit);
            && SortedDesc(board)
            && (limit >= 0 ==> |board| <= limit)
            && board == full[..|board|]
    ensures var recent := Recent(all, weekAgo);
            forall e :: e in FullBoard(all, weekAgo, users) <==>
              exists id :: id in users && WpmsOf(recent, id) != []
                && e == EntryOf(users[id], Reference(recent, id))
    ensures var recent := Recent(all, weekAgo);
            var ids := BoardUsers(recent, users);
            var full := FullBoard(all, weekAgo, users);
            && (forall k :: 0 <= k < |ids| ==> ids[k] in users && WpmsOf(recent, ids[k]) != [])
            && multiset(full) == multiset(Rows(ids, recent, users))
            && (forall w :: WithWpm(full, w) == WithWpm(Rows(ids, recent, users), w))
  {
    BoardIsSortedPrefix(all, weekAgo, users, limit);
    FullBoardMembers(all, weekAgo, users);
    FullBoardIsRows(all, weekAgo, users);
  }

  /** The board is sorted by best speed, holds at most `limit` rows, and is
      a prefix of the full board. */
  lemma BoardIsSortedPrefix(all: seq<PracticeRecord>, weekAgo: int, users: map<string, User>, limit: int)
    ensures var full := FullBoard(all, weekAgo, users);
            var board := WeeklyBoard(all, weekAgo, users, limit);
            && SortedDesc(board)
            && (limit >= 0 ==> |board| <= limit)
            && board == full[..|board|]
  {
    var recent := Recent(all, weekAgo);
    var t := Tally(recent);
    TallyCounted(recent);
    var entries := BuildEntries(t.order, t.stats, users);
    var full := FullBoard(all, weekAgo, users);
    assert full == SortDesc(entries);
    SortDescSpec(entries);
    var board := WeeklyBoard(all, weekAgo, users, limit);
    assert board == full[..|board|];
    forall i, j | 0 <= i < j < |board|
      ensures board[i].wpm >= board[j].wpm
    {
      assert board[i] == full[i] && board[j] == full[j];
    }
  }

  /** The full board reorders the rows of the board's users, one each,
      keeping rows of equal speed in the users' order. */
  lemma FullBoardIsRows(all: seq<PracticeRecord>, weekAgo: int, users: map<string, User>)
    ensures var recent := Recent(all, weekAgo);
            var ids := BoardUsers(recent, users);
            var full := FullBoard(all, weekAgo, users);
            && (forall k :: 0 <= k < |ids| ==> ids[k] in users && WpmsOf(recent, ids[k]) != [])
            && multiset(full) == multiset(Rows(ids, recent, users))
            && (forall w :: WithWpm(full, w) == WithWpm(Rows(ids, recent, users), w))
  {
    var recent := Recent(all, weekAgo);
    var t := Tally(recent);
    TallyCounted(recent);
    var entries := BuildEntries(t.order, t.stats, users);
    assert FullBoard(all, weekAgo, users) == SortDesc(entries);
    SortDescSpec(entries);
    EntriesAreRows(recent, users);
  }

  /** A row of the full board is the row of a user with a document and a
      recent session, and every such user has one. */
  lemma FullBoardMembers(all: seq<PracticeRecord>, weekAgo: int, users: map<string, User>)
    ensures var recent := Recent(all, weekAgo);
            forall e :: e in FullBoard(all, weekAgo, users) <==>
              exists id :: id in users && WpmsOf(recent, id) != []
                && e == EntryOf(users[id], Reference(recent, id))
  {
    var recent := Recent(all, weekAgo);
    var t := Tally(recent);
    TallyCounted(recent);
    TallyReference(recent);
    var entries := BuildEntries(t.order, t.stats, users);
    var full := FullBoard(all, weekAgo, users);
    assert full == SortDesc(entries);
    SortDescSpec(entries);
    BuildEntriesMembers(t.order, t.stats, users);
    forall e
      ensures e in full <==> e in entries
    {
      assert e in full <==> e in multiset(full);
    }
  }

  /** The built rows are the rows of the board's users, in order. */
  lemma EntriesAreRows(recent: seq<PracticeRecord>, users: map<string, User>)
    ensures var t := Tally(recent);
            var ids := BoardUsers(recent, users);
            && Counted(t.order, t.stats)
            && (forall k :: 0 <= k < |ids| ==> ids[k] in users && WpmsOf(recent, ids[k]) != [])
            && BuildEntries(t.order, t.stats, users) == Rows(ids, recent, users)
  {
    var t := Tally(recent);
    var ids := BoardUsers(recent, users);
    TallyCounted(recent);
    BoardUsersSpec(recent, users);
    TallyReference(recent);
    BuildEntriesRows(t.order, t.stats, users);
    var entries := BuildEntries(t.order, t.stats, users);
    var rows := Rows(ids, recent, users);
    forall k | 0 <= k < |ids|
      ensures entries[k] == rows[k]
    {
      assert t.stats[ids[k]] == Reference(recent, ids[k]);
    }
  }

  /** Every row's mean speed is at most its best speed, and the best speed is
      not negative. */
  lemma EntryBounds(all: seq<PracticeRecord>, weekAgo: int, users: map<string, User>)
    ensures forall e :: e in FullBoard(all, weekAgo, users) ==> 0.0 <= e.wpm && e.averageWpm <= e.wpm
  {
    var recent := Recent(all, weekAgo);
    WeeklyBoardSpec(all, weekAgo, users, 0);
    forall e | e in FullBoard(all, weekAgo, users)
      ensures 0.0 <= e.wpm && e.averageWpm <= e.wpm
    {
      var id :| id in users && WpmsOf(recent, id) != [] && e == EntryOf(users[id], Reference(recent, id));
      MeanAtMostBest(WpmsOf(recent, id));
    }
  }

  /** The mean of a non-empty sequence is at most its running maximum from
      0, which is not negative. */
  lemma MeanAtMostBest(ws: seq<real>)
    requires ws != []
    ensures 0.0 <= MaxFrom(0.0, ws)
    ensures Sum(ws) / |ws| as real <= MaxFrom(0.0, ws)
  {
    MaxFromIsMaximum(0.0, ws);
    SumAtMost(ws, MaxFrom(0.0, ws));
    DivAtMost(Sum(ws), |ws| as real, MaxFrom(0.0, ws));
  }
}
