/** The per-user read routes: the practice statistics over a user's
    practice sessions and test results (`get_practice_stats`), and the best
    practice session (`get_user_best_stats`). The stores are sequences of
    records in their natural order; each query keeps the user's records in
    that order and caps them at 1000. Averages are exact; the server's
    rounding to two decimals is not modelled. */
module UserStats {
  import opened Aggregates
  import opened Accounts

  /** The condition of `db.practice_sessions.find({"user_id": userId})`. */
  function SessionOwnedBy(userId: string): PracticeRecord -> bool {
    (r: PracticeRecord) => r.userId == userId
  }

  /** The condition of `db.test_results.find({"user_id": userId})`. */
  function ResultOwnedBy(userId: string): TestRecord -> bool {
    (r: TestRecord) => r.userId == userId
  }

  /** The user's practice sessions as the routes fetch them. */
  function UserSessions(all: seq<PracticeRecord>, userId: string): seq<PracticeRecord> {
    Cap(Filter(all, SessionOwnedBy(userId)))
  }

  /** The user's test results as the routes fetch them. */
  function UserResults(all: seq<TestRecord>, userId: string): seq<TestRecord> {
    Cap(Filter(all, ResultOwnedBy(userId)))
  }

  function SessionWpm(r: PracticeRecord): real { r.wpm }
  function SessionAccuracy(r: PracticeRecord): real { r.accuracy }
  function ResultWpm(r: TestRecord): real { r.wpm }
  function ResultAccuracy(r: TestRecord): real { r.accuracy }

  /** The total of the sessions' durations, left to right. */
  function TotalDuration(s: seq<PracticeRecord>): int {
    if s == [] then 0 else TotalDuration(s[..|s| - 1]) + s[|s| - 1].duration
  }

  /** The statistics `get_practice_stats` answers with. */
  datatype PracticeStats = PracticeStats(
    totalTests: int, averageWpm: real, averageAccuracy: real, bestWpm: real, totalPracticeTime: int)

  /** `get_practice_stats`: all zeros for a user with no sessions and no
      results; otherwise the count, the mean speed and accuracy and the best
      speed over sessions and results together, and the practice time of
      the sessions alone. */
  function GetPracticeStats(allSessions: seq<PracticeRecord>, allTests: seq<TestRecord>, userId: string): PracticeStats {
    var sessions := UserSessions(allSessions, userId);
    var tests := UserResults(allTests, userId);
    if sessions == [] && tests == [] then PracticeStats(0, 0.0, 0.0, 0.0, 0)
    else
      var n := |sessions| + |tests|;
      var wpms := Project(sessions, SessionWpm) + Project(tests, ResultWpm);
      var accuracies := Project(sessions, SessionAccuracy) + Project(tests, ResultAccuracy);
      PracticeStats(n, Sum(wpms) / n as real, Sum(accuracies) / n as real, MaxOf(wpms), TotalDuration(sessions))
  }

  /** The count covers sessions and results; with none of either every
      field is zero; otherwise the best speed is the speed of one of them
      and at least every speed and the mean speed. */
  lemma PracticeStatsSpec(allSessions: seq<PracticeRecord>, allTests: seq<TestRecord>, userId: string)
    ensures var r := GetPracticeStats(allSessions, allTests, userId);
            var sessions := UserSessions(allSessions, userId);
            var tests := UserResults(allTests, userId);
            && r.totalTests == |sessions| + |tests|
            && (r.totalTests == 0 ==> r == PracticeStats(0, 0.0, 0.0, 0.0, 0))
            && (r.totalTests > 0 ==>
                  && ((exists k :: 0 <= k < |sessions| && r.bestWpm == sessions[k].wpm)
                      || (exists k :: 0 <= k < |tests| && r.bestWpm == tests[k].wpm))
                  && (forall k :: 0 <= k < |sessions| ==> sessions[k].wpm <= r.bestWpm)
                  && (forall k :: 0 <= k < |tests| ==> tests[k].wpm <= r.bestWpm)
                  && r.averageWpm <= r.bestWpm)
  {
    var sessions := UserSessions(allSessions, userId);
    var tests := UserResults(allTests, userId);
    if sessions != [] || tests != [] {
      BestOfBoth(sessions, tests);
    }
  }

  /** The best and mean speed over sessions and results together. */
  lemma BestOfBoth(sessions: seq<PracticeRecord>, tests: seq<TestRecord>)
    requires sessions != [] || tests != []
    ensures var wpms := Project(sessions, SessionWpm) + Project(tests, ResultWpm);
            && wpms != []
            && ((exists k :: 0 <= k < |sessions| && MaxOf(wpms) == sessions[k].wpm)
                || (exists k :: 0 <= k < |tests| && MaxOf(wpms) == tests[k].wpm))
            && (forall k :: 0 <= k < |sessions| ==> sessions[k].wpm <= MaxOf(wpms))
            && (forall k :: 0 <= k < |tests| ==> tests[k].wpm <= MaxOf(wpms))
            && Sum(wpms) / |wpms| as real <= MaxOf(wpms)
  {
    var wpms := Project(sessions, SessionWpm) + Project(tests, ResultWpm);
    MaxOfIsMaximum(wpms);
    MeanAtMostMax(wpms);
    var i :| 0 <= i < |wpms| && wpms[i] == MaxOf(wpms);
    if i < |sessions| {
      assert wpms[i] == sessions[i].wpm;
    } else {
      assert wpms[i] == tests[i - |sessions|].wpm;
    }
    forall k | 0 <= k < |sessions|
      ensures sessions[k].wpm <= MaxOf(wpms)
    {
      assert wpms[k] == sessions[k].wpm;
    }
    forall k | 0 <= k < |tests|
      ensures tests[k].wpm <= MaxOf(wpms)
    {
      assert wpms[|sessions| + k] == tests[k].wpm;
    }
  }

  /** The practice time counts practice sessions only: test results, which
      carry durations of their own, never change it. */
  lemma PracticeTimeIgnoresTests(allSessions: seq<PracticeRecord>, allTests: seq<TestRecord>, userId: string)
    ensures GetPracticeStats(allSessions, allTests, userId).totalPracticeTime
         == GetPracticeStats(allSessions, [], userId).totalPracticeTime
         == TotalDuration(UserSessions(allSessions, userId))
  {
    assert UserResults([], userId) == [];
  }

  // ---------------------------------------------------------------------
  // Best session

  /** The best speed and its session's accuracy. */
  datatype BestStats = BestStats(wpm: real, accuracy: real)

  /** The session `max(sessions, key=wpm)` picks: the first with the
      highest speed. */
  function FirstMaxIndex(s: seq<PracticeRecord>): (i: nat)
    requires s != []
    ensures i < |s|
    ensures forall j :: 0 <= j < |s| ==> s[j].wpm <= s[i].wpm
    ensures forall j :: 0 <= j < i ==> s[j].wpm < s[i].wpm
  {
    if |s| == 1 then 0
    else
      var i := FirstMaxIndex(s[..|s| - 1]);
      if s[|s| - 1].wpm > s[i].wpm then |s| - 1 else i
  }

  /** `get_user_best_stats`: zeros without sessions, otherwise the speed and
      accuracy of the first fastest session. */
  function GetUserBestStats(allSessions: seq<PracticeRecord>, userId: string): BestStats {
    var sessions := UserSessions(allSessions, userId);
    if sessions == [] then BestStats(0.0, 0.0)
    else
      var best := sessions[FirstMaxIndex(sessions)];
      BestStats(best.wpm, best.accuracy)
  }

  /** The best session's speed is the maximum speed of the user's sessions,
      the same number the practice statistics report when the user has no
      test results. */
  lemma BestStatsIsMaximum(allSessions: seq<PracticeRecord>, userId: string)
    ensures var sessions := UserSessions(allSessions, userId);
            sessions == [] ==> GetUserBestStats(allSessions, userId) == BestStats(0.0, 0.0)
    ensures var sessions := UserSessions(allSessions, userId);
            sessions != [] ==>
              && GetUserBestStats(allSessions, userId).wpm == MaxOf(Project(sessions, SessionWpm))
              && GetUserBestStats(allSessions, userId).wpm == GetPracticeStats(allSessions, [], userId).bestWpm
  {
    var sessions := UserSessions(allSessions, userId);
    if sessions != [] {
      var wpms := Project(sessions, SessionWpm);
      MaxOfIsMaximum(wpms);
      var i := FirstMaxIndex(sessions);
      var j :| 0 <= j < |wpms| && wpms[j] == MaxOf(wpms);
      assert sessions[j].wpm <= sessions[i].wpm;
      assert UserResults([], userId) == [];
      assert Project(sessions, SessionWpm) + Project([], ResultWpm) == wpms;
    }
  }
}
