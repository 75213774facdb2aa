/** The server's records and the two routes that change a user's progress:
    saving a practice session and submitting a graded test. The database is
    a store of user documents, typing tests, practice sessions and test
    results; record ids, the current time and today's day number are
    parameters, since the server draws them from `uuid4` and the clock. */
module Accounts {
  import opened Scoring

  /** The progress part of a user document. */
  datatype User = User(id: string, username: string, xp: int, level: Level, streak: Streak)

  /** A graded test, as far as submitting a result needs it. */
  datatype TypingTest = TypingTest(id: string, content: string, duration: int, targetWpm: int)

  /** The body of a practice-session request. */
  datatype PracticeSessionCreate = PracticeSessionCreate(
    mode: string, duration: int, typedText: string, originalText: string,
    wpm: real, accuracy: real, errors: int)

  /** A stored practice session: the reference text is kept, the typed text
      is not. */
  datatype PracticeRecord = PracticeRecord(
    id: string, userId: string, mode: string, duration: int, textContent: string,
    wpm: real, accuracy: real, errors: int, createdAt: int)

  /** The body of a test submission. */
  datatype TestResultCreate = TestResultCreate(
    testId: string, typedText: string, wpm: real, accuracy: real, errors: int, duration: int)

  /** A stored test result. */
  datatype TestRecord = TestRecord(
    id: string, userId: string, testId: string, wpm: real, accuracy: real, errors: int,
    duration: int, typedText: string, passed: bool, createdAt: int)

  datatype PracticeResponse = PracticeResponse(id: string, xpGained: int, newXp: int, newLevel: Level)

  datatype SubmitResponse = SubmitResponse(id: string, passed: bool, xpGained: int, newXp: int, newLevel: Level)

  /** A route's answer: a value, or the 404 of an unknown test. */
  datatype Outcome<T> = Ok(value: T) | TestNotFound

  /** The experience update both routes apply: the points are added and the
      level is recomputed from the new total. */
  function Award(u: User, gained: int): User {
    u.(xp := u.xp + gained, level := LevelFromXp(u.xp + gained))
  }

  /** An award of at least one point strictly increases the experience, never
      lowers the level, and keeps the level in step with the experience. */
  lemma AwardProgress(u: User, gained: int)
    requires gained >= 1 && u.level == LevelFromXp(u.xp)
    ensures Award(u, gained).xp > u.xp
    ensures Award(u, gained).level.Rank() >= u.level.Rank()
    ensures Award(u, gained).level == LevelFromXp(Award(u, gained).xp)
    ensures Award(u, gained).streak == u.streak && Award(u, gained).id == u.id
  {
    LevelMonotone(u.xp, u.xp + gained);
  }

  /** Every user document's experience is non-negative, its level is the one
      its experience reaches, and it is filed under its own id. */
  ghost predicate UsersValid(users: map<string, User>) {
    forall id :: id in users ==>
      users[id].xp >= 0 && users[id].level == LevelFromXp(users[id].xp) && users[id].id == id
  }

  class Store {
    var users: map<string, User>
    var typingTests: map<string, TypingTest>
    var practiceSessions: seq<PracticeRecord>
    var testResults: seq<TestRecord>

    ghost predicate Valid()
      reads this
    {
      UsersValid(users)
    }

    /** `update_user_streak`: an unknown user is left alone; otherwise the
        streak takes the step `NextStreak` decides for today. */
    method UpdateStreak(userId: string, today: int)
      modifies this`users
      ensures userId !in old(users) ==> users == old(users)
      ensures userId in old(users) ==>
                users == old(users)[userId := old(users)[userId].(streak := NextStreak(old(users)[userId].streak, today))]
    {
      if userId in users {
        var u := users[userId];
        users := users[userId := u.(streak := NextStreak(u.streak, today))];
      }
    }

    /** `create_practice_session` for the signed-in user: the session is
        stored, the user earns `calculate_xp` points with the level
        recomputed, and the streak is updated. */
    method CreatePracticeSession(userId: string, data: PracticeSessionCreate, id: string, now: int, today: int)
      returns (response: PracticeResponse)
      requires Valid() && userId in users
      modifies this`users, this`practiceSessions
      ensures Valid()
      ensures practiceSessions == old(practiceSessions) + [PracticeRecord(
                id, userId, data.mode, data.duration, data.originalText,
                data.wpm, data.accuracy, data.errors, now)]
      ensures var u := Award(old(users)[userId], CalculateXp(data.wpm, data.accuracy));
              users == old(users)[userId := u.(streak := NextStreak(u.streak, today))]
      ensures response == PracticeResponse(
                id, CalculateXp(data.wpm, data.accuracy),
                old(users)[userId].xp + CalculateXp(data.wpm, data.accuracy),
                LevelFromXp(old(users)[userId].xp + CalculateXp(data.wpm, data.accuracy)))
      ensures response.newXp > old(users)[userId].xp
    {
      practiceSessions := practiceSessions + [PracticeRecord(
        id, userId, data.mode, data.duration, data.originalText,
        data.wpm, data.accuracy, data.errors, now)];
      var user := users[userId];
      var gained := CalculateXp(data.wpm, data.accuracy);
      var updated := Award(user, gained);
      AwardProgress(user, gained);
      users := users[userId := updated];
      UpdateStreak(userId, today);
      response := PracticeResponse(id, gained, updated.xp, updated.level);
    }

    /** `submit_test` for the signed-in user: an unknown test is a 404 and
        changes nothing; otherwise the result is stored with the pass
        verdict, the user earns the test's points with the level
        recomputed, and the streak is updated. */
    method SubmitTest(userId: string, result: TestResultCreate, id: string, now: int, today: int)
      returns (outcome: Outcome<SubmitResponse>)
      requires Valid() && userId in users
      modifies this`users, this`testResults
      ensures Valid()
      ensures result.testId !in typingTests ==>
                outcome == TestNotFound && users == old(users) && testResults == old(testResults)
      ensures result.testId in typingTests ==>
                var passed := Passed(result.wpm, result.accuracy, typingTests[result.testId].targetWpm);
                var gained := TestXpGained(result.wpm, result.accuracy, passed);
                var u := Award(old(users)[userId], gained);
                && testResults == old(testResults) + [TestRecord(
                     id, userId, result.testId, result.wpm, result.accuracy, result.errors,
                     result.duration, result.typedText, passed, now)]
                && users == old(users)[userId := u.(streak := NextStreak(u.streak, today))]
                && outcome == Ok(SubmitResponse(id, passed, gained, u.xp, u.level))
                && u.xp > old(users)[userId].xp
    {
      if result.testId !in typingTests {
        return TestNotFound;
      }
      var test := typingTests[result.testId];
      var passed := Passed(result.wpm, result.accuracy, test.targetWpm);
      testResults := testResults + [TestRecord(
        id, userId, result.testId, result.wpm, result.accuracy, result.errors,
        result.duration, result.typedText, passed, now)];
      var user := users[userId];
      var gained := TestXpGained(result.wpm, result.accuracy, passed);
      TestXpGainedBonus(result.wpm, result.accuracy, passed);
      var updated := Award(user, gained);
      AwardProgress(user, gained);
      users := users[userId := updated];
      UpdateStreak(userId, today);
      outcome := Ok(SubmitResponse(id, passed, gained, updated.xp, updated.level));
    }
  }
}
