/** The graded-test page as a state machine: it starts on demand, accepts
    typing while running and not finished, counts down one second per tick,
    and submits itself exactly once, when the countdown expires. Leaving
    while running only opens a confirmation dialog; confirming leaves without
    submitting. */
module TestPage {
  import opened Common
  import M = Metrics

  /** The payload `submitTest` posts to the server. */
  datatype TestSubmission = TestSubmission(
    testId: string, typedText: string, wpm: int, accuracy: int, errors: int, duration: int)

  class TestSession {
    const testId: string
    const content: string
    const duration: nat

    var started: bool
    var finished: bool
    var timeLeft: int
    var typedText: string
    var wpm: int
    var accuracy: int
    var errors: int
    var exitDialogOpen: bool
    /** The page was navigated away from; its timer is cleared. */
    var left: bool

    /** The inputs the displayed metrics were last computed from: the page
        recomputes them only when the typed text changes to a non-empty
        value. */
    ghost var measured: M.Measurement

    ghost predicate Valid()
      reads this
    {
      && |typedText| <= |content|
      && 0 <= timeLeft <= duration
      && (finished ==> started && timeLeft == 0)
      && measured.content == content
      && |measured.typed| <= |content| && 0 <= measured.elapsed <= duration
      && M.Metrics(wpm, accuracy, errors) == M.Stats(content, measured.typed, measured.elapsed)
      && wpm >= 0 && 0 <= accuracy <= 100 && 0 <= errors <= |content|
    }

    /** The page once `fetchTest` has loaded the test: not started, the full
        duration left, nothing typed, and the initial metrics. */
    constructor (testId: string, content: string, duration: nat)
      ensures Valid()
      ensures this.testId == testId && this.content == content && this.duration == duration
      ensures !started && !finished && timeLeft == duration && typedText == []
      ensures wpm == 0 && accuracy == 100 && errors == 0
      ensures !exitDialogOpen && !left
    {
      this.testId, this.content, this.duration := testId, content, duration;
      started, finished := false, false;
      timeLeft := duration;
      typedText := [];
      wpm, accuracy, errors := 0, 100, 0;
      exitDialogOpen, left := false, false;
      measured := M.Measurement(content, [], 0);
    }

    /** `startTest`. */
    method Start()
      requires Valid()
      modifies this`started
      ensures Valid() && started
    {
      started := true;
    }

    /** `handleTyping`: ignored unless running and not finished; a candidate
        longer than the test's text is dropped; a new non-empty text
        refreshes the metrics at the current elapsed time. */
    method Type(candidate: string)
      requires Valid()
      modifies this`typedText, this`wpm, this`accuracy, this`errors, this`measured
      ensures Valid()
      ensures typedText == if old(started) && !old(finished) && |candidate| <= |content|
                           then candidate else old(typedText)
      ensures typedText != old(typedText) && typedText != [] ==>
                M.Metrics(wpm, accuracy, errors) == M.Stats(content, typedText, duration - timeLeft)
      ensures typedText == old(typedText) || typedText == [] ==>
                wpm == old(wpm) && accuracy == old(accuracy) && errors == old(errors)
    {
      if !started || finished {
        return;
      }
      if |candidate| <= |content| {
        var changed := candidate != typedText;
        typedText := candidate;
        if changed && |typedText| > 0 {
          var elapsed := duration - timeLeft;
          var m := M.CalculateStats(content, typedText, elapsed);
          assert m.wpm >= 0 && 0 <= m.accuracy <= 100 && 0 <= m.errors <= |typedText| by {
            M.StatsBounds(content, typedText, elapsed);
          }
          wpm, accuracy, errors := m.wpm, m.accuracy, m.errors;
          measured := M.Measurement(content, typedText, elapsed);
        }
      }
    }

    /** The state change of `submitTest` and the payload it posts; the
        duration is the test's duration less the time left on the render
        that runs it. This is the internal step of `Tick`, its only caller
        on the page, which restores `Valid()` around it. */
    method Submit() returns (submission: TestSubmission)
      modifies this`finished
      ensures finished
      ensures submission == TestSubmission(testId, typedText, wpm, accuracy, errors, duration - timeLeft)
    {
      finished := true;
      submission := TestSubmission(testId, typedText, wpm, accuracy, errors, duration - timeLeft);
    }

    /** One second of the countdown. The interval exists only while the test
        is started, time is left and the page is still shown. On the last
        second it submits (reading the time left before it is zeroed) and
        sets the time left to zero, which stops the interval for good. */
    method Tick() returns (submission: Option<TestSubmission>)
      requires Valid()
      modifies this`timeLeft, this`finished
      ensures Valid()
      ensures !(old(started) && old(timeLeft) > 0 && !left) ==>
                timeLeft == old(timeLeft) && finished == old(finished) && submission == None
      ensures old(started) && old(timeLeft) > 1 && !left ==>
                timeLeft == old(timeLeft) - 1 && finished == old(finished) && submission == None
      ensures old(started) && old(timeLeft) == 1 && !left ==>
                timeLeft == 0 && finished &&
                submission == Some(TestSubmission(testId, typedText, wpm, accuracy, errors, duration - 1))
      ensures old(finished) ==> submission == None
      ensures submission.Some? ==> finished
    {
      submission := None;
      if started && timeLeft > 0 && !left {
        if timeLeft <= 1 {
          var s := Submit();
          submission := Some(s);
          timeLeft := 0;
        } else {
          timeLeft := timeLeft - 1;
        }
      }
    }

    /** `handleExit`: while running it only opens the confirmation dialog;
        otherwise it navigates away. */
    method HandleExit() returns (navigate: bool)
      modifies this`exitDialogOpen, this`left
      ensures navigate <==> !(started && !finished)
      ensures exitDialogOpen == (old(exitDialogOpen) || !navigate)
      ensures left == (old(left) || navigate)
    {
      if started && !finished {
        exitDialogOpen := true;
        navigate := false;
      } else {
        navigate := true;
        left := true;
      }
    }

    /** "Continue Test" in the dialog. */
    method CancelExit()
      modifies this`exitDialogOpen
      ensures !exitDialogOpen
    {
      exitDialogOpen := false;
    }

    /** `confirmExit`: clears the timer and leaves; nothing is submitted and
        the test is not finished. */
    method ConfirmExit()
      modifies this`left
      ensures left
    {
      left := true;
    }
  }
}
