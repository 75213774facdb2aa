/** The free-practice page as a state machine: a mode and a duration chosen
    while stopped, a start that resets the run, typing while running, a
    one-second countdown that finishes the run when it expires, a stop button
    that finishes it early, and a reset. A finished run is posted only if
    something was typed. Loading a text is the server's answer, passed in as
    `Some(text)`, or `None` when the request failed. */
module PracticePage {
  import opened Common
  import M = Metrics

  /** The durations, in seconds, the duration selector offers. */
  const DurationChoices: set<nat> := {60, 180, 300, 600, 900}

  /** The payload `finishPractice` posts to the server. */
  datatype PracticeSubmission = PracticeSubmission(
    mode: string, duration: int, typedText: string, originalText: string,
    wpm: int, accuracy: int, errors: int)

  class PracticeSession {
    var mode: string
    var duration: nat
    var content: string
    var typedText: string
    var started: bool
    var timeLeft: int
    var wpm: int
    var accuracy: int
    var errors: int

    /** The inputs the displayed metrics were last computed from. */
    ghost var measured: M.Measurement

    ghost predicate Valid()
      reads this
    {
      && duration in DurationChoices
      && timeLeft >= 0
      && (started ==> |typedText| <= |content| && timeLeft <= duration)
      && M.Metrics(wpm, accuracy, errors) == M.Stats(measured.content, measured.typed, measured.elapsed)
      && wpm >= 0 && 0 <= accuracy <= 100 && errors >= 0
    }

    /** The page as first shown: the "words" mode, one minute, the initial
        metrics, and the text of the first load if it succeeded. */
    constructor (loaded: Option<string>)
      ensures Valid()
      ensures mode == "words" && duration == 60 && timeLeft == 60 && !started
      ensures content == (if loaded.Some? then loaded.value else [])
      ensures typedText == [] && wpm == 0 && accuracy == 100 && errors == 0
    {
      mode, duration, timeLeft, started := "words", 60, 60, false;
      content := if loaded.Some? then loaded.value else [];
      typedText := [];
      wpm, accuracy, errors := 0, 100, 0;
      measured := M.Measurement([], [], 0);
    }

    /** The mode selector, disabled while running. A different mode reloads
        the text, which is replaced only if the load succeeds; selecting the
        current mode again loads nothing. */
    method SelectMode(m: string, loaded: Option<string>)
      requires Valid()
      modifies this`mode, this`content
      ensures Valid()
      ensures mode == if old(started) then old(mode) else m
      ensures content == if !old(started) && m != old(mode) && loaded.Some? then loaded.value
                         else old(content)
    {
      if started || m == mode {
        return;
      }
      mode := m;
      if loaded.Some? {
        content := loaded.value;
      }
    }

    /** The duration selector, disabled while running. The countdown shown
        keeps its old value until the next start or reset. */
    method SelectDuration(d: nat)
      requires Valid() && d in DurationChoices
      modifies this`duration
      ensures Valid()
      ensures duration == if old(started) then old(duration) else d
    {
      if !started {
        duration := d;
      }
    }

    /** `startPractice`: running, the full duration left, nothing typed and
        the initial metrics. */
    method Start()
      requires Valid()
      modifies this`started, this`timeLeft, this`typedText, this`wpm, this`accuracy, this`errors
      modifies this`measured
      ensures Valid()
      ensures started && timeLeft == duration && typedText == []
      ensures wpm == 0 && accuracy == 100 && errors == 0
    {
      started, timeLeft, typedText := true, duration, [];
      wpm, accuracy, errors := 0, 100, 0;
      measured := M.Measurement(content, [], 0);
      M.StatsOfNothing(content);
    }

    /** `handleTyping`: ignored unless running; a candidate longer than the
        text is dropped; a new non-empty text refreshes the metrics at the
        current elapsed time. */
    method Type(candidate: string)
      requires Valid()
      modifies this`typedText, this`wpm, this`accuracy, this`errors
      modifies this`measured
      ensures Valid()
      ensures typedText == if old(started) && |candidate| <= |content| then candidate else old(typedText)
      ensures typedText != old(typedText) && typedText != [] ==>
                M.Metrics(wpm, accuracy, errors) == M.Stats(content, typedText, duration - timeLeft)
      ensures typedText == old(typedText) || typedText == [] ==>
                wpm == old(wpm) && accuracy == old(accuracy) && errors == old(errors)
    {
      if !started || |candidate| > |content| {
        return;
      }
      var changed := candidate != typedText;
      typedText := candidate;
      if changed && |typedText| > 0 {
        var elapsed := duration - timeLeft;
        var m := M.CalculateStats(content, typedText, elapsed);
        assert m.wpm >= 0 && 0 <= m.accuracy <= 100 && m.errors >= 0 by {
          M.StatsBounds(content, typedText, elapsed);
        }
        wpm, accuracy, errors := m.wpm, m.accuracy, m.errors;
        measured := M.Measurement(content, typedText, elapsed);
      }
    }

    /** `finishPractice`, from the stop button or the last tick: the run
        stops; nothing is posted when nothing was typed; otherwise the post
        carries the selected duration, however much of it was used. Both
        callers exist only while a run is going (the button is rendered and
        the countdown runs only then), so a stopped session posts nothing. */
    method Finish() returns (submission: Option<PracticeSubmission>)
      requires Valid()
      modifies this`started
      ensures Valid() && !started
      ensures !old(started) ==> submission == None
      ensures old(started) ==> (typedText == [] <==> submission == None)
      ensures submission.Some? ==>
                submission.value == PracticeSubmission(mode, duration, typedText, content, wpm, accuracy, errors)
    {
      submission := None;
      if started {
        started := false;
        if typedText != [] {
          submission := Some(PracticeSubmission(mode, duration, typedText, content, wpm, accuracy, errors));
        }
      }
    }

    /** One second of the countdown, which runs only while started with time
        left. On the last second it finishes the run and sets the time left
        to zero. */
    method Tick() returns (submission: Option<PracticeSubmission>)
      requires Valid()
      modifies this`started, this`timeLeft
      ensures Valid()
      ensures !(old(started) && old(timeLeft) > 0) ==>
                started == old(started) && timeLeft == old(timeLeft) && submission == None
      ensures old(started) && old(timeLeft) > 1 ==>
                started && timeLeft == old(timeLeft) - 1 && submission == None
      ensures old(started) && old(timeLeft) == 1 ==>
                !started && timeLeft == 0 &&
                (typedText == [] <==> submission == None) &&
                (submission.Some? ==>
                   submission.value == PracticeSubmission(mode, duration, typedText, content, wpm, accuracy, errors))
    {
      submission := None;
      if started && timeLeft > 0 {
        if timeLeft <= 1 {
          submission := Finish();
          timeLeft := 0;
        } else {
          timeLeft := timeLeft - 1;
        }
      }
    }

    /** `resetPractice`: stopped, nothing typed, the full duration shown, the
        initial metrics, and the current mode's text reloaded. */
    method Reset(loaded: Option<string>)
      requires Valid()
      modifies this`started, this`timeLeft, this`typedText, this`wpm, this`accuracy, this`errors
      modifies this`content, this`measured
      ensures Valid()
      ensures !started && typedText == [] && timeLeft == duration
      ensures wpm == 0 && accuracy == 100 && errors == 0
      ensures content == if loaded.Some? then loaded.value else old(content)
    {
      started, typedText, timeLeft := false, [], duration;
      wpm, accuracy, errors := 0, 100, 0;
      measured := M.Measurement(content, [], 0);
      M.StatsOfNothing(content);
      if loaded.Some? {
        content := loaded.value;
      }
    }
  }
}
