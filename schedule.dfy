/**
 * The bookkeeping of the daemon's main loop: the two "last fired" timers
 * (cleanup and library decryption), the sleep that holds the capture
 * cadence, and the upload failure counter.
 *
 * Clock readings are integer microseconds, the resolution of the wall
 * clock the source reads; intervals are configured in seconds and minutes.
 */
module Schedule {

  const MicrosPerSecond := 1000000
  const SecondsPerMinute := 60

  /** The source's rounding of a duration to whole seconds: to the nearest integer, halves away from zero. */
  function RoundToSeconds(micros: int): (r: int)
    ensures micros >= 0 ==> r * MicrosPerSecond - MicrosPerSecond / 2 <= micros < r * MicrosPerSecond + MicrosPerSecond / 2
    ensures micros < 0 ==> r * MicrosPerSecond - MicrosPerSecond / 2 < micros <= r * MicrosPerSecond + MicrosPerSecond / 2
  {
    if micros >= 0 then (micros + MicrosPerSecond / 2) / MicrosPerSecond
    else -((-micros + MicrosPerSecond / 2) / MicrosPerSecond)
  }

  /** The pause after a cycle that took `execMicros`: what is left of the interval, but at least one second. */
  function SleepSeconds(intervalSecs: int, execMicros: int): (r: int)
    ensures r >= 1
    ensures intervalSecs - RoundToSeconds(execMicros) >= 1 ==> r == intervalSecs - RoundToSeconds(execMicros)
    ensures intervalSecs - RoundToSeconds(execMicros) < 1 ==> r == 1
  {
    var left := intervalSecs - RoundToSeconds(execMicros);
    if left > 1 then left else 1
  }

  /**
   * A cycle that ends more than half a second before its interval is up is
   * followed by a sleep that makes cycle plus sleep the interval, to within
   * half a second.
   */
  lemma CadenceHeld(intervalSecs: int, execMicros: int)
    requires 0 <= execMicros && RoundToSeconds(execMicros) < intervalSecs
    ensures var total := execMicros + SleepSeconds(intervalSecs, execMicros) * MicrosPerSecond;
      intervalSecs * MicrosPerSecond - MicrosPerSecond / 2 <= total < intervalSecs * MicrosPerSecond + MicrosPerSecond / 2
  {
    var r := RoundToSeconds(execMicros);
    var s := SleepSeconds(intervalSecs, execMicros);
    assert s == intervalSecs - r;
    assert s * MicrosPerSecond + r * MicrosPerSecond == intervalSecs * MicrosPerSecond;
  }

  /** A cycle that overran its interval is followed by the one-second minimum, so no backlog builds up. */
  lemma OverrunSleepsOneSecond(intervalSecs: int, execMicros: int)
    requires execMicros >= intervalSecs * MicrosPerSecond
    ensures SleepSeconds(intervalSecs, execMicros) == 1
  {
    var r := RoundToSeconds(execMicros);
    if execMicros >= 0 {
      assert r * MicrosPerSecond + MicrosPerSecond / 2 > intervalSecs * MicrosPerSecond;
      assert r >= intervalSecs;
    } else {
      assert r * MicrosPerSecond + MicrosPerSecond / 2 >= intervalSecs * MicrosPerSecond;
      assert r >= intervalSecs;
    }
  }

  /** A timer fires when strictly more than its interval has passed since its mark. */
  predicate TimerFires(mark: int, now: int, intervalMins: int)
  {
    now - mark > intervalMins * SecondsPerMinute * MicrosPerSecond
  }

  /** A timer after one check: whether it fired, and its mark afterwards. */
  datatype TimerState = TimerState(fired: bool, mark: int)

  /**
   * One check of a timer at the reading `now`, the rule both timers of the
   * main loop follow: a firing moves the mark to `now`, otherwise the mark
   * stays.
   */
  function TimerStep(mark: int, now: int, intervalMins: int): (s: TimerState)
    ensures s.fired ==> now - mark > intervalMins * SecondsPerMinute * MicrosPerSecond && s.mark == now
    ensures !s.fired ==> now - mark <= intervalMins * SecondsPerMinute * MicrosPerSecond && s.mark == mark
    ensures 0 <= intervalMins && mark <= now ==> mark <= s.mark <= now
  {
    var f := TimerFires(mark, now, intervalMins);
    TimerState(f, if f then now else mark)
  }

  /**
   * The firings of one timer checked at the readings `times`, one
   * `TimerStep` per reading.
   */
  function FireTrace(mark: int, times: seq<int>, intervalMins: int): (fired: seq<bool>)
    ensures |fired| == |times|
    decreases |times|
  {
    if times == [] then []
    else
      var s := TimerStep(mark, times[0], intervalMins);
      [s.fired] + FireTrace(s.mark, times[1..], intervalMins)
  }

  /** Every firing is more than the interval after the initial mark. */
  lemma {:induction false} FiringsAfterMark(mark: int, times: seq<int>, intervalMins: int, j: int)
    requires 0 <= intervalMins && 0 <= j < |times|
    requires FireTrace(mark, times, intervalMins)[j]
    ensures TimerFires(mark, times[j], intervalMins)
    decreases j
  {
    if j > 0 {
      var m := TimerStep(mark, times[0], intervalMins).mark;
      FiringsAfterMark(m, times[1..], intervalMins, j - 1);
    }
  }

  /**
   * Two firings of a timer are always strictly more than its interval
   * apart, whatever the clock readings: the cleanup and the decryption
   * renewal each run at most once per interval.
   */
  lemma {:induction false} FiringsSpacedApart(mark: int, times: seq<int>, intervalMins: int, i: int, j: int)
    requires 0 <= intervalMins && 0 <= i < j < |times|
    requires FireTrace(mark, times, intervalMins)[i] && FireTrace(mark, times, intervalMins)[j]
    ensures times[j] - times[i] > intervalMins * SecondsPerMinute * MicrosPerSecond
    decreases i
  {
    var m := TimerStep(mark, times[0], intervalMins).mark;
    if i == 0 {
      FiringsAfterMark(m, times[1..], intervalMins, j - 1);
    } else {
      FiringsSpacedApart(m, times[1..], intervalMins, i - 1, j - 1);
    }
  }

  /** Uploads that raise before the counter passes this limit are swallowed. */
  const UploadAttemptLimit := 5

  /** What one upload call did: the file went up, or the client raised. */
  datatype UploadOutcome = Uploaded | UploadRaised

  /** The failure counter after one upload, and whether the exception was rethrown. */
  datatype UploadStepResult = UploadStepResult(attempts: nat, rethrown: bool)

  /**
   * One upload call: every exception counts one more attempt; a success
   * leaves the counter as it is (it is never reset); the exception is
   * rethrown once the counter is above the limit.
   */
  function UploadStep(attempts: nat, outcome: UploadOutcome): (r: UploadStepResult)
    ensures r.attempts >= attempts
    ensures outcome == Uploaded ==> r.attempts == attempts && !r.rethrown
    ensures outcome == UploadRaised ==> r.attempts == attempts + 1
    ensures r.rethrown <==> outcome == UploadRaised && attempts + 1 > UploadAttemptLimit
  {
    match outcome
    case Uploaded => UploadStepResult(attempts, false)
    case UploadRaised => UploadStepResult(attempts + 1, attempts + 1 > UploadAttemptLimit)
  }

  /** The counter after the uploads of `history`, starting from zero at process start. */
  function AttemptsAfter(history: seq<UploadOutcome>): nat
  {
    if history == [] then 0
    else UploadStep(AttemptsAfter(history[..|history| - 1]), history[|history| - 1]).attempts
  }

  /** The uploads that rethrow: the call at index k rethrows. */
  predicate RethrowsAt(history: seq<UploadOutcome>, k: int)
    requires 0 <= k < |history|
  {
    UploadStep(AttemptsAfter(history[..k]), history[k]).rethrown
  }

  /** Number of failed uploads in a history. */
  function Failures(history: seq<UploadOutcome>): nat
  {
    multiset(history)[UploadRaised]
  }

  /** The counter is the number of failed uploads since the process started. */
  lemma {:induction false} AttemptsCountFailures(history: seq<UploadOutcome>)
    ensures AttemptsAfter(history) == Failures(history)
  {
    if history != [] {
      var init := history[..|history| - 1];
      AttemptsCountFailures(init);
      assert history == init + [history[|history| - 1]];
      assert multiset(history) == multiset(init) + multiset{history[|history| - 1]};
    }
  }

  /** An upload rethrows exactly when it fails and is the sixth or a later failure. */
  lemma RethrowsIffPastLimit(history: seq<UploadOutcome>, k: int)
    requires 0 <= k < |history|
    ensures RethrowsAt(history, k) <==> history[k] == UploadRaised && Failures(history[..k + 1]) > UploadAttemptLimit
  {
    AttemptsCountFailures(history[..k]);
    assert history[..k + 1] == history[..k] + [history[k]];
    assert multiset(history[..k + 1]) == multiset(history[..k]) + multiset{history[k]};
  }

  /** The process survives a history of uploads exactly when it holds at most five failures. */
  lemma {:induction false} SurvivesIffFewFailures(history: seq<UploadOutcome>)
    ensures (forall k :: 0 <= k < |history| ==> !RethrowsAt(history, k)) <==> Failures(history) <= UploadAttemptLimit
  {
    if history != [] {
      var n := |history| - 1;
      var init := history[..n];
      SurvivesIffFewFailures(init);
      assert forall k :: 0 <= k < n ==> (RethrowsAt(history, k) <==> RethrowsAt(init, k)) by {
        forall k | 0 <= k < n ensures RethrowsAt(history, k) <==> RethrowsAt(init, k) {
          assert history[..k] == init[..k];
        }
      }
      RethrowsIffPastLimit(history, n);
      assert history[..n + 1] == history;
      assert history == init + [history[n]];
      assert multiset(history) == multiset(init) + multiset{history[n]};
    }
  }

  /** The first upload that rethrows, taking the process down, is the sixth failure. */
  lemma FatalOnSixthFailure(history: seq<UploadOutcome>, k: int)
    requires 0 <= k < |history|
    requires forall j :: 0 <= j < k ==> !RethrowsAt(history, j)
    requires RethrowsAt(history, k)
    ensures Failures(history[..k + 1]) == UploadAttemptLimit + 1
  {
    var init := history[..k];
    assert forall j :: 0 <= j < |init| ==> !RethrowsAt(init, j) by {
      forall j | 0 <= j < |init| ensures !RethrowsAt(init, j) {
        assert !RethrowsAt(history, j);
        assert init[..j] == history[..j] && init[j] == history[j];
      }
    }
    SurvivesIffFewFailures(init);
    RethrowsIffPastLimit(history, k);
    assert history[..k + 1] == init + [history[k]];
    assert multiset(history[..k + 1]) == multiset(init) + multiset{history[k]};
  }
}
