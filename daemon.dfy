/**
 * The daemon itself: its configuration, the state its main loop keeps
 * between cycles (the two timer marks, the upload failure counter, and
 * whether the process has terminated), start-up, and one cycle of the
 * loop: fetch, compose, scale, upload, then the timed cleanup and
 * library decryption, then the sleep.
 */
module Daemon {

  import opened Wrappers
  import opened Schedule
  import Layout
  import Cameras
  import Retention

  /** The smallest maximum width the configuration accepts. */
  const MinMaxWidth := 10

  /** The settings the main loop reads, all integers; intervals in seconds, minutes and hours as configured. */
  datatype Config = Config(
    maxWidth: int,
    intervalSecs: int,
    cleanMins: int,
    retentionHours: int,
    encryptMins: int,
    encryptionKey: Option<string>,
    directory: string)

  /** The defaults used when a setting is not in the environment. */
  const Defaults := Config(Layout.DefaultMaxWidth, 60, 60, 24, 60, None, "/")

  predicate ValidConfig(c: Config)
  {
    c.maxWidth >= MinMaxWidth
  }

  /**
   * The defaults are a configuration the daemon accepts, and with no key
   * configured the decryption step never ends the process.
   */
  lemma DefaultsAccepted()
    ensures ValidConfig(Defaults)
    ensures forall outcome :: Renew(Defaults.encryptionKey, outcome) == NoKey
  {
  }

  /** The source's `$key != null` is a loose comparison: an empty key counts as no key. */
  predicate KeyConfigured(key: Option<string>)
  {
    key.Some? && key.value != ""
  }

  /** What the store's decrypt call did: unlocked, refused (a false result), or raised. */
  datatype DecryptOutcome = Decrypted | Refused | DecryptRaised

  /** What the decryption step of a cycle came to. */
  datatype Renewal = NotDue | NoKey | Renewed | Fatal

  /**
   * The decryption step: without a key nothing is sent; with one, anything
   * but a successful unlock ends the process (a refusal exits, and an
   * exception is not caught).
   */
  function Renew(key: Option<string>, outcome: DecryptOutcome): (r: Renewal)
    ensures r != NotDue
    ensures r == NoKey <==> !KeyConfigured(key)
    ensures r == Renewed <==> KeyConfigured(key) && outcome == Decrypted
    ensures r == Fatal <==> KeyConfigured(key) && outcome != Decrypted
  {
    if !KeyConfigured(key) then NoKey
    else if outcome == Decrypted then Renewed
    else Fatal
  }

  /**
   * The clock readings one cycle takes, in microseconds: at its start, at
   * the cleanup check, at the decryption check and at its end; and the
   * cleanup pass's own reading, in whole seconds.
   */
  datatype Readings = Readings(start: int, cleanAt: int, decryptAt: int, end: int, sweepNow: int)

  /** How the upload of a cycle went. */
  datatype UploadReport = Sent | Swallowed | Rethrown

  /** Everything one cycle did. `sleepSecs` is None when the process ended during the cycle. */
  datatype CycleReport<Img> = CycleReport(
    frame: Layout.Frame<Img>,
    scaled: Layout.Size,
    upload: UploadReport,
    sweep: Option<Retention.Sweep>,
    renewal: Renewal,
    sleepSecs: Option<int>)

  class Watcher {
    const config: Config
    const cameraUrls: seq<string>

    /** Clock reading of the last cleanup (or of process start). */
    var cleanMark: int
    /** Clock reading of the last decryption request (or of process start). */
    var decryptMark: int
    /** Failed uploads since process start. */
    var uploadAttempts: nat
    /** The process has terminated. */
    var halted: bool

    ghost predicate Valid()
      reads this
    {
      && ValidConfig(config)
      && |cameraUrls| <= Layout.MaxCameras
      && (!halted ==> 1 <= |cameraUrls|)
    }

    /**
     * Start-up: each mark takes its own clock reading, the camera URLs are
     * collected, the counter is zero; the process ends when the initial
     * decryption fails or no camera is configured.
     */
    constructor (config: Config, env: map<string, string>, cleanStart: int, decryptStart: int, unlock: DecryptOutcome)
      requires ValidConfig(config)
      ensures Valid()
      ensures this.config == config && cameraUrls == Cameras.ConfiguredUrls(env)
      ensures cleanMark == cleanStart && decryptMark == decryptStart && uploadAttempts == 0
      ensures halted <==> Renew(config.encryptionKey, unlock) == Fatal || cameraUrls == []
    {
      var urls := Cameras.CollectCameraUrls(env);
      this.config := config;
      cameraUrls := urls;
      cleanMark := cleanStart;
      decryptMark := decryptStart;
      uploadAttempts := 0;
      halted := Renew(config.encryptionKey, unlock) == Fatal || urls == [];
    }

    /** The upload of a finished frame, with the failure counter's bookkeeping. */
    method SendFile(outcome: UploadOutcome) returns (rethrown: bool)
      requires Valid() && !halted
      modifies this`uploadAttempts
      ensures Valid()
      ensures UploadStep(old(uploadAttempts), outcome) == UploadStepResult(uploadAttempts, rethrown)
    {
      rethrown := false;
      if outcome == UploadRaised {
        uploadAttempts := uploadAttempts + 1;
        if uploadAttempts > UploadAttemptLimit {
          rethrown := true;
        }
      }
    }

    /**
     * The timer bookkeeping at the end of a cycle: each timer fires, and
     * moves only its own mark to its reading, when strictly more than its
     * interval has passed; then the sleep is computed.
     */
    method Tick(clock: Readings) returns (runCleanup: bool, runDecrypt: bool, sleepSecs: int)
      requires Valid() && !halted
      modifies this`cleanMark, this`decryptMark
      ensures Valid()
      ensures TimerStep(old(cleanMark), clock.cleanAt, config.cleanMins) == TimerState(runCleanup, cleanMark)
      ensures TimerStep(old(decryptMark), clock.decryptAt, config.encryptMins) == TimerState(runDecrypt, decryptMark)
      ensures sleepSecs == SleepSeconds(config.intervalSecs, clock.end - clock.start)
    {
      var clean := TimerStep(cleanMark, clock.cleanAt, config.cleanMins);
      runCleanup, cleanMark := clean.fired, clean.mark;
      var decrypt := TimerStep(decryptMark, clock.decryptAt, config.encryptMins);
      runDecrypt, decryptMark := decrypt.fired, decrypt.mark;
      sleepSecs := SleepSeconds(config.intervalSecs, clock.end - clock.start);
    }

    /**
     * One cycle of the main loop. The foreign calls are given by their
     * outcomes: `fetch` per camera URL, the upload, the store's listing and
     * remove calls, and the decrypt call.
     */
    method RunCycle<Img>(fetch: string -> Option<Img>, upload: UploadOutcome, clock: Readings,
                         listing: Retention.Listing, remove: string -> Retention.RemoveOutcome,
                         unlock: DecryptOutcome)
      returns (r: CycleReport<Img>)
      requires Valid() && !halted
      modifies this
      ensures Valid()
      ensures r.frame == Layout.Compose(Cameras.Snapshot(cameraUrls, fetch))
      ensures r.scaled == Layout.Downscale(Layout.Size(r.frame.width, r.frame.height), config.maxWidth)
      ensures UploadStep(old(uploadAttempts), upload) == UploadStepResult(uploadAttempts, r.upload == Rethrown)
      ensures r.upload == Sent <==> upload == Uploaded
      ensures r.upload == Rethrown ==>
        && halted && r.sweep == None && r.renewal == NotDue && r.sleepSecs == None
        && cleanMark == old(cleanMark) && decryptMark == old(decryptMark)
      ensures r.upload != Rethrown ==>
        && TimerStep(old(cleanMark), clock.cleanAt, config.cleanMins) == TimerState(r.sweep.Some?, cleanMark)
        && TimerStep(old(decryptMark), clock.decryptAt, config.encryptMins) == TimerState(r.renewal != NotDue, decryptMark)
        && (r.renewal != NotDue ==> r.renewal == Renew(config.encryptionKey, unlock))
        && (halted <==> r.renewal == Fatal)
        && r.sleepSecs == (if halted then None else Some(SleepSeconds(config.intervalSecs, clock.end - clock.start)))
      ensures r.sweep.Some? && listing.ListRaised? ==> r.sweep.value == Retention.Sweep([], [], true)
      ensures r.sweep.Some? && listing.Listed? ==>
        Retention.SweepOf(config.directory, listing.items, clock.sweepNow, config.retentionHours, remove, r.sweep.value)
    {
      var images := Cameras.AcquireImages(cameraUrls, fetch);
      var frame := Layout.Compose(images);
      var scaled := Layout.Downscale(Layout.Size(frame.width, frame.height), config.maxWidth);
      var rethrown := SendFile(upload);
      if rethrown {
        halted := true;
        return CycleReport(frame, scaled, Rethrown, None, NotDue, None);
      }
      var sent := if upload == Uploaded then Sent else Swallowed;
      var runCleanup, runDecrypt, sleepSecs := Tick(clock);
      var sweep: Option<Retention.Sweep> := None;
      if runCleanup {
        var s := Retention.RemoveOldFiles(config.directory, config.retentionHours, clock.sweepNow, listing, remove);
        sweep := Some(s);
      }
      var renewal := NotDue;
      if runDecrypt {
        renewal := Renew(config.encryptionKey, unlock);
        if renewal == Fatal {
          halted := true;
        }
      }
      r := CycleReport(frame, scaled, sent, sweep, renewal, if halted then None else Some(sleepSecs));
    }
  }
}
