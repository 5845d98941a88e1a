/**
 * Running ffmpeg (main.go): the encoder chosen for the first attempt, the
 * single CPU retry when a hardware launch fails, the progress lines read
 * from ffmpeg's standard output, and the final outcome.
 *
 * The process itself is not run: whether each `cmd.Start` succeeds, the
 * lines ffmpeg prints, strconv.ParseFloat and whether `cmd.Wait` succeeds
 * are inputs (World). So are the calls whose code is not part of this
 * model: the class encoder.Auto detects for itself on each attempt, the
 * vendor constants and encoder availability, and encoder.ApplyCompression
 * (Env).
 */
module Supervisor {
  import opened Wrappers
  import opened Strings
  import opened Scaler
  import opened Profiles
  import opened Ffmpeg
  import opened Encoder
  import opened Invocation

  datatype Env = Env(
    vendors: VendorClasses,
    avail: Availability,
    /** The class encoder.Auto's own detection reports for the first attempt. */
    firstClass: Gpu,
    /** The class it reports after ffmpeg.SetForcedGPU("cpu"). */
    retryClass: Gpu,
    /** encoder.ApplyCompression(config, class, profile). */
    applyCompression: (Config, Gpu, Profile) -> Config)

  /** Everything main has settled before the launch. */
  datatype Job = Job(
    input: string, mode: string, target: Resolution, output: string,
    profile: Profile, compress: bool, detected: Gpu, dur: real)

  datatype World = World(
    /** The result of each cmd.Start, in order; a missing entry is a failure. */
    startOk: seq<bool>,
    /** The lines ffmpeg writes to standard output. */
    lines: seq<string>,
    /** strconv.ParseFloat; None for an error. */
    parseFloat: string -> Option<real>,
    /** Whether cmd.Wait reports success. */
    waitOk: bool)

  predicate Started(w: World, attempt: nat) {
    attempt < |w.startOk| && w.startOk[attempt]
  }

  /** The configuration of an attempt: encoder.Auto, then compression with the given class when asked for. */
  function EncoderFor(env: Env, autoClass: Gpu, compressClass: Gpu, profile: Profile, compress: bool): (c: Config)
    ensures !compress ==> c == Encoder.Auto(autoClass, env.vendors, env.avail, profile) && WellFormed(c)
    ensures compress ==> c == env.applyCompression(Encoder.Auto(autoClass, env.vendors, env.avail, profile), compressClass, profile)
  {
    var enc := Encoder.Auto(autoClass, env.vendors, env.avail, profile);
    if compress then env.applyCompression(enc, compressClass, profile) else enc
  }

  /** The first attempt compresses for the class main detected. */
  function FirstEncoder(job: Job, env: Env): Config {
    EncoderFor(env, env.firstClass, job.detected, job.profile, job.compress)
  }

  /** The retry compresses for the CPU class. */
  function RetryEncoder(job: Job, env: Env): Config {
    EncoderFor(env, env.retryClass, CPU, job.profile, job.compress)
  }

  /** The vector of an attempt that uses `enc`. */
  function AttemptArgs(job: Job, enc: Config): seq<string> {
    ArgVector(job.input, job.mode, job.target, enc, job.output)
  }

  const ProgressKey: string := "out_time_ms="

  /** The progress percentage: microseconds over the duration in seconds, capped at 100 but not raised below 0. */
  function Percent(v: real, dur: real): (p: real)
    requires dur > 0.0
    ensures p <= 100.0
    ensures p == 100.0 || p == (v / 1000000.0) / dur * 100.0
    ensures (v / 1000000.0) / dur * 100.0 <= 100.0 ==> p == (v / 1000000.0) / dur * 100.0
  {
    var p := (v / 1000000.0) / dur * 100.0;
    if p > 100.0 then 100.0 else p
  }

  /** The update a line produces: only an `out_time_ms=` line whose value parses, and only when the duration is known. */
  function Sample(line: string, parseFloat: string -> Option<real>, dur: real): (u: Option<real>)
    ensures u.Some? <==> HasPrefix(line, ProgressKey) && parseFloat(TrimPrefix(line, ProgressKey)).Some? && dur > 0.0
    ensures u.Some? ==> u.value <= 100.0
  {
    if HasPrefix(line, ProgressKey) then
      match parseFloat(TrimPrefix(line, ProgressKey))
      case Some(v) => if dur > 0.0 then Some(Percent(v, dur)) else None
      case None => None
    else None
  }

  /** The updates the read loop shows for `lines`, in order. */
  function Updates(lines: seq<string>, parseFloat: string -> Option<real>, dur: real): seq<real>
  {
    if lines == [] then []
    else
      var prev := Updates(lines[..|lines| - 1], parseFloat, dur);
      match Sample(lines[|lines| - 1], parseFloat, dur)
      case Some(p) => prev + [p]
      case None => prev
  }

  /** Every shown percentage is at most 100, and there is at most one per line. */
  lemma {:induction false} UpdatesCapped(lines: seq<string>, parseFloat: string -> Option<real>, dur: real)
    ensures |Updates(lines, parseFloat, dur)| <= |lines|
    ensures forall i :: 0 <= i < |Updates(lines, parseFloat, dur)| ==> Updates(lines, parseFloat, dur)[i] <= 100.0
  {
    if lines != [] {
      UpdatesCapped(lines[..|lines| - 1], parseFloat, dur);
    }
  }

  /** Without a known duration nothing is shown, whatever ffmpeg prints. */
  lemma {:induction false} NoDurationNoUpdates(lines: seq<string>, parseFloat: string -> Option<real>, dur: real)
    requires dur <= 0.0
    ensures Updates(lines, parseFloat, dur) == []
  {
    if lines != [] {
      NoDurationNoUpdates(lines[..|lines| - 1], parseFloat, dur);
    }
  }

  /** Lines other than `out_time_ms=` lines never produce an update. */
  lemma {:induction false} OtherLinesIgnored(lines: seq<string>, parseFloat: string -> Option<real>, dur: real)
    requires forall i :: 0 <= i < |lines| ==> !HasPrefix(lines[i], ProgressKey)
    ensures Updates(lines, parseFloat, dur) == []
  {
    if lines != [] {
      OtherLinesIgnored(lines[..|lines| - 1], parseFloat, dur);
    }
  }

  /** Half of a 100-second video shows 50; a value past the end shows 100; a negative value is passed through. */
  lemma PercentExamples()
    ensures Percent(50000000.0, 100.0) == 50.0
    ensures Percent(999000000.0, 100.0) == 100.0
    ensures Percent(-1000000.0, 100.0) == -1.0
  {
  }

  /** The read loop over ffmpeg's standard output. */
  method Progress(lines: seq<string>, parseFloat: string -> Option<real>, dur: real) returns (updates: seq<real>)
    ensures updates == Updates(lines, parseFloat, dur)
    ensures forall i :: 0 <= i < |updates| ==> updates[i] <= 100.0
  {
    updates := [];
    for i := 0 to |lines|
      invariant updates == Updates(lines[..i], parseFloat, dur)
    {
      var line := lines[i];
      assert lines[..i + 1][..i] == lines[..i];
      if HasPrefix(line, ProgressKey) {
        var ms := parseFloat(TrimPrefix(line, ProgressKey));
        if ms.Some? && dur > 0.0 {
          updates := updates + [Percent(ms.value, dur)];
        }
      }
    }
    assert lines[..|lines|] == lines;
    UpdatesCapped(lines, parseFloat, dur);
  }

  /** The launches: the vectors ffmpeg was started with, the configuration of the last one, whether it is running. */
  datatype Launched = Launched(attempts: seq<seq<string>>, enc: Config, running: bool)

  /**
   * Start, and on failure the fallback. A failed start is retried once, with
   * the CPU fallback configuration, and only when the detected class is not
   * CPU; the run goes on only if the last attempt started.
   */
  method Launch(job: Job, env: Env, w: World) returns (l: Launched)
    ensures 1 <= |l.attempts| <= 2
    ensures l.attempts[0] == AttemptArgs(job, FirstEncoder(job, env))
    ensures |l.attempts| == 2 <==> !Started(w, 0) && job.detected != CPU
    ensures |l.attempts| == 2 ==> l.attempts[1] == AttemptArgs(job, RetryEncoder(job, env))
    ensures l.enc == (if |l.attempts| == 2 then RetryEncoder(job, env) else FirstEncoder(job, env))
    ensures l.running <==> Started(w, |l.attempts| - 1)
  {
    var enc := FirstEncoder(job, env);
    var argsEnc := BuildArgs(job.input, job.mode, job.target, enc, job.output);
    var attempts := [argsEnc];
    if !Started(w, 0) {
      if job.detected != CPU {
        enc := RetryEncoder(job, env);
        argsEnc := BuildArgs(job.input, job.mode, job.target, enc, job.output);
        attempts := attempts + [argsEnc];
        return Launched(attempts, enc, Started(w, 1));
      }
      return Launched(attempts, enc, false);
    }
    l := Launched(attempts, enc, true);
  }

  datatype Outcome = StartFailed | EncodeFailed | Saved

  /**
   * The run after the launch: nothing more when no attempt started;
   * otherwise the progress updates, then success or failure from cmd.Wait.
   */
  method Supervise(job: Job, env: Env, w: World) returns (l: Launched, updates: seq<real>, outcome: Outcome)
    ensures 1 <= |l.attempts| <= 2 && (l.running <==> Started(w, |l.attempts| - 1))
    ensures outcome == StartFailed <==> !l.running
    ensures outcome == Saved <==> l.running && w.waitOk
    ensures !l.running ==> updates == []
    ensures l.running ==> updates == Updates(w.lines, w.parseFloat, job.dur)
    ensures forall i :: 0 <= i < |updates| ==> updates[i] <= 100.0
  {
    l := Launch(job, env, w);
    if !l.running {
      return l, [], StartFailed;
    }
    updates := Progress(w.lines, w.parseFloat, job.dur);
    outcome := if w.waitOk then Saved else EncodeFailed;
  }

  /**
   * Without compression the retry reaches libx264 exactly when
   * encoder.Auto's own detection, run again after the override, lands
   * outside the NVIDIA, Intel and AMD classes; nothing in the detection code
   * consults the override.
   */
  lemma RetryCodec(job: Job, env: Env)
    requires !job.compress
    ensures env.retryClass != NVIDIA && env.retryClass != env.vendors.intel && env.retryClass != env.vendors.amd ==>
      RetryEncoder(job, env).codec == "libx264"
    ensures RetryEncoder(job, env).codec == "libx264" ==>
      env.retryClass != NVIDIA && env.retryClass != env.vendors.intel && env.retryClass != env.vendors.amd
    ensures env.retryClass == NVIDIA ==> RetryEncoder(job, env).codec == "h264_nvenc"
  {
  }

  /** Both attempts use the same layout: only the codec and its parameters can differ. */
  lemma RetryKeepsLayout(job: Job, env: Env)
    ensures var a := AttemptArgs(job, FirstEncoder(job, env));
            var b := AttemptArgs(job, RetryEncoder(job, env));
            a[..3] == b[..3] && a[3] == b[3] && a[|a| - 1] == b[|b| - 1]
  {
    var a := AttemptArgs(job, FirstEncoder(job, env));
    var b := AttemptArgs(job, RetryEncoder(job, env));
    ArgVectorLayout(job.input, job.mode, job.target, FirstEncoder(job, env), job.output);
    ArgVectorLayout(job.input, job.mode, job.target, RetryEncoder(job, env), job.output);
  }
}
