/**
 * The decisions main takes between parsing and encoding (main.go): the
 * profile default, the hardware class with its warning, the scaling mode
 * and the target resolution.
 *
 * ffmpeg.SetForcedGPU is not part of this model; the class it returns for a
 * requested mode is an input (`setForced`), as is the encoder listing that
 * DetectGPU classifies.
 */
module Plan {
  import opened Wrappers
  import opened Seqs
  import opened Profiles
  import opened Ffmpeg
  import opened Scaler
  import opened Strings
  import Probe
  import Cli

  /** Med unless a profile word was given, then ParseProfile of that word. */
  method ChooseProfile(profileStr: string) returns (profile: Profile)
    ensures profile == ParseProfile(profileStr)
  {
    profile := Med;
    if profileStr != "" {
      profile := ParseProfile(profileStr);
    }
  }

  /** The class in use and whether the "not available, falling back to CPU" warning is logged. */
  datatype Detection = Detection(gpu: Gpu, warn: bool)

  /**
   * "auto" runs DetectGPU on the encoder listing; any other mode asks
   * SetForcedGPU. The warning is logged only when forcing was requested,
   * the answer is CPU, and the request was not "cpu" itself.
   */
  method DetectClass(gpuMode: string, setForced: string -> Gpu, listing: Option<string>) returns (d: Detection)
    ensures gpuMode == "auto" ==> d.gpu == DetectGPU(listing)
    ensures gpuMode != "auto" ==> d.gpu == setForced(gpuMode)
    ensures d.warn <==> gpuMode != "auto" && d.gpu == CPU && gpuMode != "cpu"
    ensures gpuMode == "auto" ==> (d.gpu == NVIDIA || d.gpu == CPU) && !d.warn
  {
    var detectedGPU: Gpu;
    var warn := false;
    if gpuMode != "auto" {
      detectedGPU := setForced(gpuMode);
      if detectedGPU == CPU && gpuMode != "cpu" {
        warn := true;
      }
    } else {
      detectedGPU := DetectGPU(listing);
    }
    d := Detection(detectedGPU, warn);
  }

  /** The mode word for the scale flag: Go's map lookup gives "" for a flag it does not list. */
  function ModeOf(scaleModeFlag: string): (mode: string)
    ensures scaleModeFlag == "" ==> mode == "none"
    ensures scaleModeFlag == "-ds" ==> mode == "down"
    ensures scaleModeFlag == "-us" ==> mode == "up"
    ensures scaleModeFlag != "" && scaleModeFlag != "-ds" && scaleModeFlag != "-us" ==> mode == ""
  {
    if scaleModeFlag == "" then "none"
    else if scaleModeFlag == "-ds" then "down"
    else if scaleModeFlag == "-us" then "up"
    else ""
  }

  /**
   * For a parsed command line the map lookup never misses: the mode is
   * "none", "down" or "up", and it is not "none" exactly when a -ds/-us flag
   * came before any help, version or list-gpus flag. The scale factor is
   * 2/3 for "-ds" and 1.5 for "-us".
   */
  lemma ParsedMode(args: seq<string>)
    ensures var s := Cli.Scanned(args);
      var mode := ModeOf(Cli.ScaleModeOf(s));
      && (mode == "none" || mode == "down" || mode == "up")
      && (mode != "none" <==> FindFirst(s, Cli.IsScaleFlag) < |s|)
      && (mode == "down" ==> Factor(mode) == 2.0 / 3.0)
      && (mode == "up" ==> Factor(mode) == 1.5)
  {
  }

  /** The source resolution without scaling; with it, scaler.Auto's even target at least 320 wide. */
  function TargetOf(res: Probe.Resolution, mode: string, ops: FloatOps): (t: Resolution)
    ensures mode == "none" ==> t == Resolution(res.w, res.h)
    ensures mode != "none" ==> t == Scaler.Auto(Resolution(res.w, res.h), mode, ops)
    ensures mode != "none" ==> t.w % 2 == 0 && t.h % 2 == 0 && t.w >= MinWidth
  {
    if mode != "none" then Scaler.Auto(Resolution(res.w, res.h), mode, ops) else Resolution(res.w, res.h)
  }

  /**
   * The source size, or None when the run stops with "Cannot read video":
   * the ffprobe run failed or, with the size check, printed no WxH.
   */
  function SourceResolution(run: Probe.RunResult): (res: Option<Probe.Resolution>)
    ensures res.None? <==> run.RunFailed? || 'x' !in TrimSpace(run.stdout)
    ensures res.Some? ==> Probe.ResolutionOf(run) == Probe.Returned(res.value, None)
  {
    match Probe.ResolutionOfChecked(run)
    case Returned(r, err) => if err.None? then Some(r) else None
    case IndexPanic => None
  }
}
