/**
 * Command-line scanning (parseArgs in main.go) and the early exits main
 * takes on its result.
 *
 * parseArgs walks the arguments left to right. A help, version or
 * list-gpus flag ends the scan at once, and the other results keep what the
 * earlier arguments set. The specification below is stated over the scanned
 * prefix (everything before the first such flag):
 *   - the hardware mode is that of the last hardware flag, or "auto";
 *   - the scale mode is the first -ds/-us;
 *   - the input is the first bare word that is not a profile word;
 *   - the profile is the first profile word before that input.
 */
module Cli {
  import opened Seqs
  import opened Strings

  /** The eight results of parseArgs. */
  datatype CliArgs = CliArgs(
    scaleMode: string, input: string, profileStr: string, gpuMode: string,
    compress: bool, showVersion: bool, showHelp: bool, listGpus: bool)

  predicate IsHelpFlag(a: string) { a == "-h" || a == "-help" }
  predicate IsVersionFlag(a: string) { a == "-v" || a == "-version" }
  predicate IsListFlag(a: string) { a == "-list-gpus" }

  /** The flags that end the scan. */
  predicate IsStopFlag(a: string) {
    IsHelpFlag(a) || IsVersionFlag(a) || IsListFlag(a)
  }

  predicate IsHardwareFlag(a: string) {
    || a == "-cpu" || a == "-nvidia" || a == "-nv" || a == "-intel" || a == "-qsv"
    || a == "-amd" || a == "-gpu" || a == "-igpu"
  }

  /** The hardware mode a hardware flag selects. */
  function HardwareMode(a: string): string
    requires IsHardwareFlag(a)
  {
    if a == "-cpu" then "cpu"
    else if a == "-nvidia" || a == "-nv" then "nvidia"
    else if a == "-intel" || a == "-qsv" then "intel"
    else if a == "-amd" then "amd"
    else if a == "-gpu" then "gpu"
    else "igpu"
  }

  predicate IsScaleFlag(a: string) { a == "-ds" || a == "-us" }

  predicate IsProfileWord(a: string) { a == "low" || a == "med" || a == "high" }

  /** A bare word (no leading '-') that is not a profile word. */
  predicate IsInputWord(a: string) {
    !HasPrefix(a, "-") && !IsProfileWord(a)
  }

  /** The arguments before the first help, version or list-gpus flag. */
  function Scanned(args: seq<string>): seq<string> {
    args[..FindFirst(args, IsStopFlag)]
  }

  /** The last hardware flag decides; "auto" when there is none. */
  function GpuModeOf(s: seq<string>): string {
    var j := FindLast(s, IsHardwareFlag);
    if j < 0 then "auto" else HardwareMode(s[j])
  }

  predicate CompressOf(s: seq<string>) {
    "-compress" in s
  }

  /** The first -ds/-us decides; "" when there is none. */
  function ScaleModeOf(s: seq<string>): string {
    var j := FindFirst(s, IsScaleFlag);
    if j < |s| then s[j] else ""
  }

  function InputIndex(s: seq<string>): nat {
    FindFirst(s, IsInputWord)
  }

  /** The first input word; "" when there is none. */
  function InputOf(s: seq<string>): string {
    var n := InputIndex(s);
    if n < |s| then s[n] else ""
  }

  /** The first profile word before the input; "" when there is none. */
  function ProfileOf(s: seq<string>): string {
    var n := InputIndex(s);
    var j := FindFirst(s[..n], IsProfileWord);
    if j < n then s[j] else ""
  }

  /** The variables parseArgs updates while it scans. */
  datatype Scan = Scan(
    gpuMode: string, compress: bool, scaleMode: string, foundScaleMode: bool,
    input: string, foundInput: bool, profileStr: string)

  /** The scan state after reading `seen` (which holds no stop flag) agrees with the specification. */
  predicate Describes(st: Scan, seen: seq<string>) {
    && st.gpuMode == GpuModeOf(seen)
    && st.compress == CompressOf(seen)
    && st.foundScaleMode == (FindFirst(seen, IsScaleFlag) < |seen|)
    && st.scaleMode == ScaleModeOf(seen)
    && st.foundInput == (InputIndex(seen) < |seen|)
    && st.input == InputOf(seen)
    && st.profileStr == ProfileOf(seen)
  }

  /**
   * One turn of the switch for an argument that is not a stop flag: a
   * hardware flag sets the mode, -compress sets compress, the first -ds/-us
   * is kept, and before the input a profile word fills an empty profile
   * while any other bare word becomes the input. Everything else is ignored.
   */
  predicate Steps(st: Scan, arg: string, next: Scan) {
    && next.gpuMode == (if IsHardwareFlag(arg) then HardwareMode(arg) else st.gpuMode)
    && next.compress == (st.compress || arg == "-compress")
    && next.foundScaleMode == (st.foundScaleMode || IsScaleFlag(arg))
    && next.scaleMode == (if !st.foundScaleMode && IsScaleFlag(arg) then arg else st.scaleMode)
    && next.foundInput == (st.foundInput || IsInputWord(arg))
    && next.input == (if !st.foundInput && IsInputWord(arg) then arg else st.input)
    && next.profileStr ==
      (if !st.foundInput && IsProfileWord(arg) && st.profileStr == "" then arg else st.profileStr)
  }

  /** The switch of parseArgs for one argument that is not a stop flag. */
  method Consume(st: Scan, arg: string) returns (next: Scan)
    ensures Steps(st, arg, next)
  {
    FlagKinds(arg);
    next := st;
    if IsHardwareFlag(arg) {
      next := next.(gpuMode := HardwareMode(arg));
    } else if arg == "-compress" {
      next := next.(compress := true);
    } else if IsScaleFlag(arg) {
      if !st.foundScaleMode {
        next := next.(scaleMode := arg, foundScaleMode := true);
      }
    } else if !HasPrefix(arg, "-") && !st.foundInput {
      if IsProfileWord(arg) {
        if st.profileStr == "" {
          next := next.(profileStr := arg);
        }
      } else {
        next := next.(input := arg, foundInput := true);
      }
    }
  }

  /**
   * The loop of parseArgs: it stops at the first help, version or list-gpus
   * flag (or the end) and returns that position with the scan state, which
   * agrees with the specification over the arguments before it.
   */
  method ScanArgs(args: seq<string>) returns (st: Scan, k: nat)
    ensures k == FindFirst(args, IsStopFlag)
    ensures Describes(st, Scanned(args))
  {
    st := Scan("auto", false, "", false, "", false, "");
    var i := 0;
    ghost var seen: seq<string> := [];
    while i < |args|
      invariant 0 <= i <= |args| && seen == args[..i]
      invariant FindFirst(seen, IsStopFlag) == |seen|
      invariant Describes(st, seen)
    {
      var arg := args[i];
      if IsStopFlag(arg) {
        StopsAt(args, seen, i);
        return st, i;
      }
      var next := Consume(st, arg);
      ScanStep(st, seen, arg, next);
      st := next;
      ExtendSeen(args, seen, i);
      seen := seen + [arg];
      i := i + 1;
    }
    assert seen == args;
    k := i;
  }

  /** parseArgs (os.Args[1:] is `args`). */
  method ParseArgs(args: seq<string>) returns (r: CliArgs)
    ensures var k := FindFirst(args, IsStopFlag);
            && r.showHelp == (k < |args| && IsHelpFlag(args[k]))
            && r.showVersion == (k < |args| && IsVersionFlag(args[k]))
            && r.listGpus == (k < |args| && IsListFlag(args[k]))
    ensures r.gpuMode == GpuModeOf(Scanned(args))
    ensures r.compress == CompressOf(Scanned(args))
    ensures r.scaleMode == ScaleModeOf(Scanned(args))
    ensures r.input == InputOf(Scanned(args))
    ensures r.profileStr == ProfileOf(Scanned(args))
  {
    var st, k := ScanArgs(args);
    if k < |args| {
      // -h/-help, -v/-version and -list-gpus each return at once with their own flag set
      var arg := args[k];
      return CliArgs(st.scaleMode, st.input, st.profileStr, st.gpuMode, st.compress,
                     IsVersionFlag(arg), IsHelpFlag(arg), IsListFlag(arg));
    }
    r := CliArgs(st.scaleMode, st.input, st.profileStr, st.gpuMode, st.compress, false, false, false);
  }

  /** A turn of the switch keeps the scan state in agreement with the specification. */
  lemma ScanStep(st: Scan, seen: seq<string>, arg: string, next: Scan)
    requires FindFirst(seen, IsStopFlag) == |seen| && Describes(st, seen)
    requires !IsStopFlag(arg) && Steps(st, arg, next)
    ensures FindFirst(seen + [arg], IsStopFlag) == |seen| + 1 && Describes(next, seen + [arg])
  {
    StopStep(seen, arg);
    GpuModeStep(seen, arg);
    CompressStep(seen, arg);
    ScaleStep(seen, arg);
    InputStep(seen, arg);
    ProfileStep(seen, arg);
  }

  lemma ExtendSeen(args: seq<string>, seen: seq<string>, i: nat)
    requires i < |args| && seen == args[..i]
    ensures seen + [args[i]] == args[..i + 1]
  {
  }

  /** When no stop flag precedes position i and one stands there, the scan ends at i. */
  lemma StopsAt(args: seq<string>, seen: seq<string>, i: nat)
    requires i < |args| && IsStopFlag(args[i]) && seen == args[..i]
    requires FindFirst(seen, IsStopFlag) == i
    ensures FindFirst(args, IsStopFlag) == i && Scanned(args) == seen
  {
    assert args == seen + args[i..];
    FindFirstAppend(seen, args[i..], IsStopFlag);
  }

  /** A stop flag ends nothing yet while none has been seen. */
  lemma StopStep(s: seq<string>, a: string)
    requires FindFirst(s, IsStopFlag) == |s| && !IsStopFlag(a)
    ensures FindFirst(s + [a], IsStopFlag) == |s| + 1
  {
    FindFirstAppend(s, [a], IsStopFlag);
  }

  lemma GpuModeStep(s: seq<string>, a: string)
    ensures GpuModeOf(s + [a]) == if IsHardwareFlag(a) then HardwareMode(a) else GpuModeOf(s)
  {
    FindLastAppend(s, [a], IsHardwareFlag);
    assert (s + [a])[|s|] == a;
  }

  lemma CompressStep(s: seq<string>, a: string)
    ensures CompressOf(s + [a]) == (CompressOf(s) || a == "-compress")
  {
    assert (s + [a])[|s|] == a;
  }

  /**
   * The kinds of argument parseArgs tells apart do not overlap, and every flag
   * it recognises starts with '-', so none is taken for a bare word.
   */
  lemma FlagKinds(a: string)
    ensures IsHardwareFlag(a) ==> !IsScaleFlag(a) && a != "-compress"
    ensures IsScaleFlag(a) ==> a != "-compress"
    ensures IsHardwareFlag(a) || a == "-compress" || IsScaleFlag(a) ==>
      HasPrefix(a, "-") && !IsInputWord(a) && !IsProfileWord(a)
    ensures IsProfileWord(a) ==> !HasPrefix(a, "-")
  {
    if IsHardwareFlag(a) || a == "-compress" || IsScaleFlag(a) || IsProfileWord(a) {
      assert a[..1] == [a[0]];
    }
  }

  lemma ScaleStep(s: seq<string>, a: string)
    ensures (FindFirst(s + [a], IsScaleFlag) < |s| + 1) == (FindFirst(s, IsScaleFlag) < |s| || IsScaleFlag(a))
    ensures ScaleModeOf(s + [a]) ==
      if FindFirst(s, IsScaleFlag) < |s| then ScaleModeOf(s) else if IsScaleFlag(a) then a else ""
  {
    FindFirstAppend(s, [a], IsScaleFlag);
    var u := s + [a];
    assert u[|s|] == a;
    var j := FindFirst(s, IsScaleFlag);
    if j < |s| { assert u[j] == s[j]; }
  }

  lemma InputStep(s: seq<string>, a: string)
    ensures (InputIndex(s + [a]) < |s| + 1) == (InputIndex(s) < |s| || IsInputWord(a))
    ensures InputOf(s + [a]) ==
      if InputIndex(s) < |s| then InputOf(s) else if IsInputWord(a) then a else ""
  {
    FindFirstAppend(s, [a], IsInputWord);
    var u := s + [a];
    assert u[|s|] == a;
    var j := InputIndex(s);
    if j < |s| { assert u[j] == s[j]; }
  }

  lemma ProfileStep(s: seq<string>, a: string)
    ensures ProfileOf(s + [a]) ==
      if InputIndex(s) == |s| && IsProfileWord(a) && ProfileOf(s) == "" then a else ProfileOf(s)
  {
    var u := s + [a];
    var n := InputIndex(s);
    FindFirstAppend(s, [a], IsInputWord);
    var n' := InputIndex(u);
    if n < |s| {
      assert n' == n;
      assert u[..n] == s[..n];
      var j := FindFirst(s[..n], IsProfileWord);
      if j < n { assert u[j] == s[j]; }
    } else if IsInputWord(a) {
      assert n' == |s|;
      assert u[..n'] == s;
      assert s[..n] == s;
      var j := FindFirst(s, IsProfileWord);
      if j < |s| { assert u[j] == s[j]; }
    } else {
      assert n' == |s| + 1;
      assert u[..n'] == s[..n] + [a];
      FindFirstAppend(s[..n], [a], IsProfileWord);
      var j := FindFirst(s[..n], IsProfileWord);
      if j < n { assert u[j] == s[j]; }
    }
  }

  /** Everything after the first help, version or list-gpus flag is ignored. */
  lemma StopFlagIgnoresRest(s: seq<string>, a: string, t: seq<string>)
    requires forall j :: 0 <= j < |s| ==> !IsStopFlag(s[j])
    requires IsStopFlag(a)
    ensures Scanned(s + [a] + t) == s
  {
    var args := s + [a] + t;
    assert args[..|s|] == s;
    assert args[|s|] == a;
    FindFirstUnique(args, IsStopFlag, |s|);
  }

  /** The last hardware flag wins, whatever came before it. */
  lemma LastHardwareFlagWins(s: seq<string>, a: string, t: seq<string>)
    requires IsHardwareFlag(a)
    requires forall j :: 0 <= j < |t| ==> !IsHardwareFlag(t[j])
    ensures GpuModeOf(s + [a] + t) == HardwareMode(a)
  {
    FindLastAppend(s + [a], t, IsHardwareFlag);
    FindLastAppend(s, [a], IsHardwareFlag);
    assert (s + [a] + t)[|s|] == a;
  }

  /** Only the first -ds/-us counts. */
  lemma FirstScaleFlagWins(s: seq<string>, a: string, t: seq<string>)
    requires forall j :: 0 <= j < |s| ==> !IsScaleFlag(s[j])
    requires IsScaleFlag(a)
    ensures ScaleModeOf(s + [a] + t) == a
  {
    var args := s + [a] + t;
    assert args[|s|] == a;
    FindFirstUnique(args, IsScaleFlag, |s|);
  }

  /**
   * Once the input has been found, later bare words (a trailing profile word
   * included) change nothing.
   */
  lemma BareWordsAfterInputIgnored(s: seq<string>, t: seq<string>)
    requires InputIndex(s) < |s|
    requires forall j :: 0 <= j < |t| ==> !HasPrefix(t[j], "-")
    ensures InputOf(s + t) == InputOf(s)
    ensures ProfileOf(s + t) == ProfileOf(s)
    ensures GpuModeOf(s + t) == GpuModeOf(s)
    ensures ScaleModeOf(s + t) == ScaleModeOf(s)
    ensures CompressOf(s + t) == CompressOf(s)
  {
    BareWordsKeepInputAndProfile(s, t);
    BareWordsKeepFlags(s, t);
  }

  lemma BareWordsKeepInputAndProfile(s: seq<string>, t: seq<string>)
    requires InputIndex(s) < |s|
    ensures InputOf(s + t) == InputOf(s)
    ensures ProfileOf(s + t) == ProfileOf(s)
  {
    var u := s + t;
    var n := InputIndex(s);
    FindFirstAppend(s, t, IsInputWord);
    assert u[n] == s[n];
    assert u[..n] == s[..n];
    var j := FindFirst(s[..n], IsProfileWord);
    if j < n { assert u[j] == s[j]; }
  }

  /** Words without a leading '-' are neither hardware, scale nor compress flags. */
  lemma BareWordsKeepFlags(s: seq<string>, t: seq<string>)
    requires forall j :: 0 <= j < |t| ==> !HasPrefix(t[j], "-")
    ensures GpuModeOf(s + t) == GpuModeOf(s)
    ensures ScaleModeOf(s + t) == ScaleModeOf(s)
    ensures CompressOf(s + t) == CompressOf(s)
  {
    var u := s + t;
    FindLastAppend(s, t, IsHardwareFlag);
    var h := FindLast(t, IsHardwareFlag);
    if 0 <= h { FlagKinds(t[h]); }
    FindFirstAppend(s, t, IsScaleFlag);
    var k := FindFirst(s, IsScaleFlag);
    if k < |s| {
      assert u[k] == s[k];
    } else {
      var k' := FindFirst(t, IsScaleFlag);
      if k' < |t| { FlagKinds(t[k']); }
    }
    if "-compress" in t {
      FlagKinds("-compress");
    }
  }

  /** Only the first profile word before the input is kept. */
  lemma FirstProfileWordKept(s: seq<string>, w: string, t: seq<string>)
    requires forall j :: 0 <= j < |s| ==> !IsInputWord(s[j]) && !IsProfileWord(s[j])
    requires IsProfileWord(w)
    ensures ProfileOf(s + [w] + t) == w
  {
    var u := s + [w] + t;
    assert u[|s|] == w;
    FindFirstAppend(s + [w], t, IsInputWord);
    FindFirstAppend(s, [w], IsInputWord);
    var n := InputIndex(u);
    assert |s| < n;
    assert u[..n][|s|] == w;
    forall j | 0 <= j < |s| ensures !IsProfileWord(u[..n][j]) {
      assert u[..n][j] == s[j];
    }
    FindFirstUnique(u[..n], IsProfileWord, |s|);
  }

  /** What main does with the parse result before any encoding work (main.go:150-175). */
  datatype Action = ShowVersion | ShowHelp | ListGpus | MissingInput(reportError: bool) | Proceed

  /**
   * Version, then help, then list-gpus; then a missing input, reported as an
   * error unless the command line was empty.
   */
  function Dispatch(r: CliArgs, args: seq<string>): (act: Action)
    ensures r.showVersion ==> act == ShowVersion
    ensures !r.showVersion && r.showHelp ==> act == ShowHelp
    ensures !r.showVersion && !r.showHelp && r.listGpus ==> act == ListGpus
    ensures act.MissingInput? <==> !r.showVersion && !r.showHelp && !r.listGpus && r.input == ""
    ensures act == Proceed <==> !r.showVersion && !r.showHelp && !r.listGpus && r.input != ""
    ensures act.MissingInput? ==> act.reportError == (|args| > 0)
  {
    if r.showVersion then ShowVersion
    else if r.showHelp then ShowHelp
    else if r.listGpus then ListGpus
    else if r.input == "" then MissingInput(|args| > 0)
    else Proceed
  }
}
