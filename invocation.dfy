/**
 * The ffmpeg argument vector (main.go): overwrite and input, an optional
 * Lanczos scale filter, the codec and its parameters, a fixed trailer that
 * asks for progress lines on standard output, and the output path last.
 */
module Invocation {
  import opened Strings
  import opened Strconv
  import opened Scaler
  import opened Encoder

  /** Pixel format, audio copy, fast start, progress to stdout, quiet logging. */
  const Trailer: seq<string> :=
    ["-pix_fmt", "yuv420p", "-c:a", "copy", "-movflags", "+faststart",
     "-progress", "pipe:1", "-nostats", "-loglevel", "error"]

  /** The filter argument `scale=W:H:flags=lanczos`. */
  function ScaleFilter(target: Resolution): string {
    "scale=" + Itoa(target.w) + ":" + Itoa(target.h) + ":flags=lanczos"
  }

  /** The filter's three ':'-separated fields carry the width, the height and the scaling algorithm. */
  lemma ScaleFilterFields(target: Resolution)
    ensures Split(ScaleFilter(target), ':') == ["scale=" + Itoa(target.w), Itoa(target.h), "flags=lanczos"]
  {
    NoColonInItoa(target.w);
    NoColonInItoa(target.h);
    assert ':' !in "scale=" && ':' !in "flags=lanczos";
    assert ":flags=lanczos" == [':'] + "flags=lanczos";
    assert ScaleFilter(target) == ("scale=" + Itoa(target.w)) + [':'] + Itoa(target.h) + [':'] + "flags=lanczos";
    SplitThree("scale=" + Itoa(target.w), Itoa(target.h), "flags=lanczos", ':');
  }

  /** `%d` output has digits and a sign only. */
  lemma NoColonInItoa(n: int)
    ensures ':' !in Itoa(n)
  {
  }

  /** `-vf <filter>` when scaling, nothing otherwise. */
  function ScaleArgs(mode: string, target: Resolution): seq<string> {
    if mode != "none" then ["-vf", ScaleFilter(target)] else []
  }

  /** The argument vector in the order main appends its parts. */
  function ArgVector(input: string, mode: string, target: Resolution, enc: Config, output: string): seq<string> {
    ["-y", "-i", input] + ScaleArgs(mode, target) + ["-c:v", enc.codec] + enc.params + Trailer + [output]
  }

  /**
   * The vector position by position: `-y -i <input>`, then `-vf <filter>`
   * exactly when scaling, then `-c:v <codec>`, the codec parameters in their
   * own order, the trailer, and the output path last.
   */
  lemma ArgVectorLayout(input: string, mode: string, target: Resolution, enc: Config, output: string)
    ensures var argv := ArgVector(input, mode, target, enc, output);
      var k := if mode != "none" then 5 else 3;
      && |argv| == k + 2 + |enc.params| + |Trailer| + 1
      && argv[..3] == ["-y", "-i", input]
      && (argv[3] == "-vf" <==> mode != "none")
      && (mode != "none" ==> argv[4] == ScaleFilter(target))
      && argv[k] == "-c:v" && argv[k + 1] == enc.codec
      && argv[k + 2..k + 2 + |enc.params|] == enc.params
      && argv[k + 2 + |enc.params|..|argv| - 1] == Trailer
      && argv[|argv| - 1] == output
  {
    var head := ["-y", "-i", input] + ScaleArgs(mode, target) + ["-c:v", enc.codec];
    var argv := head + enc.params + Trailer + [output];
    assert argv[..|head|] == head;
    assert argv[|head|..|head| + |enc.params|] == enc.params;
    assert argv[|head| + |enc.params|..|argv| - 1] == Trailer;
  }

  /** The vector built by successive appends, as main builds it. */
  method BuildArgs(input: string, mode: string, target: Resolution, enc: Config, output: string) returns (argv: seq<string>)
    ensures argv == ArgVector(input, mode, target, enc, output)
  {
    argv := ["-y", "-i", input];
    if mode != "none" {
      argv := argv + ["-vf", ScaleFilter(target)];
    }
    argv := argv + ["-c:v", enc.codec];
    argv := argv + enc.params;
    argv := argv + Trailer + [output];
  }
}
