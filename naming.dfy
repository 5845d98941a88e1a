/**
 * The output file name (main.go): a known video extension is stripped from
 * the input path, "-WxH" is added when scaling and "-compressed" when
 * compressing, and ".mp4" always ends the name.
 *
 * The extension test lower-cases the input, but the stripping is
 * case-sensitive, so an upper-case extension is recognised and then kept.
 */
module Naming {
  import opened Seqs
  import opened Strings
  import opened Strconv
  import opened Scaler

  const Extensions: seq<string> := [".mp4", ".mov", ".avi", ".mkv", ".webm", ".flv", ".wmv"]

  /** The extension test of the loop: the lower-cased input ends with `ext`. */
  predicate MatchesExt(input: string, ext: string) {
    HasSuffix(ToLower(input), ext)
  }

  /** The position of the first extension the test accepts, or |Extensions|. */
  function ExtIndex(input: string): nat {
    FindFirst(Extensions, ext => MatchesExt(input, ext))
  }

  /**
   * The base name: the first accepted extension removed case-sensitively,
   * or the whole input when no extension is accepted.
   */
  function BaseNameOf(input: string): (base: string)
    ensures ExtIndex(input) == |Extensions| ==> base == input
    ensures ExtIndex(input) < |Extensions| && HasSuffix(input, Extensions[ExtIndex(input)]) ==>
      base + Extensions[ExtIndex(input)] == input
    ensures ExtIndex(input) < |Extensions| && !HasSuffix(input, Extensions[ExtIndex(input)]) ==>
      base == input
  {
    var k := ExtIndex(input);
    if k < |Extensions| then TrimSuffix(input, Extensions[k]) else input
  }

  /** The extension loop with its early `break`. */
  method BaseName(input: string) returns (base: string)
    ensures base == BaseNameOf(input)
  {
    base := input;
    var i := 0;
    while i < |Extensions|
      invariant 0 <= i <= |Extensions|
      invariant forall j :: 0 <= j < i ==> !MatchesExt(input, Extensions[j])
    {
      if MatchesExt(input, Extensions[i]) {
        FindFirstUnique(Extensions, ext => MatchesExt(input, ext), i);
        base := TrimSuffix(input, Extensions[i]);
        return;
      }
      i := i + 1;
    }
    FindFirstUnique(Extensions, ext => MatchesExt(input, ext), |Extensions|);
  }

  /** "WxH" as `%dx%d` prints it. */
  function Dimensions(target: Resolution): string {
    Itoa(target.w) + "x" + Itoa(target.h)
  }

  /** "-WxH" when scaling, nothing otherwise. */
  function ScaleTag(mode: string, target: Resolution): string {
    if mode != "none" then "-" + Dimensions(target) else ""
  }

  /** The suffix word main adds when compressing. */
  const Compressed := "compressed"

  /** "-compressed" when compressing, nothing otherwise. */
  function CompressTag(compress: bool): string {
    if compress then "-" + Compressed else ""
  }

  /**
   * The name the program writes to: the base name, then "-WxH" when scaling,
   * then "-compressed" when compressing, then ".mp4".
   */
  function OutputNameOf(input: string, mode: string, target: Resolution, compress: bool): (output: string)
    ensures HasSuffix(output, ".mp4")
    ensures HasPrefix(output, BaseNameOf(input))
  {
    var base := BaseNameOf(input);
    var output := base + (ScaleTag(mode, target) + CompressTag(compress)) + ".mp4";
    assert output[..|base|] == base;
    output
  }

  /** Builds the suffix list by appending and joins it with "-", as main does. */
  method OutputName(input: string, mode: string, target: Resolution, compress: bool) returns (output: string)
    ensures output == OutputNameOf(input, mode, target, compress)
  {
    var baseName := BaseName(input);
    var suffixes: seq<string> := [];
    if mode != "none" {
      suffixes := suffixes + [Dimensions(target)];
    }
    if compress {
      suffixes := suffixes + [Compressed];
    }
    var tags := "";
    if |suffixes| > 0 {
      tags := "-" + Join(suffixes, "-");
    }
    JoinedTags(suffixes, mode, target, compress);
    output := baseName + tags + ".mp4";
  }

  /** Joining a list of at most two suffixes with "-", after a leading "-", puts a "-" before each. */
  lemma DashedTags(suffixes: seq<string>, hasDims: bool, dims: string, hasWord: bool, word: string)
    requires suffixes == (if hasDims then [dims] else []) + (if hasWord then [word] else [])
    ensures (if |suffixes| > 0 then "-" + Join(suffixes, "-") else "")
      == (if hasDims then "-" + dims else "") + (if hasWord then "-" + word else "")
  {
    if hasDims && hasWord {
      assert suffixes == [dims, word];
      JoinTwo(dims, word, "-");
      assert "-" + (dims + "-" + word) == ("-" + dims) + ("-" + word);
    } else if hasDims {
      assert suffixes == [dims];
    } else if hasWord {
      assert suffixes == [word];
    }
  }

  /** Joining the suffix list with "-", after a leading "-", gives the scale tag followed by the compress tag. */
  lemma JoinedTags(suffixes: seq<string>, mode: string, target: Resolution, compress: bool)
    requires suffixes == (if mode != "none" then [Dimensions(target)] else []) + (if compress then [Compressed] else [])
    ensures (if |suffixes| > 0 then "-" + Join(suffixes, "-") else "") == ScaleTag(mode, target) + CompressTag(compress)
  {
    DashedTags(suffixes, mode != "none", Dimensions(target), compress, Compressed);
  }

  /** Lower-casing leaves the extension list alone. */
  lemma ExtensionsAreLowerCase(k: nat)
    requires k < |Extensions|
    ensures ToLower(Extensions[k]) == Extensions[k]
  {
  }

  /** No two extensions share their last two characters. */
  lemma EndingsDiffer(j: nat, k: nat)
    requires j < |Extensions| && k < |Extensions| && j != k
    ensures Extensions[j][|Extensions[j]| - 2..] != Extensions[k][|Extensions[k]| - 2..]
  {
  }

  /** Lower-casing commutes with concatenation. */
  lemma ToLowerAppend(a: string, b: string)
    ensures ToLower(a + b) == ToLower(a) + ToLower(b)
  {
  }

  /** A string ending in `f` does not end in an `e` whose last two characters differ from `f`'s. */
  lemma OtherEndingNoMatch(lower: string, e: string, f: string)
    requires |e| >= 2 && |f| >= 2 && e[|e| - 2..] != f[|f| - 2..]
    requires HasSuffix(lower, f)
    ensures !HasSuffix(lower, e)
  {
    var tail := lower[|lower| - 2..];
    assert tail == f[|f| - 2..];
    assert |e| <= |lower| ==> lower[|lower| - |e|..][|e| - 2..] == tail;
  }

  /** A path ending in one of the extensions, written in lower case, loses exactly that extension. */
  lemma LowerCaseExtensionStripped(stem: string, k: nat)
    requires k < |Extensions|
    ensures BaseNameOf(stem + Extensions[k]) == stem
  {
    var f := Extensions[k];
    var input := stem + f;
    ToLowerAppend(stem, f);
    ExtensionsAreLowerCase(k);
    var lower := ToLower(input);
    assert lower[|lower| - |f|..] == f;
    forall j | 0 <= j < k
      ensures !MatchesExt(input, Extensions[j])
    {
      EndingsDiffer(j, k);
      OtherEndingNoMatch(lower, Extensions[j], f);
    }
    FindFirstUnique(Extensions, ext => MatchesExt(input, ext), k);
    assert input[|input| - |f|..] == f;
  }

  /** "clip.MP4" is recognised as a video but keeps its ".MP4": the stripping is case-sensitive. */
  lemma UpperCaseExtensionKept(stem: string)
    ensures BaseNameOf(stem + ".MP4") == stem + ".MP4"
  {
    var input := stem + ".MP4";
    ToLowerAppend(stem, ".MP4");
    assert ToLower(".MP4") == ".mp4";
    assert ToLower(input)[|input| - 4..] == ".mp4";
    FindFirstUnique(Extensions, ext => MatchesExt(input, ext), 0);
    assert input[|input| - 3] == 'M';
  }

  /** Without scaling or compression the name is the base name with ".mp4" added. */
  lemma PlainName(input: string, target: Resolution)
    ensures OutputNameOf(input, "none", target, false) == BaseNameOf(input) + ".mp4"
  {
    assert ScaleTag("none", target) + CompressTag(false) == "";
  }

  /** So "clip.MP4" is written to "clip.MP4.mp4" when neither scaling nor compressing. */
  lemma UpperCaseExtensionDoubled(stem: string, target: Resolution)
    ensures OutputNameOf(stem + ".MP4", "none", target, false) == (stem + ".MP4") + ".mp4"
  {
    UpperCaseExtensionKept(stem);
    PlainName(stem + ".MP4", target);
  }

  /** Concatenation regrouped: the pieces of the name in one flat sum. */
  lemma Regroup(a: string, b: string, c: string, d: string, e: string, f: string)
    ensures a + ((b + c) + (d + e)) + f == a + b + c + d + e + f
  {
  }

  /** When scaling and compressing, the extension gives way to "-WxH-compressed.mp4". */
  lemma ScaledAndCompressedName(stem: string, k: nat, mode: string, target: Resolution)
    requires k < |Extensions| && mode != "none"
    ensures OutputNameOf(stem + Extensions[k], mode, target, true)
      == stem + "-" + Dimensions(target) + "-" + Compressed + ".mp4"
  {
    var input := stem + Extensions[k];
    LowerCaseExtensionStripped(stem, k);
    Regroup(stem, "-", Dimensions(target), "-", Compressed, ".mp4");
  }
}
