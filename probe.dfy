/**
 * The parse step of probe.ResolutionOf (internal/probe/video.go). The ffprobe
 * run itself is not modelled: its outcome (standard output or an error) is
 * the input.
 */
module Probe {
  import opened Wrappers
  import opened Strings
  import opened Strconv

  datatype Resolution = Resolution(w: int, h: int)

  /** What cmd.Run leaves behind: the captured standard output, or the error it returned. */
  datatype RunResult = Ran(stdout: string) | RunFailed(err: string)

  /**
   * ResolutionOf either returns (resolution, error) or, when the trimmed
   * output has no 'x', panics on the out-of-range index p[1].
   */
  datatype ProbeOutcome = Returned(res: Resolution, err: Option<string>) | IndexPanic

  /**
   * Trim the output, split it on 'x' and read the first two fields with
   * Atoi, discarding Atoi's errors (a field that is not a number reads as 0).
   */
  function ResolutionOf(run: RunResult): (o: ProbeOutcome)
    ensures run.RunFailed? ==> o == Returned(Resolution(0, 0), Some(run.err))
    ensures run.Ran? ==> (o.IndexPanic? <==> 'x' !in TrimSpace(run.stdout))
    ensures run.Ran? && o.Returned? ==> o.err == None
  {
    match run
    case RunFailed(e) => Returned(Resolution(0, 0), Some(e))
    case Ran(out) =>
      var p := Split(TrimSpace(out), 'x');
      if |p| < 2 then IndexPanic
      else Returned(Resolution(Atoi(p[0]).value, Atoi(p[1]).value), None)
  }

  /**
   * Only the first two 'x'-separated fields are read; whatever follows a
   * second 'x' is ignored.
   */
  lemma OnlyFirstTwoFields(a: string, b: string, rest: string)
    requires 'x' !in a && 'x' !in b
    requires rest == [] || rest[0] == 'x'
    requires Trimmed(a + "x" + b + rest)
    ensures ResolutionOf(Ran(a + "x" + b + rest)) == Returned(Resolution(Atoi(a).value, Atoi(b).value), None)
  {
    var out := a + "x" + b + rest;
    TrimSpaceFixed(out);
    FirstTwoFields(a, b, rest);
  }

  lemma FirstTwoFields(a: string, b: string, rest: string)
    requires 'x' !in a && 'x' !in b
    requires rest == [] || rest[0] == 'x'
    ensures var p := Split(a + "x" + b + rest, 'x'); |p| >= 2 && p[0] == a && p[1] == b
  {
    assert a + "x" + b + rest == a + ['x'] + (b + rest);
    SplitAtFirst(a, b + rest, 'x');
    if rest == [] {
      assert b + rest == b;
      SplitWithoutSep(b, 'x');
    } else {
      assert b + rest == b + ['x'] + rest[1..];
      SplitAtFirst(b, rest[1..], 'x');
    }
  }

  /**
   * Round trip: ffprobe's "<W>x<H>" line, with any white space around it,
   * reads back as {W, H} without error, for every pair of 64-bit ints.
   */
  lemma ResolutionRoundTrip(ws1: string, w: int, h: int, ws2: string)
    requires AllSpace(ws1) && AllSpace(ws2)
    requires MinInt <= w <= MaxInt && MinInt <= h <= MaxInt
    ensures ResolutionOf(Ran(ws1 + Itoa(w) + "x" + Itoa(h) + ws2)) == Returned(Resolution(w, h), None)
  {
    var sw, sh := Itoa(w), Itoa(h);
    ItoaHasNoSpaceOrX(w);
    ItoaHasNoSpaceOrX(h);
    var core := sw + "x" + sh + [];
    assert ws1 + sw + "x" + sh + ws2 == ws1 + core + ws2;
    assert core[0] == sw[0] && core[|core| - 1] == sh[|sh| - 1];
    TrimSpaceSurrounded(ws1, core, ws2);
    FirstTwoFields(sw, sh, []);
    AtoiOfItoa(w);
    AtoiOfItoa(h);
  }

  /** A formatted int has no 'x' and no white space at its ends. */
  lemma ItoaHasNoSpaceOrX(n: int)
    ensures 'x' !in Itoa(n)
    ensures !IsSpace(Itoa(n)[0]) && !IsSpace(Itoa(n)[|Itoa(n)| - 1])
  {
    var s := Itoa(n);
    assert IsDigit(s[0]) || s[0] == '-';
  }

  /** A first field that is not a number reads as 0, and no error is reported. */
  lemma NonNumericWidthIsZero(a: string, b: string)
    requires 'x' !in a && 'x' !in b
    requires Trimmed(a + "x" + b)
    requires Atoi(a).err == ErrSyntax
    ensures ResolutionOf(Ran(a + "x" + b)) == Returned(Resolution(0, Atoi(b).value), None)
  {
    assert a + "x" + b == a + "x" + b + [];
    OnlyFirstTwoFields(a, b, []);
  }

  /**
   * A width too large for 64 bits reads as the largest int even when junk
   * follows its digits: Atoi meets the overflow first, and its range error
   * is discarded like any other.
   */
  lemma OverflowingWidthIsMaxInt(d: string, junk: string, b: string)
    requires |d| > 0 && AllDigits(d) && DigitsValue(d) > MaxUint64
    requires 'x' !in junk && 'x' !in b
    requires Trimmed(d + junk + "x" + b)
    ensures ResolutionOf(Ran(d + junk + "x" + b)) == Returned(Resolution(MaxInt, Atoi(b).value), None)
  {
    assert 'x' !in d by {
      assert forall i :: 0 <= i < |d| ==> IsDigit(d[i]);
    }
    assert d + junk + "x" + b == (d + junk) + "x" + b + [];
    OnlyFirstTwoFields(d + junk, b, []);
    OverflowBeforeJunk(d, junk);
  }

  /**
   * A file without a video stream gives ffprobe nothing to print: the
   * output is blank, has no 'x', and ResolutionOf panics instead of
   * returning an error.
   */
  lemma BlankOutputPanics(out: string)
    requires AllSpace(out)
    ensures ResolutionOf(Ran(out)) == IndexPanic
  {
  }

  const NoSizeError: string := "ffprobe printed no WxH size"

  /**
   * ResolutionOf with the size check the caller relies on: output without an
   * 'x' is reported as an error like a failed run, and every other output
   * reads exactly as before.
   */
  function ResolutionOfChecked(run: RunResult): (o: ProbeOutcome)
    ensures o.Returned?
    ensures ResolutionOf(run).Returned? ==> o == ResolutionOf(run)
    ensures ResolutionOf(run).IndexPanic? ==> o == Returned(Resolution(0, 0), Some(NoSizeError))
    ensures run.Ran? ==> (o.err.Some? <==> 'x' !in TrimSpace(run.stdout))
  {
    match ResolutionOf(run)
    case IndexPanic => Returned(Resolution(0, 0), Some(NoSizeError))
    case Returned(res, err) => Returned(res, err)
  }

  /** With the check, blank output is an error and no longer a panic. */
  lemma BlankOutputIsError(out: string)
    requires AllSpace(out)
    ensures ResolutionOfChecked(Ran(out)) == Returned(Resolution(0, 0), Some(NoSizeError))
  {
    BlankOutputPanics(out);
  }
}
