# video-resolution in Dafny

A verified model of the decision logic of `vr`, a Go command-line tool that re-encodes a video with ffmpeg. It can scale the video down or up, and it picks hardware or software encoder settings from a quality profile. The model covers these parts:

- **Encoder tables** (`internal/encoder`). A hardware class (NVIDIA, Intel, AMD, anything else) and a quality profile (`low`, `med`, `high`) select one of fifteen distinct codec/parameter tables. Intel and AMD drop to VAAPI tables when their vendor encoder is missing.
- **Hardware classification** (`internal/ffmpeg/gpu.go`). A substring test over ffmpeg's encoder listing.
- **Scaler** (`internal/scaler`). The even-sizing arithmetic of the target resolution, with its 320-pixel minimum width.
- **Probe parse** (`internal/probe`). The `WxH` parse of ffprobe's output.
- **Driver** (`main.go`):
  - the argument scan;
  - the early exits;
  - the profile default;
  - forced or detected hardware with its warning;
  - the output file name;
  - the ffmpeg argument vector;
  - the launch with its single CPU retry;
  - the `out_time_ms=` progress filter.

Modules, one per file:

- Pure parts: `Profiles`, `Ffmpeg`, `Encoder`, `Scaler` and `Probe`. They are datatypes, functions and lemmas.
- `main.go`'s step-by-step code: `Cli`, `Naming`, `Invocation`, `Plan` and `Supervisor`. It becomes methods with loops or successive appends. Each method is proved equal to a specification function, or states its outcome outright, and lemmas give the properties.
- Shared helpers: `Seqs`, `Strings`, `Strconv` and `Wrappers`. `Strings` and `Strconv` model the Go library calls the core makes: `strings.Split`, `TrimSpace`, `HasPrefix`/`TrimPrefix`, `HasSuffix`/`TrimSuffix`, `ToLower`, `Contains`, `Join`, `strconv.Atoi` and `%d`.

Go's named string types (`Profile`, `GPU`) become one-field datatypes, so "any other profile" and "any other class" can be stated. Go's truncating `%` is written out (`Scaler.GoRem2`). `Atoi` follows `ParseUint`'s left-to-right scan of the digits after the sign. Whichever comes first decides: a byte that is not a digit gives a syntax error with value 0; a digit that takes the value past 2^64 - 1 gives a range error. A complete numeral outside the 64-bit `int` range is clamped to the nearest bound with a range error. Every model operation is a Dafny function or a method without hidden state, so equal inputs give equal results. That covers the determinism of `encoder.Auto`.

Three behaviours of the code are worth knowing when reading the model:

- Classification (`ffmpeg.DetectGPU`) only ever yields `nvidia` or `cpu`: it looks for h264_nvenc in the encoder listing and for nothing else.
- The progress percentage is capped at 100 but has no lower bound.
- The CPU retry re-runs `encoder.Auto`, whose own detection ignores the override. So the retry's codec depends on what that detection reports (`Supervisor.RetryCodec`).

## Model

| member | source | states |
|---|---|---|
| `Profiles.ParseProfile` | internal/encoder/profile.go:11-20 | the result is always one of the three declared profiles; it is Low exactly for "low", High exactly for "high", Med for every other token |
| `Profiles.ParseProfileRoundTrip` | internal/encoder/profile.go:5-20 | each declared profile parses back from its own name |
| `Profiles.ParseProfileDefaults` | internal/encoder/profile.go:17-18 | "med", "", "LOW" and "ultra" all give Med: matching is case-sensitive and unknown tokens fall back |
| `Profiles.DeclaredDistinct` | internal/encoder/profile.go:5-9 | the three profile constants are distinct |
| `Ffmpeg.DetectGPU` | internal/ffmpeg/gpu.go:15-25 | the class is NVIDIA exactly when the listing was obtained and contains h264_nvenc, CPU otherwise; a failed query gives CPU, never an error |
| `Ffmpeg.NvencAnywhereIsNvidia` | internal/ffmpeg/gpu.go:21-23 | h264_nvenc anywhere in the listing gives NVIDIA |
| `Encoder.Auto` | internal/encoder/select.go:10-23 | every result is well formed (non-empty codec, non-empty even-length flag/value pairs); NVIDIA gives h264_nvenc, the Intel class h264_qsv or h264_vaapi by QSV availability, the AMD class h264_amf or h264_vaapi by AMF availability, tried in that order; any other class gives libx264 |
| `Encoder.NvidiaConfig` | internal/encoder/select.go:25-53 | well formed, codec h264_nvenc |
| `Encoder.IntelConfig` | internal/encoder/select.go:55-102 | well formed; h264_qsv exactly when QSV is available, otherwise the VAAPI table for the profile |
| `Encoder.AmdConfig` | internal/encoder/select.go:104-153 | well formed; h264_amf exactly when AMF is available, otherwise the VAAPI table for the profile |
| `Encoder.SameVaapiFallback` | internal/encoder/select.go:132-152 | without their vendor encoder, Intel and AMD get the same h264_vaapi settings for every profile |
| `Encoder.VaapiConfig` | internal/encoder/select.go:81-101 | well formed, codec h264_vaapi |
| `Encoder.CpuConfig` | internal/encoder/select.go:155-177 | well formed, codec libx264 |
| `Encoder.NvencLow` | internal/encoder/select.go:28-33 | the NVENC low table is well formed with codec h264_nvenc |
| `Encoder.NvencHigh` | internal/encoder/select.go:35-43 | the NVENC high table is well formed with codec h264_nvenc |
| `Encoder.NvencMed` | internal/encoder/select.go:45-51 | the NVENC default table is well formed with codec h264_nvenc |
| `Encoder.QsvLow` | internal/encoder/select.go:60-64 | the QSV low table is well formed with codec h264_qsv |
| `Encoder.QsvHigh` | internal/encoder/select.go:66-71 | the QSV high table is well formed with codec h264_qsv |
| `Encoder.QsvMed` | internal/encoder/select.go:73-77 | the QSV default table is well formed with codec h264_qsv |
| `Encoder.VaapiLow` | internal/encoder/select.go:84-88 | the VAAPI low table is well formed with codec h264_vaapi |
| `Encoder.VaapiHigh` | internal/encoder/select.go:90-94 | the VAAPI high table is well formed with codec h264_vaapi |
| `Encoder.VaapiMed` | internal/encoder/select.go:96-100 | the VAAPI default table is well formed with codec h264_vaapi |
| `Encoder.AmfLow` | internal/encoder/select.go:108-113 | the AMF low table is well formed with codec h264_amf |
| `Encoder.AmfHigh` | internal/encoder/select.go:115-121 | the AMF high table is well formed with codec h264_amf |
| `Encoder.AmfMed` | internal/encoder/select.go:123-128 | the AMF default table is well formed with codec h264_amf |
| `Encoder.X264Low` | internal/encoder/select.go:158-162 | the libx264 low table is well formed with codec libx264 |
| `Encoder.X264High` | internal/encoder/select.go:164-169 | the libx264 high table is well formed with codec libx264 |
| `Encoder.X264Med` | internal/encoder/select.go:171-175 | the libx264 default table is well formed with codec libx264 |
| `Encoder.NvencLowQuality` | internal/encoder/select.go:31 | the NVENC low table's -cq reads as 23 |
| `Encoder.NvencMedQuality` | internal/encoder/select.go:48 | the NVENC default table's -cq reads as 18 |
| `Encoder.NvencHighQuality` | internal/encoder/select.go:38 | the NVENC high table's -cq reads as 14 |
| `Encoder.QsvLowQuality` | internal/encoder/select.go:62 | the QSV low table's -global_quality reads as 23 |
| `Encoder.QsvMedQuality` | internal/encoder/select.go:75 | the QSV default table's -global_quality reads as 20 |
| `Encoder.QsvHighQuality` | internal/encoder/select.go:68 | the QSV high table's -global_quality reads as 16 |
| `Encoder.VaapiLowQuality` | internal/encoder/select.go:86 | the VAAPI low table's -qp reads as 23 |
| `Encoder.VaapiMedQuality` | internal/encoder/select.go:98 | the VAAPI default table's -qp reads as 20 |
| `Encoder.VaapiHighQuality` | internal/encoder/select.go:92 | the VAAPI high table's -qp reads as 16 |
| `Encoder.AmfLowQuality` | internal/encoder/select.go:111 | the AMF low table's -qp_i reads as 23 |
| `Encoder.AmfMedQuality` | internal/encoder/select.go:126 | the AMF default table's -qp_i reads as 20 |
| `Encoder.AmfHighQuality` | internal/encoder/select.go:118 | the AMF high table's -qp_i reads as 16 |
| `Encoder.X264LowQuality` | internal/encoder/select.go:160 | the libx264 low table's -crf reads as 23 |
| `Encoder.X264MedQuality` | internal/encoder/select.go:173 | the libx264 default table's -crf reads as 16 |
| `Encoder.X264HighQuality` | internal/encoder/select.go:166 | the libx264 high table's -crf reads as 14 |
| `Encoder.AmfQpPaired` | internal/encoder/select.go:108-128 | every AMF table gives -qp_p the same value as -qp_i (23, 20, 16) |
| `Encoder.UndeclaredProfileIsMed` | internal/encoder/select.go:10-177 | for every class and availability, a profile other than Low and High gets exactly the Med configuration |
| `Encoder.NvidiaOrder` | internal/encoder/select.go:25-53 | NVENC quality falls strictly from Low to Med to High |
| `Encoder.IntelOrder` | internal/encoder/select.go:55-102 | Intel quality (QSV or VAAPI) falls strictly from Low to Med to High |
| `Encoder.AmdOrder` | internal/encoder/select.go:104-153 | AMD quality (AMF or VAAPI) falls strictly from Low to Med to High |
| `Encoder.CpuOrder` | internal/encoder/select.go:155-177 | libx264 quality falls strictly from Low to Med to High |
| `Scaler.Factor` | internal/scaler/scale.go:13-16 | 2/3 for "down", 1.5 for every other mode including "up" |
| `Scaler.GoRem2` | internal/scaler/scale.go:21-22 | Go's `% 2`: differs from n by an even amount and takes the sign of n |
| `Scaler.DropOdd` | internal/scaler/scale.go:21-22 | the result is even; an even number is kept, an odd one moves one step toward zero |
| `Scaler.Auto` | internal/scaler/scale.go:10-31 | the width and height are even and the width is at least 320; below 320 the width is exactly 320 and the height the truncated 320/ratio made even, otherwise both are the rounded values made even |
| `Strings.Split` | internal/probe/video.go:31 | at least one piece, no piece holds the separator, joining the pieces with it gives the input, and there is more than one piece exactly when the separator occurs |
| `Strings.TrimSpace` | internal/probe/video.go:31 | the result has no white space at either end |
| `Strings.TrimSpaceRemovesOnlySpace` | internal/probe/video.go:31 | the result is a stretch of the input with only white space before and after it, and it is empty exactly when the input is blank |
| `Strings.TrimPrefix` | main.go:374-375 | with the prefix present, prefix + result is the input; otherwise the input is returned |
| `Strings.TrimSuffix` | main.go:272 | with the suffix present, result + suffix is the input (case-sensitive); otherwise the input is returned |
| `Strings.ToLower` | main.go:271 | same length, each code point lower-cased (ASCII letters shift by 32, all else unchanged) |
| `Strings.ContainsInside` | internal/ffmpeg/gpu.go:21 | a string contains itself whatever surrounds it, which is how strings.Contains finds h264_nvenc anywhere in the listing |
| `Strings.JoinEnds` | main.go:288 | a joined string starts with the first piece and ends with the last |
| `Strings.JoinTwo` | main.go:288 | two pieces are joined with exactly one separator between them |
| `Strings.TrimSpaceFixed` | internal/probe/video.go:31 | TrimSpace leaves a string alone exactly when neither end is white space |
| `Strings.TrimSpaceSurrounded` | internal/probe/video.go:31 | TrimSpace removes exactly the white space around a non-blank core |
| `Strconv.Atoi` | internal/probe/video.go:32-33 | the value is a 64-bit int; there is no error exactly when the input is a sign and digits denoting a 64-bit int, and the value is then that number; a numeral outside the range is a range error at the nearest bound; a syntax error reads as 0; the empty string is a syntax error |
| `Strconv.OverflowBeforeJunk` | internal/probe/video.go:32-33 | a digit run past 2^64 - 1 is a range error reading as the largest int, whatever bytes follow it |
| `Strconv.Itoa` | main.go:280 | `%d` output is digits with a leading '-' exactly for negative numbers, and ends in a digit; AtoiOfItoa reads it back |
| `Strconv.AtoiOfItoa` | internal/probe/video.go:32-33 | Atoi reads back without error every 64-bit int that `%d` writes |
| `Probe.ResolutionOf` | internal/probe/video.go:15-35 | a failed run gives the zero resolution with that error; output whose trimmed text has no 'x' panics on p[1]; otherwise the error is nil |
| `Probe.ResolutionRoundTrip` | internal/probe/video.go:31-35 | "<w>x<h>" with any white space around it reads back as {w, h} with no error |
| `Probe.OnlyFirstTwoFields` | internal/probe/video.go:31-33 | fields after a second 'x' are ignored |
| `Probe.OverflowingWidthIsMaxInt` | internal/probe/video.go:32-33 | a width of more than 64 bits of digits, even with junk after it, reads as the largest int with no error |
| `Probe.NonNumericWidthIsZero` | internal/probe/video.go:32-33 | a width that is not a number reads as 0 and no error is reported |
| `Probe.BlankOutputPanics` | internal/probe/video.go:31-33 | blank ffprobe output (no video stream) makes ResolutionOf panic |
| `Probe.ResolutionOfChecked` | internal/probe/video.go:15-35 | never panics; agrees with ResolutionOf wherever that returns, and reports an error where it would panic, which is exactly when the trimmed output has no 'x' |
| `Probe.BlankOutputIsError` | internal/probe/video.go:31-35 | with the size check, blank output is an error |
| `Cli.ScanArgs` | main.go:75-116 | the loop stops at the first help, version or list-gpus flag, and its state then agrees with the specifications over the arguments before it |
| `Cli.ParseArgs` | main.go:61-119 | the help/version/list flags are set exactly for the first stop flag; gpuMode, compress, scaleMode, input and profileStr equal their specifications over the arguments before it |
| `Cli.Consume` | main.go:75-115 | one turn of the switch: a hardware flag sets the mode, -compress sets compress, only the first -ds/-us is kept, and before the input a profile word fills an empty profile while another bare word becomes the input |
| `Cli.StopFlagIgnoresRest` | main.go:76-84 | everything after the first help, version or list-gpus flag is ignored |
| `Cli.LastHardwareFlagWins` | main.go:85-96 | the last hardware flag decides the mode |
| `Cli.FirstScaleFlagWins` | main.go:99-103 | the first -ds/-us is the scale mode |
| `Cli.BareWordsAfterInputIgnored` | main.go:104-114 | once the input is found, later bare words (a trailing profile word included) change none of the results |
| `Cli.FirstProfileWordKept` | main.go:105-109 | the first profile word before the input is the profile |
| `Cli.Dispatch` | main.go:150-175 | the version flag wins over help, help over list-gpus; with none of them set the run proceeds exactly when an input was given, a missing input is the outcome exactly when no flag is set and the input is empty, and it is reported as an error unless the command line was empty |
| `Plan.ChooseProfile` | main.go:191-194 | the explicit Med default agrees with ParseProfile: the profile is ParseProfile of the profile word |
| `Plan.DetectClass` | main.go:196-216 | "auto" classifies the listing (NVIDIA or CPU only) and never warns; other modes use the forced class; the warning is logged exactly when forcing gave CPU for a mode other than "cpu" |
| `Plan.ModeOf` | main.go:231-234 | "" gives "none", "-ds" "down", "-us" "up", and any other flag the map's zero value "" |
| `Plan.ParsedMode` | main.go:231-234 | for parsed arguments the mode is "none", "down" or "up", not "none" exactly when a scale flag was scanned, with factor 2/3 for down and 1.5 for up |
| `Plan.SourceResolution` | main.go:218-223 | the run stops exactly when ffprobe failed or printed no WxH; otherwise the size is ResolutionOf's, with no error |
| `Plan.TargetOf` | main.go:236-245 | unscaled, the target is the source; scaled, it is scaler.Auto's even target at least 320 wide |
| `Naming.BaseNameOf` | main.go:268-275 | with no accepted extension the input is kept; the first accepted extension is removed if it is a case-sensitive suffix, otherwise the input is kept |
| `Naming.BaseName` | main.go:268-275 | the loop with its early break computes BaseNameOf |
| `Naming.OutputNameOf` | main.go:277-290 | the name starts with the base name and ends in ".mp4" |
| `Naming.OutputName` | main.go:277-290 | appending the suffixes and joining them with "-" gives base name, "-WxH" when scaling, "-compressed" when compressing, ".mp4" |
| `Naming.JoinedTags` | main.go:279-288 | a leading "-" before the suffix list joined with "-" equals the scale tag followed by the compress tag, for every choice of the two |
| `Naming.LowerCaseExtensionStripped` | main.go:269-275 | each listed extension in lower case is stripped exactly |
| `Naming.UpperCaseExtensionKept` | main.go:271-272 | "X.MP4" is recognised but keeps its ".MP4", because the stripping is case-sensitive |
| `Naming.UpperCaseExtensionDoubled` | main.go:268-290 | so "X.MP4" is written to "X.MP4.mp4" |
| `Naming.PlainName` | main.go:279-290 | without scaling or compression the name is the base name plus ".mp4" |
| `Naming.ScaledAndCompressedName` | main.go:277-290 | scaling and compressing "X.ext" gives "X-WxH-compressed.mp4" |
| `Invocation.ArgVectorLayout` | main.go:299-318 | the vector begins -y -i input, has -vf with the Lanczos filter exactly when scaling, then -c:v and the codec, the parameters in order, the fixed trailer, and the output path last |
| `Invocation.BuildArgs` | main.go:299-318 | the successive appends build that vector |
| `Invocation.ScaleFilterFields` | main.go:305 | the filter's ':'-separated fields are "scale=W", "H" and "flags=lanczos" |
| `Supervisor.EncoderFor` | main.go:262-266 | an attempt's configuration is encoder.Auto's, compressed when asked for; uncompressed it is well formed |
| `Supervisor.Percent` | main.go:377-380 | the percentage is at most 100 and is (v/1e6)/dur*100 whenever that is at most 100 |
| `Supervisor.PercentExamples` | main.go:377-380 | 50000000 over 100 s shows 50, 999000000 shows 100, and a negative value is passed through |
| `Supervisor.Sample` | main.go:374-382 | a line produces an update exactly when it starts with out_time_ms=, its value parses and the duration is positive; the update is at most 100 |
| `Supervisor.Progress` | main.go:371-384 | the read loop yields the updates of the lines in order, each at most 100 |
| `Supervisor.UpdatesCapped` | main.go:371-384 | at most one update per line, each at most 100 |
| `Supervisor.NoDurationNoUpdates` | main.go:376 | with no positive duration no update is shown |
| `Supervisor.OtherLinesIgnored` | main.go:374 | lines without the out_time_ms= prefix never produce updates |
| `Supervisor.Launch` | main.go:323-369 | one or two attempts; the first uses the first configuration; a second happens exactly when the first start failed and the detected class is not CPU, with the fallback configuration in the same layout; the run goes on exactly when the last attempt started |
| `Supervisor.Supervise` | main.go:323-393 | no updates and StartFailed when nothing started; otherwise the progress updates, then Saved or EncodeFailed from cmd.Wait |
| `Supervisor.RetryCodec` | main.go:330-337 | without compression the retry uses libx264 exactly when the re-run detection lands outside the NVIDIA, Intel and AMD classes, and h264_nvenc when it reports NVIDIA |
| `Supervisor.RetryKeepsLayout` | main.go:339-355 | the retry vector has the same head, the same -vf decision and the same output path as the first |

## Findings

| source | as written | input that shows it | evidently intended | confidence | as-written member | corrected member |
|---|---|---|---|---|---|---|
| internal/probe/video.go:31-33 | `p[1]` is read without checking that the split produced two fields | ffprobe output "" or "\n" (a file with no video stream) | an error, which main.go:219-223 already handles with "Cannot read video" | high, not executed | `Probe.BlankOutputPanics` | `Probe.ResolutionOfChecked` |

`Plan.SourceResolution` uses the corrected definition.

## Left out

- Process and file I/O are not modelled:
  - `exec.Command`, `Start`, `Wait`, `StdoutPipe` and the scanner loop mechanics;
  - the ffprobe and `ffmpeg -encoders` runs;
  - the `os.Stat` checks for the input and for an existing output (main.go:186-189, 292-295);
  - `time.Sleep`.

  Their results are inputs: `Supervisor.World` holds the start results, output lines, `cmd.Wait` result and ParseFloat; the listing is an `Option<string>`; the probe result is a `Probe.RunResult`.
- Calls to code that is not shown are parameters, with no behaviour given to them: `ffmpeg.SetForcedGPU`, `ffmpeg.HasEncoder`, `ffmpeg.INTEL`, `ffmpeg.AMD` and `encoder.ApplyCompression`. Nor is the class `encoder.Auto`'s own detection reports on each attempt modelled.
- `ffmpeg.ResetForcedGPU`, `ffmpeg.GetAvailableGPUs` and the list of available encoders printed after the warning (main.go:205-211) are not modelled.
- `internal/ffmpeg/paths.go` (`Init` only looks binaries up on the PATH) and `internal/logger` are not part of this model.
- Console output is not modelled: `showHelp`, `showVersion`, `listAvailableGPUs` and the text of the log lines (the GPU name, plan and summary lines).
- Floating point is not modelled. scaler.Auto's ratio, `math.Round` and the int conversions are uninterpreted integer-valued functions (`Scaler.FloatOps`). The progress percentage is computed over mathematical reals, not IEEE-754 doubles. `probe.Duration` is the input `dur`. `%.1f` formatting is not modelled.
- `Strings.ToLower`: only ASCII letters are lower-cased; the other Unicode case mappings of strings.ToLower are not modelled.
- Concurrency between the running ffmpeg process and the read loop is not modelled: the loop consumes a finite sequence of lines.
- `Encoder.NvidiaOrder`, `Encoder.IntelOrder`, `Encoder.AmdOrder`, `Encoder.CpuOrder`: the strict quality ordering is stated per family, not as a single lemma over `Encoder.Auto` for an arbitrary class.
- `Probe.ResolutionOf`: the out-of-range index is an explicit `IndexPanic` outcome rather than a precondition that excludes output without an 'x'.
