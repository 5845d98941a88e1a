/**
 * Encoder configuration tables (internal/encoder/select.go).
 *
 * The Go code asks two external questions: which hardware class DetectGPU
 * reports (encoder.Auto runs it itself) and whether ffmpeg has the
 * h264_qsv / h264_amf encoders (ffmpeg.HasEncoder). Both are inputs here.
 * The class constants ffmpeg.INTEL and ffmpeg.AMD are not defined in the
 * ffmpeg package's gpu.go, so their values are inputs too (VendorClasses).
 */
module Encoder {
  import opened Wrappers
  import opened Strings
  import opened Strconv
  import opened Profiles
  import opened Ffmpeg

  datatype Config = Config(codec: string, params: seq<string>)

  /** ffmpeg.HasEncoder("h264_qsv") and ffmpeg.HasEncoder("h264_amf"). */
  datatype Availability = Availability(qsv: bool, amf: bool)

  /** The values of ffmpeg.INTEL and ffmpeg.AMD. */
  datatype VendorClasses = VendorClasses(intel: Gpu, amd: Gpu)

  /** A flag token starts with '-'; a value token does not. */
  predicate IsFlag(token: string) {
    |token| > 0 && token[0] == '-'
  }

  /** From position `i` on, `params` is a run of flag/value pairs. */
  predicate PairsFrom(params: seq<string>, i: nat)
    decreases |params| - i
  {
    i >= |params| || (i + 1 < |params| && IsFlag(params[i]) && !IsFlag(params[i + 1]) && PairsFrom(params, i + 2))
  }

  predicate FlagValuePairs(params: seq<string>) {
    PairsFrom(params, 0)
  }

  /** A usable configuration: a codec name and a non-empty, even-length list of flag/value pairs. */
  predicate WellFormed(c: Config) {
    && |c.codec| > 0
    && |c.params| > 0
    && |c.params| % 2 == 0
    && FlagValuePairs(c.params)
  }

  /** In a run of flag/value pairs, the flags are exactly the tokens at even positions. */
  lemma FlagsAtEvenPositions(params: seq<string>)
    requires FlagValuePairs(params)
    ensures |params| % 2 == 0
    ensures forall i :: 0 <= i < |params| ==> (IsFlag(params[i]) <==> i % 2 == 0)
  {
    PairsFromPositions(params, 0);
  }

  lemma {:induction false} PairsFromPositions(params: seq<string>, k: nat)
    requires k % 2 == 0 && k <= |params|
    requires PairsFrom(params, k)
    ensures |params| % 2 == 0
    ensures forall i :: k <= i < |params| ==> (IsFlag(params[i]) <==> i % 2 == 0)
    decreases |params| - k
  {
    if k < |params| {
      PairsFromPositions(params, k + 2);
    }
  }

  /** The value paired with the first occurrence of `flag` among the flags. */
  function Lookup(params: seq<string>, flag: string): (v: Option<string>)
    ensures v.Some? ==> exists i :: 0 <= i < |params| - 1 && params[i] == flag && params[i + 1] == v.value
  {
    LookupFrom(params, flag, 0)
  }

  /** Lookup among the pairs that start at position `i` or later. */
  function LookupFrom(params: seq<string>, flag: string, i: nat): (v: Option<string>)
    ensures v.Some? ==> exists j :: i <= j < |params| - 1 && params[j] == flag && params[j + 1] == v.value
    decreases |params| - i
  {
    if i + 1 >= |params| then None
    else if params[i] == flag then Some(params[i + 1])
    else LookupFrom(params, flag, i + 2)
  }

  /** The flag that carries each codec's quality number. */
  function QualityFlag(codec: string): string {
    if codec == "h264_nvenc" then "-cq"
    else if codec == "h264_qsv" then "-global_quality"
    else if codec == "h264_amf" then "-qp_i"
    else if codec == "libx264" then "-crf"
    else "-qp"
  }

  /** The quality number of a configuration (lower means better quality). */
  function Quality(c: Config): int {
    match Lookup(c.params, QualityFlag(c.codec))
    case Some(v) => Atoi(v).value
    case None => 0
  }

  /**
   * encoder.Auto with the detected class as an argument. The switch is
   * tried in order NVIDIA, INTEL, AMD, so an earlier case wins if two of
   * those constants were equal; anything else takes the CPU table.
   */
  function Auto(gpu: Gpu, vendors: VendorClasses, avail: Availability, profile: Profile): (c: Config)
    ensures WellFormed(c)
    ensures gpu == NVIDIA ==> c == NvidiaConfig(profile) && c.codec == "h264_nvenc"
    ensures gpu != NVIDIA && gpu == vendors.intel ==>
      c == IntelConfig(avail.qsv, profile) && c.codec == (if avail.qsv then "h264_qsv" else "h264_vaapi")
    ensures gpu != NVIDIA && gpu != vendors.intel && gpu == vendors.amd ==>
      c == AmdConfig(avail.amf, profile) && c.codec == (if avail.amf then "h264_amf" else "h264_vaapi")
    ensures gpu != NVIDIA && gpu != vendors.intel && gpu != vendors.amd ==>
      c == CpuConfig(profile) && c.codec == "libx264"
  {
    if gpu == NVIDIA then NvidiaConfig(profile)
    else if gpu == vendors.intel then IntelConfig(avail.qsv, profile)
    else if gpu == vendors.amd then AmdConfig(avail.amf, profile)
    else CpuConfig(profile)
  }

  /** nvidiaConfig: one NVENC table per profile. */
  function NvidiaConfig(profile: Profile): (c: Config)
    ensures WellFormed(c) && c.codec == "h264_nvenc"
  {
    if profile == Low then NvencLow() else if profile == High then NvencHigh() else NvencMed()
  }

  /** intelConfig: the QSV tables when h264_qsv is available (`hasQsv`), else the VAAPI tables. */
  function IntelConfig(hasQsv: bool, profile: Profile): (c: Config)
    ensures WellFormed(c)
    ensures c.codec == (if hasQsv then "h264_qsv" else "h264_vaapi")
    ensures !hasQsv ==> c == VaapiConfig(profile)
  {
    if hasQsv then
      if profile == Low then QsvLow() else if profile == High then QsvHigh() else QsvMed()
    else
      VaapiConfig(profile)
  }

  /**
   * amdConfig: the AMF tables when h264_amf is available (`hasAmf`), else
   * VAAPI tables written out a second time in select.go, identical to Intel's.
   */
  function AmdConfig(hasAmf: bool, profile: Profile): (c: Config)
    ensures WellFormed(c)
    ensures c.codec == (if hasAmf then "h264_amf" else "h264_vaapi")
    ensures !hasAmf ==> c == VaapiConfig(profile)
  {
    if hasAmf then
      if profile == Low then AmfLow() else if profile == High then AmfHigh() else AmfMed()
    else
      VaapiConfig(profile)
  }

  /** Without their vendor encoder, Intel and AMD use the same VAAPI table for every profile. */
  lemma SameVaapiFallback(profile: Profile)
    ensures IntelConfig(false, profile) == AmdConfig(false, profile)
    ensures IntelConfig(false, profile).codec == "h264_vaapi"
  {
  }

  /** The VAAPI fallback shared by Intel and AMD. */
  function VaapiConfig(profile: Profile): (c: Config)
    ensures WellFormed(c) && c.codec == "h264_vaapi"
  {
    if profile == Low then VaapiLow() else if profile == High then VaapiHigh() else VaapiMed()
  }

  /** cpuConfig: the libx264 tables. */
  function CpuConfig(profile: Profile): (c: Config)
    ensures WellFormed(c) && c.codec == "libx264"
  {
    if profile == Low then X264Low() else if profile == High then X264High() else X264Med()
  }

  // The fifteen distinct tables (the source writes the three VAAPI tables
  // twice, once for Intel and once for AMD). Their quality numbers (the value each codec's quality
  // flag carries) are the *Quality lemmas below.

  function NvencLow(): (c: Config)
    ensures WellFormed(c) && c.codec == "h264_nvenc"
  {
    Config("h264_nvenc", ["-preset", "p3", "-rc", "vbr", "-cq", "23", "-b_ref_mode", "0"])
  }

  function NvencHigh(): (c: Config)
    ensures WellFormed(c) && c.codec == "h264_nvenc"
  {
    Config("h264_nvenc", ["-preset", "p7", "-rc", "vbr", "-cq", "14", "-tune", "hq",
                          "-multipass", "fullres", "-b:v", "0", "-b_ref_mode", "2"])
  }

  function NvencMed(): (c: Config)
    ensures WellFormed(c) && c.codec == "h264_nvenc"
  {
    Config("h264_nvenc", ["-preset", "p5", "-rc", "vbr", "-cq", "18", "-tune", "hq", "-b_ref_mode", "1"])
  }

  function QsvLow(): (c: Config)
    ensures WellFormed(c) && c.codec == "h264_qsv"
  {
    Config("h264_qsv", ["-preset", "fast", "-global_quality", "23", "-look_ahead", "0"])
  }

  function QsvHigh(): (c: Config)
    ensures WellFormed(c) && c.codec == "h264_qsv"
  {
    Config("h264_qsv", ["-preset", "slow", "-global_quality", "16", "-look_ahead", "1", "-extbrc", "1"])
  }

  function QsvMed(): (c: Config)
    ensures WellFormed(c) && c.codec == "h264_qsv"
  {
    Config("h264_qsv", ["-preset", "medium", "-global_quality", "20", "-look_ahead", "1"])
  }

  function VaapiLow(): (c: Config)
    ensures WellFormed(c) && c.codec == "h264_vaapi"
  {
    Config("h264_vaapi", ["-compression_level", "1", "-qp", "23", "-quality", "speed"])
  }

  function VaapiHigh(): (c: Config)
    ensures WellFormed(c) && c.codec == "h264_vaapi"
  {
    Config("h264_vaapi", ["-compression_level", "7", "-qp", "16", "-quality", "quality"])
  }

  function VaapiMed(): (c: Config)
    ensures WellFormed(c) && c.codec == "h264_vaapi"
  {
    Config("h264_vaapi", ["-compression_level", "3", "-qp", "20", "-quality", "balanced"])
  }

  function AmfLow(): (c: Config)
    ensures WellFormed(c) && c.codec == "h264_amf"
  {
    Config("h264_amf", ["-usage", "ultralowlatency", "-quality", "speed", "-qp_i", "23", "-qp_p", "23"])
  }

  function AmfHigh(): (c: Config)
    ensures WellFormed(c) && c.codec == "h264_amf"
  {
    Config("h264_amf", ["-usage", "transcoding", "-quality", "quality", "-qp_i", "16", "-qp_p", "16",
                        "-preanalysis", "1"])
  }

  function AmfMed(): (c: Config)
    ensures WellFormed(c) && c.codec == "h264_amf"
  {
    Config("h264_amf", ["-usage", "transcoding", "-quality", "balanced", "-qp_i", "20", "-qp_p", "20"])
  }

  function X264Low(): (c: Config)
    ensures WellFormed(c) && c.codec == "libx264"
  {
    Config("libx264", ["-preset", "fast", "-crf", "23", "-tune", "fastdecode"])
  }

  function X264High(): (c: Config)
    ensures WellFormed(c) && c.codec == "libx264"
  {
    Config("libx264", ["-preset", "veryslow", "-crf", "14", "-tune", "film", "-x264-params", "ref=6:bframes=8"])
  }

  function X264Med(): (c: Config)
    ensures WellFormed(c) && c.codec == "libx264"
  {
    Config("libx264", ["-preset", "slow", "-crf", "16", "-tune", "film"])
  }

  /** The -cq number of NvencLow: 23. */
  lemma NvencLowQuality()
    ensures Quality(NvencLow()) == 23
  {
    AtoiTwoDigits("23");
  }

  /** The -cq number of NvencMed: 18. */
  lemma NvencMedQuality()
    ensures Quality(NvencMed()) == 18
  {
    AtoiTwoDigits("18");
  }

  /** The -cq number of NvencHigh: 14. */
  lemma NvencHighQuality()
    ensures Quality(NvencHigh()) == 14
  {
    AtoiTwoDigits("14");
  }

  /** The -global_quality number of QsvLow: 23. */
  lemma QsvLowQuality()
    ensures Quality(QsvLow()) == 23
  {
    AtoiTwoDigits("23");
  }

  /** The -global_quality number of QsvMed: 20. */
  lemma QsvMedQuality()
    ensures Quality(QsvMed()) == 20
  {
    AtoiTwoDigits("20");
  }

  /** The -global_quality number of QsvHigh: 16. */
  lemma QsvHighQuality()
    ensures Quality(QsvHigh()) == 16
  {
    AtoiTwoDigits("16");
  }

  /** The -qp number of VaapiLow: 23. */
  lemma VaapiLowQuality()
    ensures Quality(VaapiLow()) == 23
  {
    AtoiTwoDigits("23");
  }

  /** The -qp number of VaapiMed: 20. */
  lemma VaapiMedQuality()
    ensures Quality(VaapiMed()) == 20
  {
    AtoiTwoDigits("20");
  }

  /** The -qp number of VaapiHigh: 16. */
  lemma VaapiHighQuality()
    ensures Quality(VaapiHigh()) == 16
  {
    AtoiTwoDigits("16");
  }

  /** The -qp_i number of AmfLow: 23. */
  lemma AmfLowQuality()
    ensures Quality(AmfLow()) == 23
  {
    AtoiTwoDigits("23");
  }

  /** The -qp_i number of AmfMed: 20. */
  lemma AmfMedQuality()
    ensures Quality(AmfMed()) == 20
  {
    AtoiTwoDigits("20");
  }

  /** The -qp_i number of AmfHigh: 16. */
  lemma AmfHighQuality()
    ensures Quality(AmfHigh()) == 16
  {
    AtoiTwoDigits("16");
  }

  /** The -crf number of X264Low: 23. */
  lemma X264LowQuality()
    ensures Quality(X264Low()) == 23
  {
    AtoiTwoDigits("23");
  }

  /** The -crf number of X264Med: 16. */
  lemma X264MedQuality()
    ensures Quality(X264Med()) == 16
  {
    AtoiTwoDigits("16");
  }

  /** The -crf number of X264High: 14. */
  lemma X264HighQuality()
    ensures Quality(X264High()) == 14
  {
    AtoiTwoDigits("14");
  }

  /** Every AMF table sets -qp_p to the same value as -qp_i. */
  lemma AmfQpPaired()
    ensures Lookup(AmfLow().params, "-qp_p") == Lookup(AmfLow().params, "-qp_i") == Some("23")
    ensures Lookup(AmfMed().params, "-qp_p") == Lookup(AmfMed().params, "-qp_i") == Some("20")
    ensures Lookup(AmfHigh().params, "-qp_p") == Lookup(AmfHigh().params, "-qp_i") == Some("16")
  {
  }

  /** Every profile other than Low and High takes the Med (default) table, in every family. */
  lemma UndeclaredProfileIsMed(gpu: Gpu, vendors: VendorClasses, avail: Availability, profile: Profile)
    requires profile != Low && profile != High
    ensures Auto(gpu, vendors, avail, profile) == Auto(gpu, vendors, avail, Med)
  {
    DeclaredDistinct();
  }

  /** Within each family the quality number falls strictly from Low to Med to High. */
  lemma NvidiaOrder()
    ensures Quality(NvidiaConfig(Low)) > Quality(NvidiaConfig(Med)) > Quality(NvidiaConfig(High))
  {
    DeclaredDistinct();
    NvencLowQuality(); NvencMedQuality(); NvencHighQuality();
  }

  lemma IntelOrder(hasQsv: bool)
    ensures Quality(IntelConfig(hasQsv, Low)) > Quality(IntelConfig(hasQsv, Med)) > Quality(IntelConfig(hasQsv, High))
  {
    DeclaredDistinct();
    if hasQsv {
      QsvLowQuality(); QsvMedQuality(); QsvHighQuality();
    } else {
      VaapiLowQuality(); VaapiMedQuality(); VaapiHighQuality();
    }
  }

  lemma AmdOrder(hasAmf: bool)
    ensures Quality(AmdConfig(hasAmf, Low)) > Quality(AmdConfig(hasAmf, Med)) > Quality(AmdConfig(hasAmf, High))
  {
    DeclaredDistinct();
    if hasAmf {
      AmfLowQuality(); AmfMedQuality(); AmfHighQuality();
    } else {
      VaapiLowQuality(); VaapiMedQuality(); VaapiHighQuality();
    }
  }

  lemma CpuOrder()
    ensures Quality(CpuConfig(Low)) > Quality(CpuConfig(Med)) > Quality(CpuConfig(High))
  {
    DeclaredDistinct();
    X264LowQuality(); X264MedQuality(); X264HighQuality();
  }
}
