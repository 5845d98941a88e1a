/**
 * Hardware classes and the classification step of DetectGPU
 * (internal/ffmpeg/gpu.go). The `ffmpeg -encoders` run is not modelled: its
 * standard output is the input, and None stands for a failed run.
 */
module Ffmpeg {
  import opened Wrappers
  import opened Strings

  /** A hardware class; in Go a named string type. */
  datatype Gpu = Gpu(name: string)

  const NVIDIA: Gpu := Gpu("nvidia")
  const CPU: Gpu := Gpu("cpu")

  const NvencEncoder: string := "h264_nvenc"

  /**
   * NVIDIA exactly when the listing was obtained and mentions h264_nvenc
   * anywhere; CPU otherwise, including when the query failed (never an error).
   */
  function DetectGPU(encoders: Option<string>): (g: Gpu)
    ensures g == NVIDIA || g == CPU
    ensures g == NVIDIA <==> encoders.Some? && Contains(encoders.value, NvencEncoder)
    ensures encoders.None? ==> g == CPU
  {
    match encoders
    case None => CPU
    case Some(out) => if Contains(out, NvencEncoder) then NVIDIA else CPU
  }

  /** The position of h264_nvenc in the listing does not matter. */
  lemma NvencAnywhereIsNvidia(before: string, after: string)
    ensures DetectGPU(Some(before + NvencEncoder + after)) == NVIDIA
  {
    ContainsInside(before, NvencEncoder, after);
  }
}
