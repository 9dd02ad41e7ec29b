/**
 * The noise libraries (simdnoise's `NoiseBuilder::fbm_2d_offset`, noise's `Perlin`) are
 * foreign code. The model keeps only the request a caller makes and treats the values as an
 * uninterpreted, deterministic function of that request: `sample(call, k)` is the `k`-th value
 * of the vector the library returns for `call`.
 */
module Noise {
  import opened Geometry

  /** `.generate()` returns raw values; `.generate_scaled(lo, hi)` rescales them. */
  datatype Scaling = Raw | ScaledTo(lo: real, hi: real)

  /** `NoiseBuilder::fbm_2d_offset(x_offset, width, y_offset, height)` with its builder settings. */
  datatype NoiseCall = Fbm2dOffset(
    xOffset: real, width: nat, yOffset: real, height: nat,
    seed: Option<int>, freq: Option<real>, scaling: Scaling)

  type Sampler = (NoiseCall, nat) -> real

  /** The vector the library returns for `call`: `width * height` values. */
  function Generate(sample: Sampler, call: NoiseCall): seq<real> {
    seq(call.width * call.height, k requires 0 <= k < call.width * call.height => sample(call, k))
  }

  /** `(item * 200f32).floor()`: heights are whole numbers of 1/200 noise units. */
  function Quantize(v: real): (h: real)
    ensures h == h.Floor as real
    ensures h <= 200.0 * v < h + 1.0
  {
    (v * 200.0).Floor as real
  }
}
