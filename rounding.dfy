/** `round2`: rounding to two decimals, half up, as `Math.round(v * 100.0) / 100.0`. */
module Rounding {

  /** `Math.round(x)` is the floor of `x + 0.5`. */
  function Round2(v: real): real
  {
    ((v * 100.0 + 0.5).Floor as real) / 100.0
  }

  /** The result has at most two decimals and lies within half a hundredth of `v`
      (ties going up). */
  lemma Round2Bounds(v: real)
    ensures (Round2(v) * 100.0).Floor as real == Round2(v) * 100.0
    ensures v - 0.005 < Round2(v) <= v + 0.005
  {
  }

  lemma Round2Monotone(x: real, y: real)
    requires x <= y
    ensures Round2(x) <= Round2(y)
  {
    var a, b := x * 100.0 + 0.5, y * 100.0 + 0.5;
    assert a <= b;
    assert a.Floor <= b.Floor;
  }

  /** A value that already has at most two decimals is left unchanged. */
  lemma Round2Exact(v: real)
    requires (v * 100.0).Floor as real == v * 100.0
    ensures Round2(v) == v
  {
    var k := (v * 100.0).Floor;
    assert (v * 100.0 + 0.5).Floor == k;
  }

  lemma Round2Idempotent(v: real)
    ensures Round2(Round2(v)) == Round2(v)
  {
    Round2Bounds(v);
    Round2Exact(Round2(v));
  }

  /** round2(33.333...) = 33.33 and round2(33.335) = 33.34 (half up); the second holds
      of the exact decimal, not necessarily of the nearest double. */
  lemma Round2Examples()
    ensures Round2(100.0 / 3.0) == 33.33
    ensures Round2(33.335) == 33.34
  {
    assert (100.0 / 3.0 * 100.0 + 0.5).Floor == 3333;
    assert (33.335 * 100.0 + 0.5).Floor == 3334;
  }
}
