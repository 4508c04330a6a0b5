/** The real-number facts the view model relies on when it decides how to
    format a result: Swift's `truncatingRemainder(dividingBy: 1)`, which keeps
    the sign of the dividend, unlike Dafny's Euclidean `%`. */
module Numbers {

  /** Rounding toward zero. */
  function Trunc(r: real): (n: int)
    ensures r >= 0.0 ==> 0.0 <= n as real <= r < n as real + 1.0
    ensures r < 0.0 ==> n as real - 1.0 < r <= n as real <= 0.0
  {
    if r >= 0.0 then r.Floor else -((-r).Floor)
  }

  /** The remainder of `r` divided by 1, truncating: `r - Trunc(r)`. */
  function TruncatingRemainder(r: real): (rem: real)
    ensures -1.0 < rem < 1.0
    ensures r >= 0.0 ==> rem >= 0.0
    ensures r < 0.0 ==> rem <= 0.0
    ensures IsWhole(r - rem)
  {
    var n := Trunc(r);
    assert (n as real).Floor == n;
    r - n as real
  }

  /** `r` has no fractional part. */
  predicate IsWhole(r: real) {
    r.Floor as real == r
  }

  /** A zero truncating remainder is exactly a whole number, so the view
      model's test `truncatingRemainder(dividingBy: 1) != 0` asks whether the
      result has a fractional part. */
  lemma RemainderZeroIffWhole(r: real)
    ensures TruncatingRemainder(r) == 0.0 <==> IsWhole(r)
  {
    var n := Trunc(r);
    assert TruncatingRemainder(r) == r - n as real;
    if TruncatingRemainder(r) == 0.0 {
      assert r == n as real;
      assert (n as real).Floor == n;
    }
    if IsWhole(r) {
      var m := r.Floor;
      if r >= 0.0 {
        assert n == m;
      } else {
        assert -r == (-m) as real;
        assert ((-m) as real).Floor == -m;
        assert n == m;
      }
    }
  }
}
