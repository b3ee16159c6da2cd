/**
  Sizing arithmetic of the Spray component: the effective particle count
  reported by the `maxParticles` property, and the dimensions of the state
  buffers made by `CreateBuffer`. The configured count and the bulk mesh's
  copy count are C# `int`s; C# integer division truncates toward zero.
 */
module Sizing {
  import opened Events

  const Int32Min: int := -0x8000_0000
  const Int32Max: int := 0x7fff_ffff

  type Int32 = x: int | -0x8000_0000 <= x <= 0x7fff_ffff

  /**
    Copies of the source shapes in one bulk mesh. At least one copy is
    assumed: the bulk mesh builder is not part of this model, and with zero
    copies the `maxParticles` getter and `CreateBuffer` would divide by zero.
   */
  type CopyCount = c: int | 0 < c <= 0x7fff_ffff witness 1

  /** C# `a / b` for a positive divisor: the quotient is truncated toward zero. */
  function TruncDiv(a: int, b: int): (q: int)
    requires b > 0
    ensures 0 <= a ==> 0 <= a - q * b < b
    ensures a < 0 ==> -b < a - q * b <= 0
  {
    if a >= 0 then a / b else -((-a) / b)
  }

  /** The `maxParticles` property: zero without a bulk mesh, else the configured count rounded up. */
  function MaxParticles(configured: Int32, copyCount: Option<CopyCount>): (r: int)
    ensures copyCount.None? ==> r == 0
    ensures copyCount.Some? ==> r % copyCount.value == 0
    ensures copyCount.Some? && 0 <= configured ==>
              configured < r <= configured + copyCount.value && copyCount.value <= r
    ensures copyCount.Some? && configured < 0 ==> r <= copyCount.value
  {
    match copyCount
    case None => 0
    case Some(c) =>
      RoundUpBounds(configured, c);
      (TruncDiv(configured, c) + 1) * c
  }

  /** The facts about `(a / c + 1) * c` that `MaxParticles` promises. */
  lemma RoundUpBounds(a: int, c: int)
    requires c > 0
    ensures var r := (TruncDiv(a, c) + 1) * c;
      && r % c == 0
      && (0 <= a ==> a < r <= a + c && c <= r)
      && (a < 0 ==> r <= c)
  {
    var q := TruncDiv(a, c);
    MultipleMod(q + 1, c);
    assert (q + 1) * c == q * c + c;
    if 0 <= a {
      MulNonNegative(q, c);
    } else {
      MulNonNegative(-q, c);
    }
  }

  lemma MultipleMod(k: int, c: int)
    requires c > 0
    ensures (k * c) % c == 0
  {
    var r := (k * c) % c;
    var d := (k * c) / c;
    assert k * c == d * c + r;
    assert (k - d) * c == r;
    if k - d > 0 {
      MulGrows(k - d, c);
    } else if k - d < 0 {
      MulGrows(d - k, c);
    }
  }

  lemma MulGrows(k: int, c: int)
    requires k >= 1 && c > 0
    ensures k * c >= c
  {
    assert k * c == (k - 1) * c + c;
    MulNonNegative(k - 1, c);
  }

  lemma MulNonNegative(a: int, b: int)
    requires a >= 0 && b >= 0
    ensures a * b >= 0
  {
  }

  /** Reference definition: `r` is the least multiple of `c` strictly above `m`. */
  ghost predicate LeastMultipleAbove(r: int, m: int, c: int)
    requires c > 0
  {
    && m < r
    && r % c == 0
    && forall k :: m < k && k % c == 0 ==> r <= k
  }

  /** For a non-negative configured count, `maxParticles` is the least multiple of the copy count above it. */
  lemma {:induction false} MaxParticlesIsLeastMultipleAbove(configured: Int32, c: CopyCount)
    requires 0 <= configured
    ensures LeastMultipleAbove(MaxParticles(configured, Some(c)), configured, c)
  {
    var r := MaxParticles(configured, Some(c));
    forall k | configured < k && k % c == 0
      ensures r <= k
    {
      NoMultipleBetween(configured, c, k);
    }
  }

  lemma NoMultipleBetween(m: int, c: int, k: int)
    requires 0 <= m && c > 0 && m < k && k % c == 0
    ensures (m / c + 1) * c <= k
  {
    var q := m / c;
    var j := k / c;
    assert k == j * c;
    assert m == q * c + m % c;
    // j * c > q * c, so j > q
    if j <= q {
      MulNonNegative(q - j, c);
      assert false;
    }
    MulNonNegative(j - (q + 1), c);
    assert (j - (q + 1)) * c == k - (q + 1) * c;
  }

  /** Dimensions of a state buffer. */
  datatype Dims = Dims(width: CopyCount, height: int)

  /** `CreateBuffer`: one column per copy and enough rows to hold the configured count. */
  function BufferDims(configured: Int32, c: CopyCount): (d: Dims)
    ensures d.width == c
    ensures d.width * d.height == MaxParticles(configured, Some(c))
    ensures 0 <= configured ==>
              1 <= d.height && (d.height - 1) * c <= configured < d.height * c
  {
    var h := TruncDiv(configured, c) + 1;
    assert 0 <= configured ==> (h - 1) * c <= configured < h * c;
    Dims(c, h)
  }

  /** C# unchecked `int` arithmetic: the value modulo 2^32, read as two's complement. */
  function Wrap32(x: int): (r: Int32)
    ensures (r - x) % 0x1_0000_0000 == 0
    ensures Int32Min <= x <= Int32Max ==> r == x
  {
    (x + 0x8000_0000) % 0x1_0000_0000 - 0x8000_0000
  }

  /**
    The `maxParticles` property exactly as the getter computes it, in 32-bit
    `int` arithmetic. It agrees with `MaxParticles` whenever the rounded count
    fits in an `int`.
   */
  function MaxParticlesInt32(configured: Int32, copyCount: Option<CopyCount>): (r: Int32)
    ensures copyCount.None? ==> r == 0
    ensures (r - MaxParticles(configured, copyCount)) % 0x1_0000_0000 == 0
    ensures Int32Min <= MaxParticles(configured, copyCount) <= Int32Max ==>
              r == MaxParticles(configured, copyCount)
  {
    match copyCount
    case None => 0
    case Some(c) =>
      var q := TruncDiv(configured, c);
      QuotientInRange(configured, c);
      assert q + 1 > Int32Max ==> (q + 1) * c == q + 1;
      var w := Wrap32(q + 1);
      CongruentMul(w, q + 1, c, 0x1_0000_0000);
      CongruentTrans(Wrap32(w * c), w * c, (q + 1) * c, 0x1_0000_0000);
      Wrap32(w * c)
  }

  /** Congruence modulo `n` survives multiplying both sides by `c`. */
  lemma CongruentMul(a: int, b: int, c: int, n: int)
    requires n > 0 && (a - b) % n == 0
    ensures (a * c - b * c) % n == 0
  {
    var k := (a - b) / n;
    assert a - b == k * n;
    assert a * c - b * c == (k * c) * n by {
      assert a * c - b * c == (a - b) * c;
    }
    MultipleMod(k * c, n);
  }

  /** Congruence modulo `n` is transitive. */
  lemma CongruentTrans(a: int, b: int, c: int, n: int)
    requires n > 0 && (a - b) % n == 0 && (b - c) % n == 0
    ensures (a - c) % n == 0
  {
    var j := (a - b) / n;
    var k := (b - c) / n;
    assert a - b == j * n;
    assert b - c == k * n;
    assert a - c == (j + k) * n;
    MultipleMod(j + k, n);
  }

  /** The truncated quotient of an `int` by a copy count is an `int`, and only a divisor of 1 reaches `int.MaxValue`. */
  lemma QuotientInRange(a: Int32, c: CopyCount)
    ensures Int32Min <= TruncDiv(a, c) <= Int32Max
    ensures TruncDiv(a, c) + 1 > Int32Max ==> c == 1
  {
    if a >= 0 {
      QuotientBound(a, c);
    } else {
      QuotientBound(-(a as int), c);
    }
  }

  lemma QuotientBound(a: nat, c: int)
    requires c >= 1
    ensures a / c <= a
    ensures c >= 2 ==> 2 * (a / c) <= a
  {
    var q := a / c;
    assert q * c <= a;
    MulMonotone(q, 1, c);
    if c >= 2 {
      MulMonotone(q, 2, c);
    }
  }

  lemma MulMonotone(x: nat, k: int, c: int)
    requires 0 <= k <= c
    ensures x * k <= x * c
  {
    MulNonNegative(x, c - k);
    assert x * c - x * k == x * (c - k);
  }

  /** The height `CreateBuffer` computes in 32-bit `int` arithmetic. */
  function BufferHeightInt32(configured: Int32, c: CopyCount): (h: Int32)
    ensures (h - BufferDims(configured, c).height) % 0x1_0000_0000 == 0
    ensures Int32Min <= BufferDims(configured, c).height <= Int32Max ==>
              h == BufferDims(configured, c).height
  {
    QuotientInRange(configured, c);
    Wrap32(TruncDiv(configured, c) + 1)
  }

  /** The 32-bit getter turns the largest configurable count into a negative particle count. */
  lemma MaxParticlesInt32Overflows()
    ensures MaxParticles(Int32Max, Some(8)) == 0x8000_0000
    ensures MaxParticlesInt32(Int32Max, Some(8)) == Int32Min
  {
    assert TruncDiv(Int32Max, 8) == 0x0fff_ffff;
  }

  /** With one copy per mesh, the 32-bit buffer height of the largest count wraps to a negative height. */
  lemma BufferHeightInt32Overflows()
    ensures BufferDims(Int32Max, 1).height == 0x8000_0000
    ensures BufferHeightInt32(Int32Max, 1) == Int32Min
  {
  }
}
