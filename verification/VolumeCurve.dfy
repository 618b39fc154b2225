/**
 * The volume curve of src/audio_output.rs: square-law factor, fixed pre-gain, soft limiter,
 * truncation to an integer and a shift into the upper half of a 32-bit word.
 * Single-precision arithmetic is taken over exact reals.
 */
module VolumeCurve {
  import opened Bytes

  const INPUT_GAIN: real := 4.0
  const SOFTCLIP_K: real := 16000.0

  type Volume = v: int | 0 <= v <= 100

  function Factor(volume: Volume): real {
    (volume as real / 100.0) * (volume as real / 100.0)
  }

  function Gained(v: i16): real {
    v as real * INPUT_GAIN
  }

  function Drive(v: i16, volume: Volume): real {
    Gained(v) * Factor(volume)
  }

  function Abs(x: real): real {
    if x < 0.0 then -x else x
  }

  function SoftClip(a: real): real
    requires a >= 0.0
  {
    if a > SOFTCLIP_K then SOFTCLIP_K + (a - SOFTCLIP_K) * SOFTCLIP_K / a else a
  }

  /** A float-to-integer cast: truncation toward zero. */
  function Truncate(x: real): int {
    if x < 0.0 then -((-x).Floor) else x.Floor
  }

  /** The limiter on both sides of zero, and the truncation. */
  function Shape(x: real): int {
    var a := SoftClip(Abs(x));
    Truncate(if x < 0.0 then -a else a)
  }

  /** The level before the shift. */
  function Level(v: i16, volume: Volume): int {
    Shape(Drive(v, volume))
  }

  /** `apply_volume_curve`: the cast result shifted left by 16, provably without overflow. */
  function Apply(v: i16, volume: Volume): (y: i32)
    ensures y == Level(v, volume) * 0x1_0000
    ensures -32000 * 0x1_0000 < y < 32000 * 0x1_0000
  {
    LevelBounded(v, volume);
    Level(v, volume) * 0x1_0000
  }

  // ---------- the limiter ----------

  lemma SoftClipClosedForm(a: real)
    requires a > SOFTCLIP_K
    ensures SoftClip(a) == 2.0 * SOFTCLIP_K - SOFTCLIP_K * SOFTCLIP_K / a
  {
    assert (a - SOFTCLIP_K) * SOFTCLIP_K / a == SOFTCLIP_K * (a / a) - SOFTCLIP_K * SOFTCLIP_K / a;
  }

  /** The limiter never reaches twice its knee. */
  lemma SoftClipBounded(a: real)
    requires a >= 0.0
    ensures 0.0 <= SoftClip(a) < 2.0 * SOFTCLIP_K
    ensures SoftClip(a) <= a
  {
    if a > SOFTCLIP_K {
      var q := SOFTCLIP_K / a;
      assert q * a == SOFTCLIP_K;
      assert 0.0 < q < 1.0;
      assert (a - SOFTCLIP_K) * SOFTCLIP_K / a == (a - SOFTCLIP_K) * q;
      assert (a - SOFTCLIP_K) * q == SOFTCLIP_K - SOFTCLIP_K * q;
      assert (a - SOFTCLIP_K) * q <= a - SOFTCLIP_K;
    }
  }

  lemma QuotientAntitone(n: real, a: real, b: real, p: real, q: real)
    requires 0.0 < a <= b && 0.0 < n && p * a == n && q * b == n
    ensures q <= p
  {
  }

  lemma SoftClipMonotone(a: real, b: real)
    requires 0.0 <= a <= b
    ensures SoftClip(a) <= SoftClip(b)
  {
    if b > SOFTCLIP_K {
      SoftClipClosedForm(b);
      if a > SOFTCLIP_K {
        SoftClipClosedForm(a);
        var k2 := SOFTCLIP_K * SOFTCLIP_K;
        var p, q := k2 / a, k2 / b;
        assert p * a == k2 && q * b == k2;
        QuotientAntitone(k2, a, b, p, q);
      } else {
        var k2 := SOFTCLIP_K * SOFTCLIP_K;
        QuotientAntitone(k2, SOFTCLIP_K, b, SOFTCLIP_K, k2 / b);
      }
    }
  }

  lemma TruncateMonotone(x: real, y: real)
    requires x <= y
    ensures Truncate(x) <= Truncate(y)
  {
  }

  // ---------- the curve ----------

  lemma SquareMonotone(p: real, q: real)
    requires 0.0 <= p <= q <= 1.0
    ensures 0.0 <= p * p <= q * q <= 1.0
  {
    assert p * p <= p * q;
    assert p * q <= q * q;
    assert q * q <= q;
  }

  lemma FactorMonotone(m: Volume, n: Volume)
    requires m <= n
    ensures 0.0 <= Factor(m) <= Factor(n) <= 1.0
  {
    SquareMonotone(m as real / 100.0, n as real / 100.0);
  }

  lemma DriveMonotone(u: i16, v: i16, volume: Volume)
    requires u <= v
    ensures Drive(u, volume) <= Drive(v, volume)
    ensures v >= 0 ==> Drive(v, volume) >= 0.0
    ensures v <= 0 ==> Drive(v, volume) <= 0.0
    ensures -32768 < u ==> Drive(-u, volume) == -Drive(u, volume)
  {
    hide Factor, Gained;
    FactorMonotone(volume, volume);
    GainedMonotone(u, v);
    Grows(Gained(u), Gained(v), Factor(volume));
    SignOfProduct(Gained(v), Factor(volume));
    if -32768 < u {
      Negated(Gained(u), Factor(volume));
    }
  }

  lemma GainedMonotone(u: i16, v: i16)
    requires u <= v
    ensures Gained(u) <= Gained(v)
    ensures v >= 0 ==> Gained(v) >= 0.0
    ensures v <= 0 ==> Gained(v) <= 0.0
    ensures -32768 < u ==> Gained(-u) == -Gained(u)
  {
  }

  lemma Grows(a: real, b: real, f: real)
    requires a <= b && f >= 0.0
    ensures a * f <= b * f
  {
  }

  lemma SignOfProduct(x: real, f: real)
    requires f >= 0.0
    ensures x >= 0.0 ==> x * f >= 0.0
    ensures x <= 0.0 ==> x * f <= 0.0
  {
  }

  lemma Negated(x: real, f: real)
    ensures (-x) * f == -(x * f)
  {
  }

  lemma DriveMonotoneInVolume(v: i16, m: Volume, n: Volume)
    requires m <= n
    ensures v >= 0 ==> 0.0 <= Drive(v, m) <= Drive(v, n)
    ensures v <= 0 ==> Drive(v, n) <= Drive(v, m) <= 0.0
  {
    hide Factor, Gained;
    FactorMonotone(m, n);
    GainedMonotone(v, v);
    SignOfProduct(Gained(v), Factor(m));
    Scale(Gained(v), Factor(m), Factor(n));
  }

  lemma Scale(g: real, p: real, q: real)
    requires 0.0 <= p <= q
    ensures g >= 0.0 ==> g * p <= g * q
    ensures g <= 0.0 ==> g * q <= g * p
  {
  }

  lemma LevelBounded(v: i16, volume: Volume)
    ensures -32000 < Level(v, volume) < 32000
  {
    SoftClipBounded(Abs(Drive(v, volume)));
  }

  lemma ShapeOdd(x: real)
    ensures Shape(-x) == -Shape(x)
  {
    hide SoftClip;
    SoftClipBounded(Abs(x));
  }

  /** Negating the sample negates the output. */
  lemma OddSymmetric(v: i16, volume: Volume)
    requires v > -0x8000
    ensures Apply(-v, volume) == -Apply(v, volume)
  {
    hide Drive, Shape;
    DriveMonotone(v, v, volume);
    ShapeOdd(Drive(v, volume));
  }

  lemma ShapeAtZero()
    ensures Shape(0.0) == 0
  {
  }

  lemma ShapeMonotone(x: real, y: real)
    ensures x <= y ==> Shape(x) <= Shape(y)
  {
    hide SoftClip, Truncate;
    SoftClipBounded(Abs(x));
    SoftClipBounded(Abs(y));
    if y < 0.0 && x <= y {
      SoftClipMonotone(-y, -x);
      TruncateMonotone(-SoftClip(-x), -SoftClip(-y));
    } else if 0.0 <= x <= y {
      SoftClipMonotone(x, y);
      TruncateMonotone(SoftClip(x), SoftClip(y));
    } else if x < 0.0 <= y {
      TruncateMonotone(-SoftClip(-x), SoftClip(y));
    }
  }

  /** A larger sample never gives a smaller output. */
  lemma MonotoneInSample(u: i16, v: i16, volume: Volume)
    requires u <= v
    ensures Apply(u, volume) <= Apply(v, volume)
  {
    hide Drive, SoftClip, Truncate;
    DriveMonotone(u, v, volume);
    ShapeMonotone(Drive(u, volume), Drive(v, volume));
  }

  /** Turning the volume up never makes a sample quieter and never flips its sign. */
  lemma MonotoneInVolume(v: i16, m: Volume, n: Volume)
    requires m <= n
    ensures v >= 0 ==> 0 <= Apply(v, m) <= Apply(v, n)
    ensures v <= 0 ==> Apply(v, n) <= Apply(v, m) <= 0
  {
    hide Drive, SoftClip, Truncate;
    DriveMonotoneInVolume(v, m, n);
    ShapeMonotone(Drive(v, m), Drive(v, n));
    ShapeMonotone(Drive(v, n), Drive(v, m));
    ShapeMonotone(0.0, Drive(v, m));
    ShapeMonotone(Drive(v, m), 0.0);
    ShapeAtZero();
  }

  /** Volume zero is silence. */
  lemma SilentAtZero(v: i16)
    ensures Apply(v, 0) == 0
  {
    assert Factor(0) == 0.0;
  }

  /**
   * Below the knee the curve is the plain square law with the pre-gain, truncated toward zero: the
   * level is the whole part of d / 10000.
   */
  lemma SquareLawBelowKnee(v: i16, volume: Volume)
    ensures var d, level := 4 * v * volume * volume, Level(v, volume);
            && (0 <= d <= 160_000_000 ==> 10000 * level <= d < 10000 * (level + 1))
            && (-160_000_000 <= d <= 0 ==> 10000 * (level - 1) < d <= 10000 * level)
  {
    hide Drive;
    DriveIs(v, volume);
    var d := 4 * v * volume * volume;
    Quotient(d, 10000);
    if -160_000_000 <= d <= 160_000_000 {
      assert Shape(d as real / 10000.0) == Truncate(d as real / 10000.0);
    }
  }

  lemma Quotient(d: int, n: int)
    requires n > 0
    ensures (d as real / n as real) * n as real == d as real
  {
  }

  /**
   * Above the knee it is the hyperbola that leaves the knee with the same slope and tends to twice
   * its height: the level is the whole part of 32000 - 16000^2 / (d / 10000), on both sides of zero.
   */
  lemma HyperbolaAboveKnee(v: i16, volume: Volume)
    ensures var d, level := 4 * v * volume * volume, Level(v, volume) as real;
            && (d > 160_000_000 ==> level <= 32000.0 - 2_560_000_000_000.0 / d as real < level + 1.0)
            && (d < -160_000_000 ==> level - 1.0 < -32000.0 - 2_560_000_000_000.0 / d as real <= level)
  {
    hide Drive, SoftClip;
    DriveIs(v, volume);
    var d := 4 * v * volume * volume;
    if d > 160_000_000 {
      LimitedDrive(d);
    } else if d < -160_000_000 {
      LimitedDrive(-d);
      assert -(d as real / 10000.0) == (-d) as real / 10000.0;
      assert 2_560_000_000_000.0 / (-d) as real == -(2_560_000_000_000.0 / d as real);
    }
  }

  lemma LimitedDrive(d: int)
    requires d > 160_000_000
    ensures d as real / 10000.0 > SOFTCLIP_K
    ensures SoftClip(d as real / 10000.0) == 32000.0 - 2_560_000_000_000.0 / d as real
  {
    hide SoftClip;
    var a := d as real / 10000.0;
    Quotient(d, 10000);
    SoftClipClosedForm(a);
    assert SOFTCLIP_K * SOFTCLIP_K / a == 2_560_000_000_000.0 / d as real by {
      var q := 256_000_000.0 / a;
      assert q * a == 256_000_000.0;
      assert q * d as real == 2_560_000_000_000.0;
    }
  }

  lemma DriveIs(v: i16, volume: Volume)
    ensures Drive(v, volume) == (4 * v * volume * volume) as real / 10000.0
  {
    var x, p := v as real, volume as real;
    assert (p / 100.0) * (p / 100.0) == p * p / 10000.0;
    assert (4 * v * volume * volume) as real == 4.0 * x * p * p;
    assert x * 4.0 * (p * p / 10000.0) == 4.0 * x * p * p / 10000.0;
  }

  /** Half volume with the pre-gain is the original loudness: samples below the knee pass as they are. */
  lemma UnityAtHalfVolume(v: i16)
    requires -16000 <= v <= 16000
    ensures Apply(v, 50) == v * 0x1_0000
  {
    hide Level;
    assert 4 * v * 50 * 50 == 10000 * v;
    SquareLawBelowKnee(v, 50);
  }
}
