/** Machine integers and their little-endian byte images. */
module Bytes {
  import opened Arithmetic

  type byte = x: int | 0 <= x < 0x100
  type u16 = x: int | 0 <= x < 0x1_0000
  type i16 = x: int | -0x8000 <= x < 0x8000
  type i32 = x: int | -0x8000_0000 <= x < 0x8000_0000
  type u32 = x: int | 0 <= x < 0x1_0000_0000

  function ToI16(lo: byte, hi: byte): i16 {
    var u := lo + 0x100 * hi;
    if u < 0x8000 then u else u - 0x1_0000
  }

  /** The two bytes of a 16-bit sample, low byte first. */
  function I16Bytes(v: i16): (b: seq<byte>)
    ensures |b| == 2
  {
    var u := if v < 0 then v + 0x1_0000 else v;
    [u % 0x100, u / 0x100]
  }

  /** The four bytes of a 32-bit word, low byte first. */
  function I32Bytes(v: i32): (b: seq<byte>)
    ensures |b| == 4
  {
    var u := if v < 0 then v + 0x1_0000_0000 else v;
    [u % 0x100, u / 0x100 % 0x100, u / 0x1_0000 % 0x100, u / 0x100_0000]
  }

  function ToI32(b0: byte, b1: byte, b2: byte, b3: byte): i32 {
    var u: int := b0 as int + 0x100 * b1 as int + 0x1_0000 * b2 as int + 0x100_0000 * b3 as int;
    if u < 0x8000_0000 then u else u - 0x1_0000_0000
  }

  lemma I16RoundTrip(v: i16)
    ensures ToI16(I16Bytes(v)[0], I16Bytes(v)[1]) == v
  {
  }

  lemma I32RoundTrip(v: i32)
    ensures ToI32(I32Bytes(v)[0], I32Bytes(v)[1], I32Bytes(v)[2], I32Bytes(v)[3]) == v
  {
    var u := if v < 0 then v + 0x1_0000_0000 else v;
    assert u / 0x100 == u / 0x100 % 0x100 + 0x100 * (u / 0x1_0000);
    assert u / 0x1_0000 == u / 0x1_0000 % 0x100 + 0x100 * (u / 0x100_0000);
  }

  /** Low byte first, in two's complement: the bytes spell the value modulo 2^16. */
  lemma SamplesAreLittleEndian(v: i16, lo: byte, hi: byte)
    ensures (I16Bytes(v)[0] + 0x100 * I16Bytes(v)[1] - v) % 0x1_0000 == 0
    ensures (lo + 0x100 * hi - ToI16(lo, hi)) % 0x1_0000 == 0
  {
  }

  /** Likewise modulo 2^32. */
  lemma WordsAreLittleEndian(v: i32, b0: byte, b1: byte, b2: byte, b3: byte)
    ensures var b := I32Bytes(v);
            (b[0] + 0x100 * b[1] + 0x1_0000 * b[2] + 0x100_0000 * b[3] - v) % 0x1_0000_0000 == 0
    ensures (b0 + 0x100 * b1 + 0x1_0000 * b2 + 0x100_0000 * b3 - ToI32(b0, b1, b2, b3)) % 0x1_0000_0000 == 0
  {
    I32RoundTrip(v);
    var b := I32Bytes(v);
    assert ToI32(b[0], b[1], b[2], b[3]) == v;
  }

  /** A sample sequence as the byte stream that carries it. */
  function SampleBytes(xs: seq<i16>): (b: seq<byte>)
    ensures |b| == 2 * |xs|
  {
    if xs == [] then [] else I16Bytes(xs[0]) + SampleBytes(xs[1..])
  }

  /** The samples in a byte stream; an odd last byte is not a sample. */
  function BytesSamples(b: seq<byte>): (xs: seq<i16>)
    ensures |xs| == |b| / 2
  {
    if |b| < 2 then [] else [ToI16(b[0], b[1])] + BytesSamples(b[2..])
  }

  lemma SampleBytesUnfolds(xs: seq<i16>)
    requires xs != []
    ensures SampleBytes(xs) == I16Bytes(xs[0]) + SampleBytes(xs[1..])
  {
    hide I16Bytes;
  }

  lemma {:induction false} SampleBytesConcat(xs: seq<i16>, ys: seq<i16>)
    ensures SampleBytes(xs + ys) == SampleBytes(xs) + SampleBytes(ys)
  {
    if xs == [] {
      assert xs + ys == ys;
    } else {
      hide I16Bytes, SampleBytes;
      SampleBytesConcat(xs[1..], ys);
      DropOfConcat(xs, ys, 1);
      SampleBytesUnfolds(xs);
      SampleBytesUnfolds(xs + ys);
      Assoc(I16Bytes(xs[0]), SampleBytes(xs[1..]), SampleBytes(ys));
    }
  }

  lemma BytesSamplesUnfolds(b: seq<byte>)
    requires |b| >= 2
    ensures BytesSamples(b) == [ToI16(b[0], b[1])] + BytesSamples(b[2..])
  {
    hide ToI16;
  }

  lemma {:induction false} BytesSamplesConcat(a: seq<byte>, b: seq<byte>)
    requires |a| % 2 == 0
    ensures BytesSamples(a + b) == BytesSamples(a) + BytesSamples(b)
  {
    if a == [] {
      assert a + b == b;
    } else {
      hide ToI16, BytesSamples;
      BytesSamplesConcat(a[2..], b);
      DropOfConcat(a, b, 2);
      BytesSamplesUnfolds(a);
      BytesSamplesUnfolds(a + b);
      Assoc([ToI16(a[0], a[1])], BytesSamples(a[2..]), BytesSamples(b));
    }
  }

  lemma {:induction false} BytesSamplesAt(b: seq<byte>, k: nat)
    requires 2 * k + 1 < |b|
    ensures BytesSamples(b)[k] == ToI16(b[2 * k], b[2 * k + 1])
  {
    hide ToI16, BytesSamples;
    BytesSamplesUnfolds(b);
    if k > 0 {
      BytesSamplesAt(b[2..], k - 1);
    }
  }

  /** Reading back a written sample stream gives the samples. */
  lemma {:induction false} SamplesRoundTrip(xs: seq<i16>)
    ensures BytesSamples(SampleBytes(xs)) == xs
  {
    if xs != [] {
      hide I16Bytes, ToI16, SampleBytes, BytesSamples;
      SamplesRoundTrip(xs[1..]);
      I16RoundTrip(xs[0]);
      SampleBytesUnfolds(xs);
      BytesSamplesUnfolds(SampleBytes(xs));
      assert SampleBytes(xs)[2..] == SampleBytes(xs[1..]);
    }
  }
}
