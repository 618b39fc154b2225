/**
 * The base64 decoder of src/voice_client.rs: a 32-bit shift register that is never masked,
 * against the number its 6-bit groups spell and against the encoding of RFC 4648 section 4.
 */
module Base64 {
  import opened Arithmetic
  import opened Bytes
  import opened Options

  type sextet = x: int | 0 <= x < 64

  /** The alphabet, as the decoder reads it. */
  function Value(c: byte): Option<sextet> {
    if 65 <= c <= 90 then Some(c - 65)
    else if 97 <= c <= 122 then Some(c - 97 + 26)
    else if 48 <= c <= 57 then Some(c - 48 + 52)
    else if c == 43 then Some(62)
    else if c == 47 then Some(63)
    else None
  }

  /** '=', CR, LF and space, which the decoder tests for before looking a byte up. */
  predicate IsSkipped(c: byte) {
    c == 61 || c == 13 || c == 10 || c == 32
  }

  /** The 6-bit groups carried by an input, everything outside the alphabet dropped. */
  function Groups(input: seq<byte>): (g: seq<sextet>) {
    if input == [] then []
    else if Value(input[0]).Some? then [Value(input[0]).value] + Groups(input[1..])
    else Groups(input[1..])
  }

  function GroupsOf(c: byte): seq<sextet> {
    if Value(c).Some? then [Value(c).value] else []
  }

  lemma GroupsUnfold(input: seq<byte>)
    requires input != []
    ensures Groups(input) == GroupsOf(input[0]) + Groups(input[1..])
  {
    hide Value;
  }

  lemma {:induction false} GroupsConcat(a: seq<byte>, b: seq<byte>)
    ensures Groups(a + b) == Groups(a) + Groups(b)
  {
    if a == [] {
      assert a + b == b;
    } else {
      hide Value, Groups;
      GroupsConcat(a[1..], b);
      DropOfConcat(a, b, 1);
      GroupsUnfold(a);
      GroupsUnfold(a + b);
      Assoc(GroupsOf(a[0]), Groups(a[1..]), Groups(b));
    }
  }

  function Pow2(bits: nat): (p: nat)
    ensures p > 0
  {
    if bits == 0 then 1 else 2 * Pow2(bits - 1)
  }

  /** The groups read as one big-endian number, base 64. */
  function GroupsNumber(g: seq<sextet>): nat {
    if g == [] then 0 else 64 * GroupsNumber(g[..|g| - 1]) + g[|g| - 1]
  }

  /** The bytes read as one big-endian number, base 256. */
  function BytesNumber(b: seq<byte>): nat {
    if b == [] then 0 else 256 * BytesNumber(b[..|b| - 1]) + b[|b| - 1]
  }

  lemma {:induction false} BytesNumberInjective(a: seq<byte>, b: seq<byte>)
    requires |a| == |b| && BytesNumber(a) == BytesNumber(b)
    ensures a == b
  {
    if a != [] {
      var n := |a| - 1;
      BytesNumberInjective(a[..n], b[..n]);
      assert a == a[..n] + [a[n]] && b == b[..n] + [b[n]];
    }
  }

  /**
   * `out` is the bit stream of `g`, most significant bit first, cut to whole bytes:
   * as many bytes as fit in 6 bits a group, and the number left when the spare bits are dropped.
   */
  ghost predicate IsBitStream(g: seq<sextet>, out: seq<byte>) {
    && |out| == 6 * |g| / 8
    && BytesNumber(out) == GroupsNumber(g) / Pow2(6 * |g| % 8)
  }

  lemma BitStreamUnique(g: seq<sextet>, a: seq<byte>, b: seq<byte>)
    requires IsBitStream(g, a) && IsBitStream(g, b)
    ensures a == b
  {
    BytesNumberInjective(a, b);
  }

  // ---------- the decoder ----------

  /** The register, how many of its low bits are pending, and the bytes appended so far. */
  datatype Register = Register(acc: u32, bits: nat, out: seq<byte>)

  function Shift(r: Register, v: sextet): (r': Register)
    requires r.bits < 8
    ensures r'.bits < 8
  {
    var acc := r.acc * 64 % 0x1_0000_0000 + v;
    var bits := r.bits + 6;
    if bits >= 8 then Register(acc, bits - 8, r.out + [acc / Pow2(bits - 8) % 256])
    else Register(acc, bits, r.out)
  }

  /**
   * What the register holds after the groups `g`: their number modulo 2^32, of which the low
   * `bits` bits are not output yet. Bits above them are garbage the byte casts never see.
   */
  ghost predicate Holds(r: Register, g: seq<sextet>) {
    && 6 * |g| == 8 * |r.out| + r.bits
    && r.bits in {0, 2, 4, 6}
    && r.acc == GroupsNumber(g) % 0x1_0000_0000
    && BytesNumber(r.out) == GroupsNumber(g) / Pow2(r.bits)
  }

  lemma Pow2Values()
    ensures Pow2(0) == 1 && Pow2(2) == 4 && Pow2(4) == 16 && Pow2(6) == 64
  {
    assert Pow2(1) == 2 && Pow2(3) == 8 && Pow2(5) == 32;
  }

  lemma ShiftHolds(r: Register, g: seq<sextet>, v: sextet)
    requires Holds(r, g)
    ensures Holds(Shift(r, v), g + [v])
  {
    hide Holds, Shift;
    if r.bits == 0 {
      ShiftsIn(r, g, v);
    } else {
      ShiftsOut(r, g, v);
    }
  }

  /** With nothing pending the six bits just wait. */
  lemma ShiftsIn(r: Register, g: seq<sextet>, v: sextet)
    requires Holds(r, g) && r.bits == 0
    ensures Holds(Shift(r, v), g + [v])
  {
    hide Pow2, BytesNumber, GroupsNumber;
    Pow2Values();
    GroupsNumberSnoc(g, v);
    RegisterWraps(GroupsNumber(g), r.acc, v);
    assert (64 * GroupsNumber(g) + v) / 64 == GroupsNumber(g);
  }

  /** Otherwise a byte leaves. */
  lemma ShiftsOut(r: Register, g: seq<sextet>, v: sextet)
    requires Holds(r, g) && r.bits != 0
    ensures Holds(Shift(r, v), g + [v])
  {
    hide Pow2, BytesNumber, GroupsNumber;
    var n, acc := GroupsNumber(g), r.acc * 64 % 0x1_0000_0000 + v;
    var b := acc / Pow2(r.bits - 2) % 256;
    RegisterWraps(n, r.acc, v);
    ByteLeaves(n, r.bits, acc, v);
    GroupsNumberSnoc(g, v);
    BytesNumberSnoc(r.out, b);
  }

  /** The byte shifted out is the next byte of the number; the wrapped high bits never reach it. */
  lemma ByteLeaves(n: nat, bits: nat, acc: nat, v: sextet)
    requires bits in {2, 4, 6} && acc == (64 * n + v) % 0x1_0000_0000
    ensures 256 * (n / Pow2(bits)) + acc / Pow2(bits - 2) % 256 == (64 * n + v) / Pow2(bits - 2)
  {
    hide Pow2;
    Pow2Values();
    var m := 64 * n + v;
    var q := m / 0x1_0000_0000;
    assert m == q * 0x1_0000_0000 + acc;
    if bits == 2 {
      TopByte1(n, v, q, acc);
    } else if bits == 4 {
      TopByte4(n, v, q, acc);
    } else {
      TopByte16(n, v, q, acc);
    }
  }

  lemma TopByte1(n: nat, v: sextet, q: nat, acc: nat)
    requires 64 * n + v == q * 0x1_0000_0000 + acc
    ensures 256 * (n / 4) + acc % 256 == 64 * n + v
  {
    var k, r := n / 4, n % 4;
    LowByte(acc, k - q * 0x100_0000, 64 * r + v);
  }

  lemma TopByte4(n: nat, v: sextet, q: nat, acc: nat)
    requires 64 * n + v == q * 0x1_0000_0000 + acc
    ensures 256 * (n / 16) + acc / 4 % 256 == (64 * n + v) / 4
  {
    var k, r, a, b := n / 16, n % 16, v / 4, v % 4;
    assert n == 16 * k + r && v == 4 * a + b;
    By4(64 * n + v, 256 * k + 16 * r + a, b);
    By4(acc, 256 * k + 16 * r + a - q * 0x4000_0000, b);
    LowByte(256 * k + 16 * r + a - q * 0x4000_0000, k - q * 0x40_0000, 16 * r + a);
  }

  lemma TopByte16(n: nat, v: sextet, q: nat, acc: nat)
    requires 64 * n + v == q * 0x1_0000_0000 + acc
    ensures 256 * (n / 64) + acc / 16 % 256 == (64 * n + v) / 16
  {
    var k, r, a, b := n / 64, n % 64, v / 16, v % 16;
    assert n == 64 * k + r && v == 16 * a + b;
    By16(64 * n + v, 256 * k + 4 * r + a, b);
    By16(acc, 256 * k + 4 * r + a - q * 0x1000_0000, b);
    LowByte(256 * k + 4 * r + a - q * 0x1000_0000, k - q * 0x10_0000, 4 * r + a);
  }

  lemma LowByte(n: int, hi: int, lo: byte)
    requires n == 256 * hi + lo
    ensures n % 256 == lo
  {
  }

  lemma By4(n: int, q: int, r: int)
    requires n == 4 * q + r && 0 <= r < 4
    ensures n / 4 == q
  {
  }

  lemma By16(n: int, q: int, r: int)
    requires n == 16 * q + r && 0 <= r < 16
    ensures n / 16 == q
  {
  }

  lemma GroupsNumberSnoc(g: seq<sextet>, v: sextet)
    ensures GroupsNumber(g + [v]) == 64 * GroupsNumber(g) + v
  {
    assert (g + [v])[..|g|] == g;
  }

  lemma BytesNumberSnoc(b: seq<byte>, x: byte)
    ensures BytesNumber(b + [x]) == 256 * BytesNumber(b) + x
  {
    assert (b + [x])[..|b|] == b;
  }

  lemma RegisterWraps(n: nat, acc: u32, v: sextet)
    requires acc == n % 0x1_0000_0000
    ensures acc * 64 % 0x1_0000_0000 + v == (64 * n + v) % 0x1_0000_0000
  {
    var q := n / 0x1_0000_0000;
    var hi, lo := acc / 0x400_0000, acc % 0x400_0000;
    WrapsTo(acc * 64, hi, 64 * lo);
    WrapsTo(64 * n + v, 64 * q + hi, 64 * lo + v);
  }

  lemma WrapsTo(a: nat, q: nat, r: nat)
    requires r < 0x1_0000_0000 && a == q * 0x1_0000_0000 + r
    ensures a % 0x1_0000_0000 == r
  {
  }

  function StartRegister(): Register {
    Register(0, 0, [])
  }

  /** The register after shifting in all the groups. */
  function Shifted(g: seq<sextet>): (r: Register)
    ensures r.bits < 8
  {
    if g == [] then StartRegister() else Shift(Shifted(g[..|g| - 1]), g[|g| - 1])
  }

  /** The bytes an input decodes to. */
  function Decoded(input: seq<byte>): seq<byte> {
    Shifted(Groups(input)).out
  }

  lemma {:induction false} ShiftedHolds(g: seq<sextet>)
    ensures Holds(Shifted(g), g)
  {
    hide Shift, Holds;
    if g == [] {
      HoldsAtStart();
    } else {
      ShiftedHolds(g[..|g| - 1]);
      ShiftHolds(Shifted(g[..|g| - 1]), g[..|g| - 1], g[|g| - 1]);
      assert g == g[..|g| - 1] + [g[|g| - 1]];
    }
  }

  /** What is decoded is the bit stream of the groups, and nothing else is, despite the register's garbage. */
  lemma DecodedIsBitStream(input: seq<byte>)
    ensures forall out :: IsBitStream(Groups(input), out) <==> out == Decoded(input)
  {
    hide BytesNumber, GroupsNumber, Pow2, Shifted, Groups, IsBitStream;
    DecodedIsABitStream(input);
    forall out | IsBitStream(Groups(input), out)
      ensures out == Decoded(input)
    {
      BitStreamUnique(Groups(input), out, Decoded(input));
    }
  }

  lemma DecodedIsABitStream(input: seq<byte>)
    ensures IsBitStream(Groups(input), Decoded(input))
  {
    hide BytesNumber, GroupsNumber, Pow2, Shifted, Groups;
    ShiftedHolds(Groups(input));
  }

  lemma NothingShifted()
    ensures Groups([]) == [] && Shifted([]) == StartRegister()
  {
  }

  lemma ShiftedSnoc(g: seq<sextet>, v: sextet)
    ensures Shifted(g + [v]) == Shift(Shifted(g), v)
  {
    hide Shift;
    assert (g + [v])[..|g|] == g;
  }

  /** `decode_base64`: appends the decoded bytes to `out`. */
  method Decode(input: seq<byte>, out: seq<byte>) returns (out': seq<byte>)
    ensures out' == out + Decoded(input)
  {
    hide Value, Pow2, Groups, Shifted;
    ghost var g: seq<sextet> := [];
    NothingShifted();
    out' := out;
    var acc: u32, bits: nat := 0, 0;
    var i := 0;
    while i < |input|
      invariant 0 <= i <= |input|
      invariant out <= out'
      invariant g == Groups(input[..i])
      invariant Register(acc, bits, out'[|out|..]) == Shifted(g)
    {
      var c := input[i];
      assert input[..i + 1] == input[..i] + [c];
      GroupsConcat(input[..i], [c]);
      SkippedHaveNoValue(c);
      i := i + 1;
      if IsSkipped(c) || Value(c).None? {
        continue;
      }
      var v := Value(c).value;
      ghost var r := Register(acc, bits, out'[|out|..]);
      ShiftedSnoc(g, v);
      g := g + [v];
      acc := acc * 64 % 0x1_0000_0000 + v;
      bits := bits + 6;
      if bits >= 8 {
        bits := bits - 8;
        out' := out' + [acc / Pow2(bits) % 256];
      }
      assert Register(acc, bits, out'[|out|..]) == Shift(r, v);
    }
    assert input[..|input|] == input;
  }

  lemma HoldsAtStart()
    ensures Holds(StartRegister(), [])
  {
  }

  lemma SkippedHaveNoValue(c: byte)
    ensures IsSkipped(c) ==> Value(c).None?
    ensures Groups([c]) == if Value(c).Some? then [Value(c).value] else []
  {
  }

  // ---------- RFC 4648 section 4 ----------

  function Symbol(v: sextet): (c: byte)
    ensures Value(c) == Some(v)
  {
    if v < 26 then 65 + v
    else if v < 52 then 97 + v - 26
    else if v < 62 then 48 + v - 52
    else if v == 62 then 43 else 47
  }

  /** Nothing but the 64 symbols carries a group. */
  lemma OnlySymbolsCarry(c: byte)
    requires Value(c).Some?
    ensures Symbol(Value(c).value) == c
  {
  }

  const PAD: byte := 61

  /** Three bytes as four 6-bit groups. */
  function Block(x: byte, y: byte, z: byte): (g: seq<sextet>)
    ensures |g| == 4
  {
    [x / 4, x % 4 * 16 + y / 16, y % 16 * 4 + z / 64, z % 64]
  }

  /** The groups of an encoding: 24 bits at a time, a short end filled up with zero bits. */
  function EncodedGroups(b: seq<byte>): seq<sextet> {
    if b == [] then []
    else if |b| == 1 then [b[0] / 4, b[0] % 4 * 16]
    else if |b| == 2 then [b[0] / 4, b[0] % 4 * 16 + b[1] / 16, b[1] % 16 * 4]
    else Block(b[0], b[1], b[2]) + EncodedGroups(b[3..])
  }

  function Symbols(g: seq<sextet>): seq<byte> {
    if g == [] then [] else [Symbol(g[0])] + Symbols(g[1..])
  }

  /** The encoding: the symbols of the groups, padded to a multiple of four. */
  function Encode(b: seq<byte>): seq<byte> {
    Symbols(EncodedGroups(b)) +
    (if |b| % 3 == 1 then [PAD, PAD] else if |b| % 3 == 2 then [PAD] else [])
  }

  lemma {:induction false} GroupsOfSymbols(g: seq<sextet>)
    ensures Groups(Symbols(g)) == g
  {
    hide Symbol, Value;
    if g != [] {
      GroupsOfSymbols(g[1..]);
      assert Symbols(g)[1..] == Symbols(g[1..]);
    }
  }

  lemma GroupsOfEncoding(b: seq<byte>)
    ensures Groups(Encode(b)) == EncodedGroups(b)
  {
    hide EncodedGroups, Symbols;
    GroupsOfSymbols(EncodedGroups(b));
    assert Value(PAD).None?;
    assert Groups([PAD]) == [] && [PAD, PAD][1..] == [PAD];
    var pads := if |b| % 3 == 1 then [PAD, PAD] else if |b| % 3 == 2 then [PAD] else [];
    GroupsConcat(Symbols(EncodedGroups(b)), pads);
  }

  lemma {:induction false} BytesNumberConcat(a: seq<byte>, b: seq<byte>)
    ensures BytesNumber(a + b) == BytesNumber(a) * Pow2(8 * |b|) + BytesNumber(b)
  {
    if b == [] {
      assert a + b == a;
    } else {
      hide Pow2, BytesNumber;
      var n := |b| - 1;
      BytesNumberConcat(a, b[..n]);
      assert b == b[..n] + [b[n]] && a + b == (a + b[..n]) + [b[n]];
      BytesNumberSnoc(b[..n], b[n]);
      BytesNumberSnoc(a + b[..n], b[n]);
      Pow2Add(8 * n, 8);
      Pow2Small();
      ScaleOut(BytesNumber(a), Pow2(8 * n), 256);
    }
  }

  lemma {:induction false} GroupsNumberConcat(a: seq<sextet>, b: seq<sextet>)
    ensures GroupsNumber(a + b) == GroupsNumber(a) * Pow2(6 * |b|) + GroupsNumber(b)
  {
    if b == [] {
      assert a + b == a;
    } else {
      hide Pow2, GroupsNumber;
      var n := |b| - 1;
      GroupsNumberConcat(a, b[..n]);
      assert b == b[..n] + [b[n]] && a + b == (a + b[..n]) + [b[n]];
      GroupsNumberSnoc(b[..n], b[n]);
      GroupsNumberSnoc(a + b[..n], b[n]);
      Pow2Add(6 * n, 6);
      Pow2Small();
      ScaleOut(GroupsNumber(a), Pow2(6 * n), 64);
    }
  }

  lemma ScaleOut(x: nat, p: nat, c: nat)
    ensures x * (p * c) == c * (x * p)
  {
  }

  lemma Pow2Small()
    ensures Pow2(6) == 64 && Pow2(8) == 256
  {
    Pow2Values();
    assert Pow2(7) == 128;
  }

  lemma Pow2Next(n: nat)
    ensures Pow2(n + 1) == 2 * Pow2(n)
  {
  }

  lemma Doubled(p: nat, q: nat)
    ensures p * (2 * q) == 2 * (p * q)
  {
  }

  lemma {:induction false} Pow2Add(m: nat, n: nat)
    ensures Pow2(m + n) == Pow2(m) * Pow2(n)
  {
    if n > 0 {
      hide Pow2;
      Pow2Add(m, n - 1);
      Pow2Next(n - 1);
      Pow2Next(m + n - 1);
      Doubled(Pow2(m), Pow2(n - 1));
    }
  }

  /** How many zero bits the last group of an encoding was filled with. */
  function Fill(n: nat): nat {
    if n % 3 == 1 then 4 else if n % 3 == 2 then 2 else 0
  }

  /** The groups of an encoding spell the bytes, followed by the fill bits. */
  lemma {:induction false} EncodedNumber(b: seq<byte>)
    ensures 6 * |EncodedGroups(b)| == 8 * |b| + Fill(|b|)
    ensures GroupsNumber(EncodedGroups(b)) == BytesNumber(b) * Pow2(Fill(|b|))
  {
    hide GroupsNumber, BytesNumber, Pow2, Block, Fill;
    if |b| <= 2 {
      ShortNumber(b);
    } else {
      EncodedNumber(b[3..]);
      FillPeriod(|b|);
      var head, tail := Block(b[0], b[1], b[2]), EncodedGroups(b[3..]);
      GroupsNumberConcat(head, tail);
      assert b == b[..3] + b[3..];
      BytesNumberConcat(b[..3], b[3..]);
      BlockNumber(b[0], b[1], b[2]);
      assert b[..3] == [b[0], b[1], b[2]];
      Pow2Add(8 * |b[3..]|, Fill(|b|));
      Distribute(BytesNumber(b[..3]), Pow2(8 * |b[3..]|), BytesNumber(b[3..]), Pow2(Fill(|b|)));
    }
  }

  lemma FillPeriod(n: nat)
    requires n >= 3
    ensures Fill(n) == Fill(n - 3)
  {
  }

  lemma Distribute(x: nat, p: nat, y: nat, f: nat)
    ensures (x * p + y) * f == x * (p * f) + y * f
  {
  }

  lemma GroupsNumberFour(p: sextet, q: sextet, r: sextet, t: sextet)
    ensures GroupsNumber([p, q]) == 64 * p + q
    ensures GroupsNumber([p, q, r]) == 64 * (64 * p + q) + r
    ensures GroupsNumber([p, q, r, t]) == 64 * (64 * (64 * p + q) + r) + t
  {
    GroupsNumberSnoc([], p);
    GroupsNumberSnoc([p], q);
    GroupsNumberSnoc([p, q], r);
    GroupsNumberSnoc([p, q, r], t);
    assert [] + [p] == [p] && [p] + [q] == [p, q] && [p, q] + [r] == [p, q, r] && [p, q, r] + [t] == [p, q, r, t];
  }

  lemma BytesNumberThree(x: byte, y: byte, z: byte)
    ensures BytesNumber([x]) == x
    ensures BytesNumber([x, y]) == 256 * x + y
    ensures BytesNumber([x, y, z]) == 256 * (256 * x + y) + z
  {
    BytesNumberSnoc([], x);
    BytesNumberSnoc([x], y);
    BytesNumberSnoc([x, y], z);
    assert [] + [x] == [x] && [x] + [y] == [x, y] && [x, y] + [z] == [x, y, z];
  }

  lemma BlockNumber(x: byte, y: byte, z: byte)
    ensures GroupsNumber(Block(x, y, z)) == BytesNumber([x, y, z])
  {
    hide GroupsNumber, BytesNumber;
    GroupsNumberFour(x / 4, x % 4 * 16 + y / 16, y % 16 * 4 + z / 64, z % 64);
    BytesNumberThree(x, y, z);
  }

  lemma ShortNumber(b: seq<byte>)
    requires |b| <= 2
    ensures 6 * |EncodedGroups(b)| == 8 * |b| + Fill(|b|)
    ensures GroupsNumber(EncodedGroups(b)) == BytesNumber(b) * Pow2(Fill(|b|))
  {
    hide GroupsNumber, BytesNumber, Pow2;
    Pow2Values();
    if b == [] {
      EmptyNumbers();
    } else if |b| == 1 {
      GroupsNumberFour(b[0] / 4, b[0] % 4 * 16, 0, 0);
      BytesNumberThree(b[0], 0, 0);
      assert b == [b[0]];
    } else {
      GroupsNumberFour(b[0] / 4, b[0] % 4 * 16 + b[1] / 16, b[1] % 16 * 4, 0);
      BytesNumberThree(b[0], b[1], 0);
      assert b == [b[0], b[1]];
    }
  }

  lemma EmptyNumbers()
    ensures GroupsNumber([]) == 0 && BytesNumber([]) == 0
  {
  }

  /**
   * Round trip. Take the encoding of any bytes and scatter any bytes outside the alphabet through
   * it, padding included or not: what the decoder appends is exactly those bytes.
   */
  lemma DecodesEveryEncoding(b: seq<byte>, input: seq<byte>)
    requires Groups(input) == Groups(Encode(b))
    ensures Decoded(input) == b
  {
    hide GroupsNumber, BytesNumber, Pow2, EncodedGroups, Fill, Encode, Groups, Decoded;
    GroupsOfEncoding(b);
    EncodedNumber(b);
    FillBits(|b|, |EncodedGroups(b)|);
    UnderFill(BytesNumber(b), |b|);
    assert IsBitStream(Groups(input), b);
    DecodedIsBitStream(input);
  }

  lemma UnderFill(x: nat, n: nat)
    ensures x * Pow2(Fill(n)) / Pow2(Fill(n)) == x
  {
    hide Pow2;
    Pow2Values();
    By4(x * 4, x, 0);
    By16(x * 16, x, 0);
  }

  lemma FillBits(n: nat, k: nat)
    requires 6 * k == 8 * n + Fill(n)
    ensures 6 * k % 8 == Fill(n) && 6 * k / 8 == n
  {
  }
}
