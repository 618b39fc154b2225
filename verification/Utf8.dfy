/**
 * UTF-8 as the Rust standard library reads and writes it, and the lossy append of
 * src/voice_client.rs on top of it. A `char` is a Unicode scalar value, a `string` a Rust String.
 */
module Utf8 {
  import opened Arithmetic
  import opened Bytes
  import opened Options

  function EncodeChar(c: char): (b: seq<byte>)
    ensures 1 <= |b| <= 4
  {
    var n := c as int;
    if n < 0x80 then [n]
    else if n < 0x800 then [0xC0 + n / 0x40, 0x80 + n % 0x40]
    else if n < 0x1_0000 then [0xE0 + n / 0x1000, 0x80 + n / 0x40 % 0x40, 0x80 + n % 0x40]
    else [0xF0 + n / 0x4_0000, 0x80 + n / 0x1000 % 0x40, 0x80 + n / 0x40 % 0x40, 0x80 + n % 0x40]
  }

  /** Only an ASCII character has a byte below 0x80 in its encoding, and then that is all of it. */
  lemma EncodeCharBytes(c: char)
    ensures c as int < 0x80 ==> EncodeChar(c) == [c as int]
    ensures c as int >= 0x80 ==> forall i :: 0 <= i < |EncodeChar(c)| ==> EncodeChar(c)[i] >= 0x80
  {
  }

  function Encode(s: string): (b: seq<byte>) {
    if s == "" then [] else EncodeChar(s[0]) + Encode(s[1..])
  }

  lemma EncodeUnfolds(s: string)
    requires s != ""
    ensures Encode(s) == EncodeChar(s[0]) + Encode(s[1..])
  {
    hide EncodeChar;
  }

  lemma {:induction false} EncodeConcat(s: string, t: string)
    ensures Encode(s + t) == Encode(s) + Encode(t)
  {
    if s == "" {
      assert s + t == t;
    } else {
      hide EncodeChar, Encode;
      EncodeConcat(s[1..], t);
      DropOfConcat(s, t, 1);
      EncodeUnfolds(s);
      EncodeUnfolds(s + t);
      Assoc(EncodeChar(s[0]), Encode(s[1..]), Encode(t));
    }
  }

  // ---------- decoding ----------

  /** One step of validation: a character and its length, a bad run to skip, or a cut-off end. */
  datatype Decoded = Char(c: char, len: nat) | Bad(skip: nat) | Cut

  predicate IsContinuation(b: byte) {
    0x80 <= b < 0xC0
  }

  /** How many bytes a sequence starting with `b` should have; 0 for a byte that starts none. */
  function Width(b: byte): nat {
    if b < 0x80 then 1
    else if 0xC2 <= b <= 0xDF then 2
    else if 0xE0 <= b <= 0xEF then 3
    else if 0xF0 <= b <= 0xF4 then 4
    else 0
  }

  /** Second bytes that give neither an overlong form, a surrogate, nor a value past U+10FFFF. */
  predicate SecondOk(first: byte, second: byte) {
    if first == 0xE0 then 0xA0 <= second <= 0xBF
    else if first == 0xED then 0x80 <= second <= 0x9F
    else if first == 0xF0 then 0x90 <= second <= 0xBF
    else if first == 0xF4 then 0x80 <= second <= 0x8F
    else IsContinuation(second)
  }

  function Two(a: byte, b: byte): (c: char)
    requires Width(a) == 2 && IsContinuation(b)
    ensures EncodeChar(c) == [a, b]
  {
    ((a - 0xC0) * 0x40 + (b - 0x80)) as char
  }

  function Three(a: byte, b: byte, c: byte): (r: char)
    requires Width(a) == 3 && SecondOk(a, b) && IsContinuation(c)
    ensures EncodeChar(r) == [a, b, c]
  {
    var n := (a - 0xE0) * 0x1000 + (b - 0x80) * 0x40 + (c - 0x80);
    assert n / 0x40 == (a - 0xE0) * 0x40 + (b - 0x80);
    n as char
  }

  function Four(a: byte, b: byte, c: byte, d: byte): (r: char)
    requires Width(a) == 4 && SecondOk(a, b) && IsContinuation(c) && IsContinuation(d)
    ensures EncodeChar(r) == [a, b, c, d]
  {
    var n := (a - 0xF0) * 0x4_0000 + (b - 0x80) * 0x1000 + (c - 0x80) * 0x40 + (d - 0x80);
    assert n / 0x40 == (a - 0xF0) * 0x1000 + (b - 0x80) * 0x40 + (c - 0x80);
    assert n / 0x1000 == (a - 0xF0) * 0x40 + (b - 0x80);
    n as char
  }

  function Next(s: seq<byte>): (d: Decoded)
    requires s != []
    ensures d.Char? ==> 1 <= d.len <= |s| && s[..d.len] == EncodeChar(d.c)
    ensures d.Bad? ==> 1 <= d.skip <= |s|
  {
    var w := Width(s[0]);
    if w == 1 then Char(s[0] as char, 1)
    else if w == 0 then Bad(1)
    else if |s| < 2 then Cut
    else if !SecondOk(s[0], s[1]) then Bad(1)
    else if w == 2 then Char(Two(s[0], s[1]), 2)
    else if |s| < 3 then Cut
    else if !IsContinuation(s[2]) then Bad(2)
    else if w == 3 then Char(Three(s[0], s[1], s[2]), 3)
    else if |s| < 4 then Cut
    else if !IsContinuation(s[3]) then Bad(3)
    else Char(Four(s[0], s[1], s[2], s[3]), 4)
  }

  /** The value a well-formed sequence stands for. */
  function CodeOf(b: seq<byte>): int
    requires 1 <= |b| <= 4
  {
    var a := b[0] as int;
    if |b| == 1 then a else
      var a1 := b[1] as int - 0x80;
      if |b| == 2 then (a - 0xC0) * 0x40 + a1 else
        var a2 := b[2] as int - 0x80;
        if |b| == 3 then (a - 0xE0) * 0x1000 + a1 * 0x40 + a2 else
          var a3 := b[3] as int - 0x80;
          (a - 0xF0) * 0x4_0000 + a1 * 0x1000 + a2 * 0x40 + a3
  }

  lemma CodeOfEncoding(c: char)
    ensures CodeOf(EncodeChar(c)) == c as int
  {
    var n := c as int;
    if n < 0x80 {
    } else if n < 0x800 {
      TwoCode(n);
    } else if n < 0x1_0000 {
      ThreeCode(n);
    } else {
      FourCode(n);
    }
  }

  lemma TwoCode(n: nat)
    ensures n / 0x40 * 0x40 + n % 0x40 == n
  {
  }

  lemma ThreeCode(n: nat)
    ensures n / 0x1000 * 0x1000 + n / 0x40 % 0x40 * 0x40 + n % 0x40 == n
  {
    TwoCode(n);
    var q := n / 0x40;
    TwoCode(q);
    assert q / 0x40 == n / 0x1000;
  }

  lemma FourCode(n: nat)
    ensures n / 0x4_0000 * 0x4_0000 + n / 0x1000 % 0x40 * 0x1000 + n / 0x40 % 0x40 * 0x40 + n % 0x40 == n
  {
    ThreeCode(n);
    var q := n / 0x1000;
    TwoCode(q);
    assert q / 0x40 == n / 0x4_0000;
  }

  lemma EncodingShape(c: char)
    ensures var e := EncodeChar(c);
            && Width(e[0]) == |e|
            && (|e| >= 2 ==> SecondOk(e[0], e[1]))
            && (|e| >= 3 ==> IsContinuation(e[2]))
            && (|e| >= 4 ==> IsContinuation(e[3]))
  {
    var n := c as int;
    if n < 0x800 {
    } else if n < 0x1_0000 {
      ThreeShape(c);
    } else {
      FourShape(c);
    }
  }

  lemma ThreeShape(c: char)
    requires 0x800 <= c as int < 0x1_0000
    ensures var e := EncodeChar(c);
            |e| == 3 && Width(e[0]) == 3 && SecondOk(e[0], e[1]) && IsContinuation(e[2])
  {
    var n := c as int;
    var q := n / 0x40;
    assert q == q % 0x40 + 0x40 * (n / 0x1000);
  }

  lemma FourShape(c: char)
    requires c as int >= 0x1_0000
    ensures var e := EncodeChar(c);
            |e| == 4 && Width(e[0]) == 4 && SecondOk(e[0], e[1]) && IsContinuation(e[2]) && IsContinuation(e[3])
  {
    var n := c as int;
    var q := n / 0x1000;
    assert q == q % 0x40 + 0x40 * (n / 0x4_0000);
  }

  /** Decoding after encoding one character, whatever follows. */
  lemma NextOfEncoding(c: char, rest: seq<byte>)
    ensures Next(EncodeChar(c) + rest) == Char(c, |EncodeChar(c)|)
  {
    hide EncodeChar, Two, Three, Four;
    EncodingShape(c);
    var e := EncodeChar(c);
    var d := Next(e + rest);
    assert d.Char? && d.len == |e| by {
      assert (e + rest)[0] == e[0];
      if |e| >= 2 { assert (e + rest)[1] == e[1]; }
      if |e| >= 3 { assert (e + rest)[2] == e[2]; }
      if |e| >= 4 { assert (e + rest)[3] == e[3]; }
    }
    assert (e + rest)[..|e|] == e;
    CodeOfEncoding(c);
    CodeOfEncoding(d.c);
  }

  /** The bytes begin as the encoding of some character does. */
  ghost predicate Begins(s: seq<byte>) {
    exists c: char :: |s| <= |EncodeChar(c)| && EncodeChar(c)[..|s|] == s
  }

  /** The same, byte by byte. */
  predicate Fits(s: seq<byte>)
    requires s != []
  {
    && |s| <= Width(s[0])
    && (|s| >= 2 ==> SecondOk(s[0], s[1]))
    && (|s| >= 3 ==> IsContinuation(s[2]))
    && (|s| >= 4 ==> IsContinuation(s[3]))
  }

  lemma FitsIfBegins(s: seq<byte>)
    requires s != [] && Begins(s)
    ensures Fits(s)
  {
    hide EncodeChar;
    var c: char :| |s| <= |EncodeChar(c)| && EncodeChar(c)[..|s|] == s;
    EncodingShape(c);
    var e := EncodeChar(c);
    assert forall i :: 0 <= i < |s| ==> e[i] == e[..|s|][i];
  }

  /** A character that begins with them: the lowest continuation goes on. */
  lemma BeginsIfFits(s: seq<byte>)
    requires s != [] && Fits(s)
    ensures Begins(s)
  {
    hide EncodeChar, Two, Three, Four;
    var w := Width(s[0]);
    var second := if |s| >= 2 then s[1] else if s[0] == 0xE0 then 0xA0 else if s[0] == 0xF0 then 0x90 else 0x80;
    var third := if |s| >= 3 then s[2] else 0x80;
    var fourth := if |s| >= 4 then s[3] else 0x80;
    if w == 1 {
      EncodeCharBytes(s[0] as char);
      assert EncodeChar(s[0] as char)[..|s|] == s;
    } else if w == 2 {
      assert EncodeChar(Two(s[0], second))[..|s|] == s;
    } else if w == 3 {
      assert EncodeChar(Three(s[0], second, third))[..|s|] == s;
    } else {
      assert EncodeChar(Four(s[0], second, third, fourth))[..|s|] == s;
    }
  }

  /**
   * Where reading stops short, it skips as the Unicode standard advises (chapter 3.9): the bytes
   * that begin some character, as many as there are, and at least one; and the end is cut off
   * exactly if all that is left begins a character and is none.
   */
  lemma SkipsMaximalPart(s: seq<byte>)
    requires s != []
    ensures Next(s).Cut? <==> Begins(s) && !Next(s).Char?
    ensures Next(s).Bad? ==>
      var k := Next(s).skip;
      (k == 1 || Begins(s[..k])) && forall m :: k < m <= |s| ==> !Begins(s[..m])
  {
    hide EncodeChar, Two, Three, Four, Begins;
    forall m | 1 <= m <= |s|
      ensures Begins(s[..m]) <==> Fits(s[..m])
    {
      if Begins(s[..m]) {
        FitsIfBegins(s[..m]);
      }
      if Fits(s[..m]) {
        BeginsIfFits(s[..m]);
      }
    }
    assert s[..|s|] == s;
  }

  /** What survives a lossy read: bad runs are dropped, a cut-off end is dropped. */
  function Lossy(s: seq<byte>): (t: string)
    decreases |s|
  {
    if s == [] then "" else
      match Next(s)
      case Char(c, len) => [c] + Lossy(s[len..])
      case Bad(k) => Lossy(s[k..])
      case Cut => ""
  }

  /** Text comes back unchanged, and does not disturb what follows it. */
  lemma {:induction false} LossyOfText(t: string, rest: seq<byte>)
    ensures Lossy(Encode(t) + rest) == t + Lossy(rest)
  {
    hide EncodeChar, Next, Lossy;
    if t == "" {
      assert Encode(t) + rest == rest;
    } else {
      hide Encode;
      EncodeUnfolds(t);
      Assoc(EncodeChar(t[0]), Encode(t[1..]), rest);
      LossyOfOne(t[0], Encode(t[1..]) + rest);
      LossyOfText(t[1..], rest);
      Assoc([t[0]], t[1..], Lossy(rest));
      assert [t[0]] + t[1..] == t;
    }
  }

  lemma LossyOfOne(c: char, rest: seq<byte>)
    ensures Lossy(EncodeChar(c) + rest) == [c] + Lossy(rest)
  {
    hide EncodeChar, Next;
    NextOfEncoding(c, rest);
    assert (EncodeChar(c) + rest)[|EncodeChar(c)|..] == rest;
  }

  /** The lossy read never makes bytes up: re-encoding it is shorter unless nothing was lost. */
  lemma {:induction false} LossyKeepsExactlyText(s: seq<byte>)
    ensures |Encode(Lossy(s))| <= |s|
    ensures |Encode(Lossy(s))| == |s| <==> Encode(Lossy(s)) == s
    decreases |s|
  {
    hide EncodeChar;
    if s != [] {
      match Next(s) {
        case Char(c, len) =>
          LossyKeepsExactlyText(s[len..]);
          assert s == s[..len] + s[len..];
          assert ([c] + Lossy(s[len..]))[1..] == Lossy(s[len..]);
        case Bad(k) =>
          LossyKeepsExactlyText(s[k..]);
        case Cut =>
      }
    }
  }

  /** Bytes are the encoding of some text exactly when the lossy read loses nothing. */
  lemma ValidExactlyWhenKept(s: seq<byte>)
    ensures (exists t :: Encode(t) == s) <==> Encode(Lossy(s)) == s
  {
    if t :| Encode(t) == s {
      LossyOfText(t, []);
      assert s + [] == s;
      assert t + "" == t;
    }
  }

  // ---------- the append ----------

  /** `core::str::from_utf8`: the text, or how far it was valid and how long the error is. */
  datatype Validated = Ok(text: string) | Err(good: string, validUpTo: nat, errorLen: Option<nat>)

  function FromUtf8(s: seq<byte>): (v: Validated)
    ensures v.Err? ==> v.validUpTo < |s|
    ensures v.Err? && v.errorLen.Some? ==> 1 <= v.errorLen.value && v.validUpTo + v.errorLen.value <= |s|
    decreases |s|
  {
    if s == [] then Ok("") else
      match Next(s)
      case Bad(k) => Err("", 0, Some(k))
      case Cut => Err("", 0, None)
      case Char(c, len) =>
        After(c, len, FromUtf8(s[len..]))
  }

  function After(c: char, len: nat, v: Validated): Validated {
    match v
    case Ok(t) => Ok([c] + t)
    case Err(t, n, e) => Err([c] + t, len + n, e)
  }

  /** What `v` says the lossy read of `s` is. */
  ghost predicate Agrees(v: Validated, s: seq<byte>) {
    match v
    case Ok(t) => Lossy(s) == t
    case Err(t, n, Some(k)) => n + k <= |s| && Lossy(s) == t + Lossy(s[n + k..])
    case Err(t, n, None) => Lossy(s) == t
  }

  lemma {:induction false} FromUtf8Lossy(s: seq<byte>)
    ensures Agrees(FromUtf8(s), s)
    decreases |s|
  {
    hide EncodeChar, Encode, Next;
    if s != [] && Next(s).Char? {
      var c, len := Next(s).c, Next(s).len;
      FromUtf8Lossy(s[len..]);
      AgreesAfter(FromUtf8(s[len..]), s, c, len);
    }
  }

  lemma AgreesAfter(v: Validated, s: seq<byte>, c: char, len: nat)
    requires len <= |s| && Agrees(v, s[len..]) && Lossy(s) == [c] + Lossy(s[len..])
    ensures Agrees(After(c, len, v), s)
  {
    hide Lossy;
    match v
    case Err(t, n, Some(k)) =>
      assert s[len..][n + k..] == s[len + n + k..];
      assert [c] + (t + Lossy(s[len + n + k..])) == ([c] + t) + Lossy(s[len + n + k..]);
    case _ =>
  }

  /** `append_utf8_lossy`. */
  method AppendLossy(out: string, bytes: seq<byte>) returns (out': string)
    ensures out' == out + Lossy(bytes)
  {
    hide Next, FromUtf8, EncodeChar;
    out' := out;
    var rest := bytes;
    while rest != []
      invariant out' + Lossy(rest) == out + Lossy(bytes)
      decreases |rest|
    {
      FromUtf8Lossy(rest);
      match FromUtf8(rest)
      case Ok(t) =>
        return out' + t;
      case Err(t, good, errorLen) =>
        var skip := if errorLen.Some? then errorLen.value else |rest| - good;
        if errorLen.None? {
          assert rest[good + skip..] == [];
        }
        out' := out' + t;
        rest := rest[good + skip..];
    }
  }
}
