/**
 * Escaping and unescaping of JSON strings in src/voice_client.rs: when the unescaping loop ends,
 * why it always ends on what the scanner gives it, and that it undoes the escaping.
 */
module JsonText {
  import opened Bytes
  import opened JsonScan
  import opened Options
  import Utf8
  import JsonTree

  // ---------- unescaping, one loop iteration at a time ----------

  function HexDigit(b: byte): (d: Option<nat>)
    ensures d.Some? ==> d.value < 16 && b != BACKSLASH && b != QUOTE
  {
    if 48 <= b <= 57 then Some(b - 48)
    else if 97 <= b <= 102 then Some(b - 97 + 10)
    else if 65 <= b <= 70 then Some(b - 65 + 10)
    else None
  }

  function Pow16(n: nat): nat {
    if n == 0 then 1 else 16 * Pow16(n - 1)
  }

  /** The value of the first n bytes as hex digits. */
  function HexPrefix(s: seq<byte>, n: nat): (v: Option<nat>)
    requires n <= |s|
    ensures v.Some? ==> v.value < Pow16(n)
    ensures v.Some? ==> forall k :: 0 <= k < n ==> s[k] != BACKSLASH && s[k] != QUOTE
  {
    if n == 0 then Some(0) else
      match HexPrefix(s, n - 1)
      case None => None
      case Some(v) =>
        match HexDigit(s[n - 1])
        case None => None
        case Some(d) => Some(v * 16 + d)
  }

  /** Four hex digits at the front. */
  function Hex4(s: seq<byte>): (v: Option<nat>)
    ensures v.Some? ==> |s| >= 4 && v.value < 0x1_0000
    ensures v.Some? ==> forall n :: 0 <= n < 4 ==> s[n] != BACKSLASH && s[n] != QUOTE
  {
    assert Pow16(1) == 16 && Pow16(2) == 0x100 && Pow16(3) == 0x1000 && Pow16(4) == 0x1_0000;
    if |s| < 4 then None else HexPrefix(s, 4)
  }

  /** `parse_u16_hex`: the value and the position after it, which moves only on success. */
  method ParseU16Hex(s: seq<byte>, i: nat) returns (r: Option<nat>, i': nat)
    requires i <= |s|
    ensures r == Hex4(s[i..])
    ensures i' == if r.Some? then i + 4 else i
  {
    if i + 4 > |s| {
      return None, i;
    }
    var v, n := 0, 0;
    while n < 4
      invariant 0 <= n <= 4 && HexPrefix(s[i..], n) == Some(v)
    {
      var d := HexDigit(s[i + n]);
      assert s[i..][n] == s[i + n];
      if d.None? {
        HexPrefixFails(s[i..], n + 1, 4);
        return None, i;
      }
      v := v * 16 + d.value;
      n := n + 1;
    }
    return Some(v), i + 4;
  }

  lemma {:induction false} HexPrefixFails(s: seq<byte>, n: nat, m: nat)
    requires n <= m <= |s| && HexPrefix(s, n).None?
    ensures HexPrefix(s, m).None?
  {
    if n < m {
      HexPrefixFails(s, n, m - 1);
    }
  }

  predicate IsEscape(s: seq<byte>) {
    |s| >= 2 && s[0] == BACKSLASH
  }

  /** How many bytes an escape at the front takes; a bad \u takes only its two. */
  function EscapeLen(s: seq<byte>): (n: nat)
    requires IsEscape(s)
    ensures 2 <= n <= |s|
  {
    if s[1] == 117 && Hex4(s[2..]).Some? then 6 else 2
  }

  /** The text an escape stands for; an unknown escape stands for nothing. */
  function EscapeText(s: seq<byte>): string
    requires IsEscape(s)
  {
    var c := s[1];
    if c == 34 then "\""
    else if c == 92 then "\\"
    else if c == 47 then "/"
    else if c == 98 then [8 as char]
    else if c == 102 then [12 as char]
    else if c == 110 then "\n"
    else if c == 114 then "\r"
    else if c == 116 then "\t"
    else if c == 117 then
      match Hex4(s[2..])
      case None => ""
      case Some(cp) => if 0xD800 <= cp < 0xE000 then [0xFFFD as char] else [cp as char]
    else ""
  }

  /** The run of plain bytes at the front. */
  function Run(s: seq<byte>): (n: nat)
    ensures n <= |s|
    ensures n < |s| ==> s[n] == BACKSLASH
    ensures forall k :: 0 <= k < n ==> s[k] != BACKSLASH
  {
    if s == [] || s[0] == BACKSLASH then 0 else 1 + Run(s[1..])
  }

  /** The loop variables: the bytes not read yet and the text so far. */
  datatype Loop = Loop(rest: seq<byte>, out: string)

  /** The body of `unescape`'s loop. A lone trailing backslash is taken as an empty run. */
  function Body(l: Loop): (l': Loop)
    requires l.rest != []
  {
    var s := l.rest;
    if !IsEscape(s) then
      var n := Run(s);
      Loop(s[n..], l.out + Utf8.Lossy(s[..n]))
    else
      Loop(s[EscapeLen(s)..], l.out + EscapeText(s))
  }

  /** The loop state after n iterations, stopping when the bytes are used up. */
  function Iterate(l: Loop, n: nat): Loop
    decreases n
  {
    if n == 0 || l.rest == [] then l else Iterate(Body(l), n - 1)
  }

  // ---------- termination ----------

  /** Walking runs and escapes never meets a backslash with nothing after it. */
  predicate Clean(s: seq<byte>)
    decreases |s|
  {
    if s == [] then true
    else if s[0] != BACKSLASH then Clean(s[1..])
    else |s| >= 2 && Clean(s[EscapeLen(s)..])
  }

  lemma {:induction false} CleanPastRun(s: seq<byte>)
    ensures Clean(s) <==> Clean(s[Run(s)..])
    decreases |s|
  {
    if s != [] && s[0] != BACKSLASH {
      CleanPastRun(s[1..]);
      assert s[Run(s)..] == s[1..][Run(s[1..])..];
    }
  }

  lemma BodyKeepsClean(l: Loop)
    requires l.rest != []
    ensures Clean(Body(l).rest) <==> Clean(l.rest)
    ensures Clean(l.rest) ==> |Body(l).rest| < |l.rest|
    ensures !Clean(l.rest) ==> Body(l).rest != []
  {
    if !IsEscape(l.rest) {
      CleanPastRun(l.rest);
    }
  }

  lemma {:induction false} CleanEnds(l: Loop) returns (n: nat)
    requires Clean(l.rest)
    ensures Iterate(l, n).rest == []
    decreases |l.rest|
  {
    if l.rest == [] {
      n := 0;
    } else {
      BodyKeepsClean(l);
      var m := CleanEnds(Body(l));
      n := m + 1;
    }
  }

  lemma {:induction false} UncleanNeverEnds(l: Loop, n: nat)
    requires !Clean(l.rest)
    ensures Iterate(l, n).rest != []
    decreases n
  {
    hide Body, EscapeLen;
    if n > 0 {
      BodyKeepsClean(l);
      UncleanNeverEnds(Body(l), n - 1);
    }
  }

  function TrailingBackslashes(s: seq<byte>): nat {
    if s != [] && s[|s| - 1] == BACKSLASH then 1 + TrailingBackslashes(s[..|s| - 1]) else 0
  }

  /** Backslashes at the end of a suffix count on into what stands before it only if they fill it. */
  lemma {:induction false} TrailingConcat(a: seq<byte>, r: seq<byte>)
    ensures TrailingBackslashes(r) <= |r|
    ensures TrailingBackslashes(a + r)
         == if TrailingBackslashes(r) == |r| then TrailingBackslashes(a) + |r| else TrailingBackslashes(r)
    decreases |r|
  {
    if r == [] {
      assert a + r == a;
    } else {
      TrailingConcat(a, r[..|r| - 1]);
      assert (a + r)[..|a + r| - 1] == a + r[..|r| - 1];
    }
  }

  /** The front of a non-empty input, up to its first backslash or past its first escape. */
  lemma TrailingPastFront(s: seq<byte>, n: nat)
    requires 1 <= n <= |s|
    requires if s[0] == BACKSLASH then IsEscape(s) && n == EscapeLen(s) else n == 1
    ensures TrailingBackslashes(s) % 2 == TrailingBackslashes(s[n..]) % 2
  {
    hide TrailingBackslashes, IsEscape, EscapeLen;
    var front, rest := s[..n], s[n..];
    assert s == front + rest;
    TrailingConcat(front, rest);
    FrontIsEven(s, n);
  }

  lemma FrontIsEven(s: seq<byte>, n: nat)
    requires 1 <= n <= |s|
    requires if s[0] == BACKSLASH then IsEscape(s) && n == EscapeLen(s) else n == 1
    ensures TrailingBackslashes(s[..n]) % 2 == 0
  {
    hide TrailingBackslashes;
    if n == 1 {
      LastStops(s[..1]);
    } else if n == 6 {
      HexEnds(s);
      LastStops(s[..6]);
    } else if s[1] == BACKSLASH {
      PairCounts(s[..2]);
    } else {
      LastStops(s[..2]);
    }
  }

  lemma LastStops(s: seq<byte>)
    requires s != [] && s[|s| - 1] != BACKSLASH
    ensures TrailingBackslashes(s) == 0
  {
  }

  lemma PairCounts(s: seq<byte>)
    requires |s| == 2 && s[0] == BACKSLASH && s[1] == BACKSLASH
    ensures TrailingBackslashes(s) == 2
  {
    assert s[..1] == [BACKSLASH] && s[..1][..0] == [];
    assert TrailingBackslashes(s[..1]) == 1;
  }

  lemma HexEnds(s: seq<byte>)
    requires IsEscape(s) && EscapeLen(s) == 6
    ensures |s| >= 6 && s[5] != BACKSLASH
  {
    assert s[2..][3] == s[5];
  }

  /** The walk ends cleanly exactly if the backslashes at the very end pair up. */
  lemma {:induction false} CleanMeansPaired(s: seq<byte>)
    ensures Clean(s) <==> TrailingBackslashes(s) % 2 == 0
    decreases |s|
  {
    if s == [] {
    } else if s[0] == BACKSLASH && |s| == 1 {
      assert s[..0] == [];
    } else {
      var n := if s[0] == BACKSLASH then EscapeLen(s) else 1;
      TrailingPastFront(s, n);
      CleanMeansPaired(s[n..]);
    }
  }

  /** The unescaping loop ends if and only if the input ends in an even number of backslashes. */
  lemma EndsExactlyWhenPaired(s: seq<byte>)
    ensures (exists n :: Iterate(Loop(s, ""), n).rest == []) <==> TrailingBackslashes(s) % 2 == 0
  {
    CleanMeansPaired(s);
    if Clean(s) {
      var n := CleanEnds(Loop(s, ""));
    } else {
      forall n: nat ensures Iterate(Loop(s, ""), n).rest != [] {
        UncleanNeverEnds(Loop(s, ""), n);
      }
    }
  }

  /** On a single backslash the loop makes no progress at all. */
  lemma LoneBackslashSpins()
    ensures !Clean([BACKSLASH])
    ensures Body(Loop([BACKSLASH], "")) == Loop([BACKSLASH], "")
  {
    assert [BACKSLASH][..0] == [];
    assert "" + "" == "";
  }

  // ---------- the scanner's slices are clean ----------

  lemma {:induction false} ScannedIsRaw(p: seq<byte>, j: nat)
    requires StringEnd(p, j).Some?
    ensures JsonTree.RawString(p[j..StringEnd(p, j).value - 1])
    decreases |p| - j
  {
    var e := StringEnd(p, j).value - 1;
    if p[j] == BACKSLASH {
      ScannedIsRaw(p, j + 2);
      assert p[j..e][2..] == p[j + 2..e];
    } else if p[j] != QUOTE {
      ScannedIsRaw(p, j + 1);
      assert p[j..e][1..] == p[j + 1..e];
    }
  }

  lemma RawSkips(s: seq<byte>, n: nat)
    requires JsonTree.RawString(s) && n <= |s|
    requires forall k :: 0 <= k < n ==> s[k] != BACKSLASH
    ensures JsonTree.RawString(s[n..])
    decreases n
  {
    if n > 0 {
      RawSkips(s[1..], n - 1);
      assert s[1..][n - 1..] == s[n..];
    } else {
      assert s[0..] == s;
    }
  }

  /** The scanner's two-byte steps and the unescaper's longer ones stay in step. */
  lemma {:induction false} RawIsClean(s: seq<byte>)
    requires JsonTree.RawString(s)
    ensures Clean(s)
    decreases |s|
  {
    if s != [] {
      if s[0] != BACKSLASH {
        RawIsClean(s[1..]);
      } else {
        if EscapeLen(s) == 6 {
          RawSkips(s[2..], 4);
          assert s[2..][4..] == s[6..];
        }
        RawIsClean(s[EscapeLen(s)..]);
      }
    }
  }

  /** Every value the scanner reports as a string has its quotes and a clean inside. */
  predicate StringValueOk(v: seq<byte>) {
    v != [] && v[0] == QUOTE ==> |v| >= 2 && Clean(v[1..|v| - 1])
  }

  lemma QuotedValueOk(p: seq<byte>, i: nat, end: nat)
    requires ValueEnd(p, i) == Some(end)
    ensures StringValueOk(p[i..end])
  {
    hide StringEnd, NestedEnd, NumberEnd, Clean;
    if p[i] == QUOTE {
      assert StringEnd(p, i + 1) == Some(end);
      ScannedIsRaw(p, i + 1);
      assert i + 1 <= end - 1;
      var v := p[i..end];
      assert |v| == end - i;
      assert v[1..|v| - 1] == p[i + 1..end - 1];
      RawIsClean(p[i + 1..end - 1]);
    }
  }

  lemma OneEntryOk(p: seq<byte>, j: nat)
    requires OneEntry(p, j).Some?
    ensures StringValueOk(OneEntry(p, j).value.0.value)
  {
    hide StringEnd, SkipSpace, ValueEnd, StringValueOk;
    var end := StringEnd(p, j + 1).value;
    var k := SkipSpace(p, end).value;
    var v0 := SkipSpace(p, k + 1).value;
    var vend := ValueEnd(p, v0).value;
    QuotedValueOk(p, v0, vend);
  }

  lemma {:induction false} EntriesOk(p: seq<byte>, i: nat, key: seq<byte>)
    ensures Find(EntriesFrom(p, i), key).Some? ==> StringValueOk(Find(EntriesFrom(p, i), key).value)
    decreases |p| - i
  {
    hide SkipSpace, OneEntry, StringValueOk;
    if SkipSpace(p, i).Some? && OneEntry(p, SkipSpace(p, i).value).Some? {
      var j := SkipSpace(p, i).value;
      OneEntryOk(p, j);
      FindUnfolds(p, i, key);
      var k := SkipSpace(p, OneEntry(p, j).value.1);
      if k.Some? && p[k.value] == COMMA {
        EntriesOk(p, k.value + 1, key);
      }
    }
  }

  lemma FoundStringIsClean(p: seq<byte>, key: seq<byte>)
    ensures Find(Entries(p), key).Some? ==> StringValueOk(Find(Entries(p), key).value)
  {
    var i := SkipSpace(p, 0);
    if i.Some? {
      EntriesOk(p, i.value + 1, key);
    }
  }

  // ---------- the whole unescaping ----------

  function Unescape(s: seq<byte>): string
    requires Clean(s)
    decreases |s|
  {
    if s == [] then ""
    else if s[0] != BACKSLASH then
      CleanPastRun(s);
      Utf8.Lossy(s[..Run(s)]) + Unescape(s[Run(s)..])
    else
      EscapeText(s) + Unescape(s[EscapeLen(s)..])
  }

  /** `unescape`, on the slices it is given. */
  method UnescapeBytes(s: seq<byte>) returns (out: string)
    requires Clean(s)
    ensures out == Unescape(s)
  {
    hide Run, EscapeText, EscapeLen, Hex4, Utf8.Lossy, Unescape, Clean, IsEscape;
    out := "";
    var i := 0;
    assert s[0..] == s;
    while i < |s|
      invariant 0 <= i <= |s| && Clean(s[i..])
      invariant Unescape(s) == out + Unescape(s[i..])
    {
      ghost var rest, before := s[i..], out;
      UnescapeUnfolds(rest, before);
      if s[i] != BACKSLASH || i + 1 >= |s| {
        var start := i;
        CleanPastRun(rest);
        RunAtLeast(rest, 0);
        while i < |s| && s[i] != BACKSLASH
          invariant start <= i <= |s| && i - start <= Run(rest)
          invariant i > start || s[i] != BACKSLASH
        {
          RunAtLeast(rest, i - start);
          i := i + 1;
        }
        RunAtLeast(rest, i - start);
        assert i - start == Run(rest);
        assert s[start..i] == rest[..i - start] && s[i..] == rest[i - start..];
        out := Utf8.AppendLossy(out, s[start..i]);
      } else {
        var text, next := UnescapeOne(s, i);
        assert s[next..] == rest[next - i..];
        out, i := out + text, next;
      }
    }
    UnescapeNothing();
    assert s[i..] == [] && out + "" == out;
  }

  lemma UnescapeNothing()
    ensures Clean([]) && Unescape([]) == ""
  {
  }

  /** One escape at i: its text and the position after it. */
  method UnescapeOne(s: seq<byte>, i: nat) returns (text: string, i': nat)
    requires i <= |s| && IsEscape(s[i..])
    ensures text == EscapeText(s[i..]) && i' == i + EscapeLen(s[i..])
  {
    hide Hex4;
    var c := s[i + 1];
    assert s[i..][1] == c && s[i..][2..] == s[i + 2..];
    i' := i + 2;
    if c == 34 {
      text := "\"";
    } else if c == 92 {
      text := "\\";
    } else if c == 47 {
      text := "/";
    } else if c == 98 {
      text := [8 as char];
    } else if c == 102 {
      text := [12 as char];
    } else if c == 110 {
      text := "\n";
    } else if c == 114 {
      text := "\r";
    } else if c == 116 {
      text := "\t";
    } else if c == 117 {
      var cp, after := ParseU16Hex(s, i');
      i' := after;
      if cp.None? {
        text := "";
      } else if 0xD800 <= cp.value < 0xE000 {
        text := [0xFFFD as char];
      } else {
        text := [cp.value as char];
      }
    } else {
      text := "";
    }
  }

  lemma RunAtLeast(s: seq<byte>, n: nat)
    requires n <= Run(s)
    ensures n < |s| && s[n] != BACKSLASH ==> n < Run(s)
    ensures n == |s| || s[n] == BACKSLASH ==> n == Run(s)
  {
  }

  lemma UnescapeUnfolds(s: seq<byte>, out: string)
    requires Clean(s) && s != []
    ensures s[0] != BACKSLASH ==>
      Clean(s[Run(s)..]) && Run(s) > 0
      && out + Unescape(s) == out + Utf8.Lossy(s[..Run(s)]) + Unescape(s[Run(s)..])
    ensures s[0] == BACKSLASH ==>
      IsEscape(s) && Clean(s[EscapeLen(s)..])
      && out + Unescape(s) == out + EscapeText(s) + Unescape(s[EscapeLen(s)..])
  {
    hide EscapeText, Utf8.Lossy;
    CleanPastRun(s);
  }

  /** The loop computes what the description says, iteration by iteration. */
  lemma {:induction false} LoopIsUnescape(l: Loop, n: nat)
    requires Clean(l.rest) && Iterate(l, n).rest == []
    ensures Iterate(l, n).out == l.out + Unescape(l.rest)
    decreases n
  {
    if l.rest != [] {
      BodyKeepsClean(l);
      LoopIsUnescape(Body(l), n - 1);
      UnescapeUnfolds(l.rest, l.out);
    } else {
      assert l.out + "" == l.out;
    }
  }

  // ---------- escaping ----------

  function HexLetter(d: nat): char
    requires d < 16
  {
    if d < 10 then (48 + d) as char else (97 + d - 10) as char
  }

  /** How `append_json_string` writes one character. */
  function EscapeChar(c: char): string {
    if c == '\"' then "\\\""
    else if c == '\\' then "\\\\"
    else if c == '\n' then "\\n"
    else if c == '\r' then "\\r"
    else if c == '\t' then "\\t"
    else if c as int < 0x20 then
      ['\\', 'u', '0', '0', HexLetter(c as int / 16), HexLetter(c as int % 16)]
    else [c]
  }

  function Escape(t: string): string {
    if t == "" then "" else EscapeChar(t[0]) + Escape(t[1..])
  }

  method AppendJsonString(out: string, t: string) returns (out': string)
    ensures out' == out + "\"" + Escape(t) + "\""
  {
    out' := out + "\"";
    var i := 0;
    assert t[0..] == t;
    while i < |t|
      invariant 0 <= i <= |t|
      invariant out' + Escape(t[i..]) == out + "\"" + Escape(t)
    {
      EscapeUnfolds(out', t[i..]);
      assert t[i..][1..] == t[i + 1..];
      out' := out' + EscapeChar(t[i]);
      i := i + 1;
    }
    assert out' + "" == out';
    out' := out' + "\"";
  }

  lemma EscapeUnfolds(out: string, t: string)
    requires t != ""
    ensures out + Escape(t) == out + EscapeChar(t[0]) + Escape(t[1..])
  {
    hide EscapeChar;
  }

  // ---------- the round trip ----------

  lemma {:induction false} RunOfPlain(e: seq<byte>, r: seq<byte>)
    requires forall k :: 0 <= k < |e| ==> e[k] != BACKSLASH
    ensures Run(e + r) == |e| + Run(r)
  {
    if e == [] {
      assert e + r == r;
    } else {
      RunOfPlain(e[1..], r);
      assert (e + r)[1..] == e[1..] + r;
    }
  }

  lemma PlainBytes(c: char)
    requires c != '\\'
    ensures forall k :: 0 <= k < |Utf8.EncodeChar(c)| ==> Utf8.EncodeChar(c)[k] != BACKSLASH
  {
    hide Utf8.EncodeChar;
    Utf8.EncodeCharBytes(c);
  }

  /** A plain character in front of clean bytes comes back as itself. */
  lemma UnescapesPlain(c: char, r: seq<byte>)
    requires c != '\\' && Clean(r)
    ensures Clean(Utf8.EncodeChar(c) + r) && Unescape(Utf8.EncodeChar(c) + r) == [c] + Unescape(r)
  {
    hide Utf8.EncodeChar, Utf8.Encode, Utf8.Lossy, Clean, EscapeText, EscapeLen, Run;
    var e := Utf8.EncodeChar(c);
    var s, n := e + r, Run(r);
    PlainBytes(c);
    RunOfPlain(e, r);
    assert s[|e| + n..] == r[n..] && s[..|e| + n] == e + r[..n];
    CleanPastRun(s);
    CleanPastRun(r);
    Utf8.LossyOfText([c], r[..n]);
    EncodeOne(c);
    UnescapeSplitsRun(r);
    assert [c] + Utf8.Lossy(r[..n]) + Unescape(r[n..]) == [c] + (Utf8.Lossy(r[..n]) + Unescape(r[n..]));
  }

  lemma LossyOfNothing()
    ensures Utf8.Lossy([]) == ""
  {
  }

  lemma UnescapeSplitsRun(r: seq<byte>)
    requires Clean(r)
    ensures Clean(r[Run(r)..]) && Unescape(r) == Utf8.Lossy(r[..Run(r)]) + Unescape(r[Run(r)..])
  {
    hide Clean, EscapeText, EscapeLen, Utf8.Lossy;
    CleanPastRun(r);
    if r == [] || r[0] == BACKSLASH {
      hide Unescape;
      assert r[..0] == [] && r[0..] == r;
      LossyOfNothing();
      assert "" + Unescape(r) == Unescape(r);
    }
  }

  lemma UnescapesEscape(s: seq<byte>, n: nat, c: char, r: seq<byte>)
    requires IsEscape(s) && n == EscapeLen(s) && EscapeText(s) == [c] && s[n..] == r && Clean(r)
    ensures Clean(s) && Unescape(s) == [c] + Unescape(r)
  {
  }

  lemma HexLetterReads(d: nat)
    requires d < 16
    ensures HexLetter(d) as int < 0x80
    ensures HexDigit(HexLetter(d) as int) == Some(d)
  {
  }

  lemma EncodeAscii(t: string)
    requires forall i :: 0 <= i < |t| ==> t[i] as int < 0x80
    ensures |Utf8.Encode(t)| == |t| && forall i :: 0 <= i < |t| ==> Utf8.Encode(t)[i] == t[i] as int
  {
    if t != "" {
      Utf8.EncodeCharBytes(t[0]);
      EncodeAscii(t[1..]);
    }
  }

  /** One escaped character in front of clean bytes comes back as that character. */
  lemma UnescapesOne(c: char, r: seq<byte>)
    requires Clean(r)
    ensures var s := Utf8.Encode(EscapeChar(c)) + r;
            Clean(s) && Unescape(s) == [c] + Unescape(r)
  {
    hide Utf8.Encode, Utf8.EncodeChar, Unescape, Clean, HexDigit, HexLetter;
    var t := EscapeChar(c);
    var s := Utf8.Encode(t) + r;
    if t == [c] {
      UnescapesPlain(c, r);
      EncodeOne(c);
    } else if |t| == 2 {
      EncodeAscii(t);
      assert s[2..] == r;
      UnescapesEscape(s, 2, c, r);
    } else {
      HexLetterReads(c as int / 16);
      HexLetterReads(c as int % 16);
      EncodeAscii(t);
      assert s[6..] == r;
      assert HexDigit(48) == Some(0) by { HexLetterReads(0); HexZero(); }
      assert s[2..][0] == 48 && s[2..][1] == 48;
      assert s[2..][2] == t[4] as int && s[2..][3] == t[5] as int;
      assert HexPrefix(s[2..], 1) == Some(0) && HexPrefix(s[2..], 2) == Some(0);
      assert HexPrefix(s[2..], 3) == Some(c as int / 16);
      assert HexPrefix(s[2..], 4) == Some(c as int);
      UnescapesEscape(s, 6, c, r);
    }
  }

  lemma HexZero()
    ensures HexLetter(0) == 48 as char
  {
  }

  lemma EncodeOne(c: char)
    ensures Utf8.Encode([c]) == Utf8.EncodeChar(c)
  {
    assert Utf8.Encode([c]) == Utf8.EncodeChar(c) + Utf8.Encode([]);
  }

  /** Escaping then unescaping gives the text back, for every text. */
  lemma {:induction false} EscapeRoundTrip(t: string)
    ensures Clean(Utf8.Encode(Escape(t))) && Unescape(Utf8.Encode(Escape(t))) == t
  {
    hide EscapeChar, Unescape, Clean;
    if t == "" {
      UnescapeNothing();
    } else {
      hide Utf8.Encode;
      EscapeRoundTrip(t[1..]);
      Utf8.EncodeConcat(EscapeChar(t[0]), Escape(t[1..]));
      UnescapesOne(t[0], Utf8.Encode(Escape(t[1..])));
    }
  }

  // ---------- what each escape means ----------

  /** The byte writes the hexadecimal digit d, in upper or lower case. */
  predicate WritesDigit(b: byte, d: nat) {
    (d < 10 && b == 48 + d) || (10 <= d < 16 && (b == 65 + d - 10 || b == 97 + d - 10))
  }

  /** Six bytes that write n as a backslash, a `u` and four hexadecimal digits. */
  predicate WritesUnit(e: seq<byte>, n: u16) {
    && |e| == 6 && e[0] == 92 && e[1] == 117
    && WritesDigit(e[2], n / 0x1000) && WritesDigit(e[3], n / 0x100 % 0x10)
    && WritesDigit(e[4], n / 0x10 % 0x10) && WritesDigit(e[5], n % 0x10)
  }

  /** The character with that number; half of a surrogate pair has none and shows the replacement. */
  function UnitChar(n: u16): char {
    if 0xD800 <= n < 0xE000 then '\U{FFFD}' else n as char
  }

  lemma DigitReads(b: byte, d: nat)
    requires WritesDigit(b, d)
    ensures HexDigit(b) == Some(d)
  {
  }

  lemma UnitIsRead(e: seq<byte>, n: u16, r: seq<byte>)
    requires WritesUnit(e, n)
    ensures Hex4((e + r)[2..]) == Some(n)
  {
    hide HexDigit, HexPrefix, Hex4;
    var t := (e + r)[2..];
    assert t[0] == e[2] && t[1] == e[3] && t[2] == e[4] && t[3] == e[5];
    DigitReads(e[2], n / 0x1000);
    DigitReads(e[3], n / 0x100 % 0x10);
    DigitReads(e[4], n / 0x10 % 0x10);
    DigitReads(e[5], n % 0x10);
    FourDigits(t);
    DigitsOf(n);
  }

  lemma DigitsOf(n: nat)
    ensures ((n / 0x1000 * 16 + n / 0x100 % 0x10) * 16 + n / 0x10 % 0x10) * 16 + n % 0x10 == n
  {
    assert n / 0x10 / 0x10 == n / 0x100 && n / 0x100 / 0x10 == n / 0x1000;
  }

  lemma FourDigits(t: seq<byte>)
    requires |t| >= 4 && forall k :: 0 <= k < 4 ==> HexDigit(t[k]).Some?
    ensures Hex4(t) == Some(((HexDigit(t[0]).value * 16 + HexDigit(t[1]).value) * 16 + HexDigit(t[2]).value) * 16
                            + HexDigit(t[3]).value)
  {
    hide HexDigit;
    assert HexPrefix(t, 1) == Some(HexDigit(t[0]).value);
    assert HexPrefix(t, 2) == Some(HexDigit(t[0]).value * 16 + HexDigit(t[1]).value);
    assert HexPrefix(t, 3).Some?;
  }

  /** In front of anything, such an escape is read as that character. */
  lemma UnitReads(e: seq<byte>, n: u16, r: seq<byte>)
    requires WritesUnit(e, n) && Clean(r)
    ensures Clean(e + r) && Unescape(e + r) == [UnitChar(n)] + Unescape(r)
  {
    hide Unescape, Clean, Hex4, WritesDigit;
    UnitIsRead(e, n, r);
    assert (e + r)[6..] == r;
    UnescapesEscape(e + r, 6, UnitChar(n), r);
  }

  /**
   * A text all of whose 16-bit units are written that way, as a printer that keeps to ASCII does:
   * every unit outside the surrogates is read as the character with its number.
   */
  lemma {:induction false} UnitsRead(units: seq<u16>, s: seq<byte>)
    requires |s| == 6 * |units| && forall i :: 0 <= i < |units| ==> WritesUnit(s[6 * i..6 * i + 6], units[i])
    ensures Clean(s) && |Unescape(s)| == |units|
    ensures forall i :: 0 <= i < |units| ==>
      Unescape(s)[i] == if 0xD800 <= units[i] < 0xE000 then '\U{FFFD}' else units[i] as char
  {
    hide Unescape, Clean, WritesUnit;
    if units == [] {
      UnescapeNothing();
    } else {
      var e, r := s[..6], s[6..];
      assert s == e + r && e == s[6 * 0..6 * 0 + 6];
      forall i | 0 <= i < |units| - 1
        ensures WritesUnit(r[6 * i..6 * i + 6], units[1..][i])
      {
        assert r[6 * i..6 * i + 6] == s[6 * (i + 1)..6 * (i + 1) + 6];
      }
      UnitsRead(units[1..], r);
      UnitReads(e, units[0], r);
      assert forall i :: 1 <= i < |units| ==> Unescape(s)[i] == Unescape(r)[i - 1] && units[i] == units[1..][i - 1];
    }
  }

  /** The short escapes: a quote, a backslash, a slash, and five control characters. */
  predicate ShortEscape(b: byte, c: char) {
    || (b == '\"' as int && c == '\"') || (b == '\\' as int && c == '\\') || (b == '/' as int && c == '/')
    || (b == 'b' as int && c as int == 8) || (b == 'f' as int && c as int == 12)
    || (b == 'n' as int && c as int == 10) || (b == 'r' as int && c as int == 13) || (b == 't' as int && c as int == 9)
  }

  lemma ShortEscapesRead(b: byte, c: char, r: seq<byte>)
    requires ShortEscape(b, c) && Clean(r)
    ensures Clean([92, b] + r) && Unescape([92, b] + r) == [c] + Unescape(r)
  {
    hide Unescape, Clean, Hex4;
    assert ([92, b] + r)[2..] == r;
    UnescapesEscape([92, b] + r, 2, c, r);
  }

  predicate IsHexDigit(b: byte) {
    exists d :: 0 <= d < 16 && WritesDigit(b, d)
  }

  /** Every other escape, and a `u` without four hexadecimal digits, is dropped: two bytes and no more. */
  lemma OtherEscapesVanish(b: byte, r: seq<byte>)
    requires (forall c :: !ShortEscape(b, c)) && Clean(r)
    requires b == 'u' as int ==> |r| < 4 || exists k :: 0 <= k < 4 && !IsHexDigit(r[k])
    ensures Clean([92, b] + r) && Unescape([92, b] + r) == Unescape(r)
  {
    hide HexDigit;
    var s := [92, b] + r;
    assert s[2..] == r;
    assert !ShortEscape(b, '\"') && !ShortEscape(b, '\\') && !ShortEscape(b, '/') && !ShortEscape(b, 8 as char)
        && !ShortEscape(b, 12 as char) && !ShortEscape(b, 10 as char) && !ShortEscape(b, 13 as char)
        && !ShortEscape(b, 9 as char);
    if b == 117 && |r| >= 4 {
      var k :| 0 <= k < 4 && !IsHexDigit(r[k]);
      NoHexDigit(r[k]);
      HexPrefixFails(r, k + 1, 4);
    }
    assert EscapeText(s) == "" && EscapeLen(s) == 2;
    assert "" + Unescape(r) == Unescape(r);
  }

  lemma NoHexDigit(b: byte)
    requires !IsHexDigit(b)
    ensures HexDigit(b).None?
  {
    if HexDigit(b).Some? {
      assert WritesDigit(b, HexDigit(b).value);
    }
  }

  /** Escapes are ASCII: a backslash, a second byte, and four hex digits if that is a `u`. */
  lemma EscapeShape(c: char)
    ensures var t := EscapeChar(c);
            || (t == [c] && c != '\\' && c != '\"')
            || (2 <= |t| && t[0] == '\\' && (forall i :: 0 <= i < |t| ==> t[i] as int < 0x80)
                && (forall i :: 2 <= i < |t| ==> t[i] != '\\' && t[i] != '\"'))
  {
  }

  lemma RawOne(c: char, r: seq<byte>)
    requires JsonTree.RawString(r)
    ensures JsonTree.RawString(Utf8.Encode(EscapeChar(c)) + r)
  {
    hide Utf8.Encode, Utf8.EncodeChar, EscapeChar;
    EscapeShape(c);
    var t := EscapeChar(c);
    if t == [c] {
      EncodeOne(c);
      Utf8.EncodeCharBytes(c);
      RawPlain(Utf8.EncodeChar(c), r);
    } else {
      EncodeAscii(t);
      var e := Utf8.Encode(t);
      RawPlain(e[2..], r);
      assert (e + r)[2..] == e[2..] + r;
    }
  }

  lemma {:induction false} RawPlain(e: seq<byte>, r: seq<byte>)
    requires JsonTree.RawString(r) && forall k :: 0 <= k < |e| ==> e[k] != BACKSLASH && e[k] != QUOTE
    ensures JsonTree.RawString(e + r)
  {
    if e == [] {
      assert e + r == r;
    } else {
      RawPlain(e[1..], r);
      assert (e + r)[1..] == e[1..] + r;
    }
  }

  /** What the escaping writes between quotes is a string the scanner reads to its end. */
  lemma {:induction false} EscapedIsRaw(t: string)
    ensures JsonTree.RawString(Utf8.Encode(Escape(t)))
  {
    if t != "" {
      EscapedIsRaw(t[1..]);
      Utf8.EncodeConcat(EscapeChar(t[0]), Escape(t[1..]));
      RawOne(t[0], Utf8.Encode(Escape(t[1..])));
    }
  }
}
