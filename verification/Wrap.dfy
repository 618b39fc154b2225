/**
 * Greedy line wrapping of src/display.rs: what it keeps, what its lines are like, and that no
 * other way of cutting the text uses fewer lines.
 */
module Wrap {
  import opened Arithmetic
  import opened Font

  const SUB_W: nat := 232

  /** The lines still to come when `cur` is being filled and `text` remains. */
  function WrapFrom(f: Font, cur: string, text: string): (lines: seq<string>)
    ensures lines != []
    decreases |text|
  {
    if text == "" then [cur]
    else if text[0] == '\n' then [cur] + WrapFrom(f, "", text[1..])
    else if Width(f, cur) + Width(f, [text[0]]) > SUB_W && cur != "" then
      [cur] + WrapFrom(f, [text[0]], text[1..])
    else WrapFrom(f, cur + [text[0]], text[1..])
  }

  function Lines(f: Font, text: string): seq<string> {
    WrapFrom(f, "", text)
  }

  method WrapToLines(f: Font, text: string) returns (out: seq<string>)
    ensures out == Lines(f, text)
  {
    out := [];
    var cur := "";
    var i := 0;
    assert text[0..] == text && [] + Lines(f, text) == Lines(f, text);
    while i < |text|
      invariant 0 <= i <= |text|
      invariant out + WrapFrom(f, cur, text[i..]) == Lines(f, text)
    {
      var ch := text[i];
      WrapUnfolds(f, out, cur, text[i..]);
      assert text[i..][1..] == text[i + 1..];
      i := i + 1;
      if ch == '\n' {
        out, cur := out + [cur], "";
        continue;
      }
      if Width(f, cur) + Width(f, [ch]) > SUB_W && cur != "" {
        out, cur := out + [cur], "";
      }
      cur := cur + [ch];
    }
    out := out + [cur];
  }

  lemma WrapUnfolds(f: Font, out: seq<string>, cur: string, text: string)
    requires text != ""
    ensures var c, rest := text[0], text[1..];
            out + WrapFrom(f, cur, text) ==
              if c == '\n' then (out + [cur]) + WrapFrom(f, "", rest)
              else if Width(f, cur) + Width(f, [c]) > SUB_W && cur != "" then
                (out + [cur]) + WrapFrom(f, "" + [c], rest)
              else out + WrapFrom(f, cur + [c], rest)
  {
    hide Width;
    var c, rest := text[0], text[1..];
    assert "" + [c] == [c];
    assert out + ([cur] + WrapFrom(f, "", rest)) == (out + [cur]) + WrapFrom(f, "", rest);
    assert out + ([cur] + WrapFrom(f, [c], rest)) == (out + [cur]) + WrapFrom(f, [c], rest);
  }

  // ---------- what is kept ----------

  function Join(lines: seq<string>): string {
    if lines == [] then "" else lines[0] + Join(lines[1..])
  }

  lemma JoinUnfolds(lines: seq<string>)
    requires lines != []
    ensures Join(lines) == lines[0] + Join(lines[1..])
  {
  }

  lemma {:induction false} JoinConcat(a: seq<string>, b: seq<string>)
    ensures Join(a + b) == Join(a) + Join(b)
  {
    if a == [] {
      assert a + b == b;
    } else {
      hide Join;
      JoinConcat(a[1..], b);
      DropOfConcat(a, b, 1);
      JoinUnfolds(a);
      JoinUnfolds(a + b);
      Assoc(a[0], Join(a[1..]), Join(b));
    }
  }

  function NoNewlines(s: string): string {
    if s == "" then "" else (if s[0] == '\n' then "" else [s[0]]) + NoNewlines(s[1..])
  }

  lemma NoNewlinesUnfold(s: string)
    requires s != ""
    ensures NoNewlines(s) == (if s[0] == '\n' then "" else [s[0]]) + NoNewlines(s[1..])
  {
  }

  lemma {:induction false} NoNewlinesConcat(s: string, t: string)
    ensures NoNewlines(s + t) == NoNewlines(s) + NoNewlines(t)
  {
    if s == "" {
      assert s + t == t;
    } else {
      hide NoNewlines;
      NoNewlinesConcat(s[1..], t);
      DropOfConcat(s, t, 1);
      NoNewlinesUnfold(s);
      NoNewlinesUnfold(s + t);
      Assoc(if s[0] == '\n' then "" else [s[0]], NoNewlines(s[1..]), NoNewlines(t));
    }
  }

  predicate Plain(s: string) {
    '\n' !in s
  }

  lemma {:induction false} WrapKeepsTextFrom(f: Font, cur: string, text: string)
    ensures Join(WrapFrom(f, cur, text)) == cur + NoNewlines(text)
    decreases |text|
  {
    hide Width;
    if text == "" {
      assert Join([cur]) == cur + Join([cur][1..]);
    } else {
      var c, rest := text[0], text[1..];
      if c == '\n' {
        WrapKeepsTextFrom(f, "", rest);
        JoinConcat([cur], WrapFrom(f, "", rest));
      } else if Width(f, cur) + Width(f, [c]) > SUB_W && cur != "" {
        WrapKeepsTextFrom(f, [c], rest);
        JoinConcat([cur], WrapFrom(f, [c], rest));
      } else {
        WrapKeepsTextFrom(f, cur + [c], rest);
        assert cur + [c] + NoNewlines(rest) == cur + ([c] + NoNewlines(rest));
      }
      assert Join([cur]) == cur + Join([cur][1..]);
    }
  }

  /** Wrapping keeps every character in order; only newlines go. */
  lemma WrapKeepsText(f: Font, text: string)
    ensures Join(Lines(f, text)) == NoNewlines(text)
  {
    WrapKeepsTextFrom(f, "", text);
    assert "" + NoNewlines(text) == NoNewlines(text);
  }

  // ---------- what the lines are like ----------

  /** A line fits, or is a single character that is too wide by itself. */
  predicate Fits(f: Font, line: string) {
    Width(f, line) <= SUB_W || |line| == 1
  }

  predicate GoodLine(f: Font, line: string) {
    Fits(f, line) && Plain(line)
  }

  predicate GoodLines(f: Font, lines: seq<string>) {
    forall i :: 0 <= i < |lines| ==> GoodLine(f, lines[i])
  }

  lemma {:induction false} WrapFitsFrom(f: Font, cur: string, text: string)
    requires GoodLine(f, cur)
    ensures GoodLines(f, WrapFrom(f, cur, text))
    decreases |text|
  {
    hide Width;
    if text != "" {
      var c, rest := text[0], text[1..];
      EmptyFits(f);
      if c == '\n' {
        WrapFitsFrom(f, "", rest);
      } else if Width(f, cur) + Width(f, [c]) > SUB_W && cur != "" {
        WrapFitsFrom(f, [c], rest);
      } else {
        WidthConcat(f, cur, [c]);
        WrapFitsFrom(f, cur + [c], rest);
      }
    }
  }

  lemma EmptyFits(f: Font)
    ensures Width(f, "") == 0
  {
  }

  /** Every line fits the screen and has no newline. */
  lemma WrapFits(f: Font, text: string)
    ensures GoodLines(f, Lines(f, text))
  {
    EmptyFits(f);
    WrapFitsFrom(f, "", text);
  }

  lemma {:induction false} FittingLineStaysFrom(f: Font, cur: string, text: string)
    requires GoodLine(f, cur + text)
    ensures WrapFrom(f, cur, text) == [cur + text]
    decreases |text|
  {
    hide Width;
    if text == "" {
      assert cur + text == cur;
    } else {
      var c, rest := text[0], text[1..];
      assert cur + text == cur + [c] + rest;
      WidthConcat(f, cur + [c], rest);
      WidthConcat(f, cur, [c]);
      assert text[0] in cur + text;
      FittingLineStaysFrom(f, cur + [c], rest);
    }
  }

  /** Re-wrapping any line that wrapping produced gives that line back. */
  lemma WrapIsIdempotent(f: Font, text: string, i: nat)
    requires i < |Lines(f, text)|
    ensures Lines(f, Lines(f, text)[i]) == [Lines(f, text)[i]]
  {
    WrapFits(f, text);
    var line := Lines(f, text)[i];
    assert "" + line == line;
    FittingLineStaysFrom(f, "", line);
  }

  // ---------- optimality ----------

  predicate AllFit(f: Font, lines: seq<string>) {
    forall i :: 0 <= i < |lines| ==> Fits(f, lines[i])
  }

  predicate IsSuffix(g: string, o: string) {
    |g| <= |o| && o[|o| - |g|..] == g
  }

  lemma SuffixNarrower(f: Font, g: string, o: string)
    requires IsSuffix(g, o)
    ensures Width(f, g) <= Width(f, o)
  {
    assert o == o[..|o| - |g|] + g;
    WidthConcat(f, o[..|o| - |g|], g);
  }

  lemma JoinTail(rem: string, others: seq<string>)
    requires others != []
    ensures rem == "" ==> rem + Join(others) == others[0] + Join(others[1..])
  {
  }

  /**
   * Greedy and another cut have closed equally many lines; greedy's open line is a suffix of the
   * other's. Greedy finishes with no more lines.
   */
  lemma {:induction false} Level(f: Font, g: string, o: string, rem: string, others: seq<string>)
    requires IsSuffix(g, o) && Fits(f, o + rem) && AllFit(f, others)
    requires Plain(rem + Join(others))
    ensures |WrapFrom(f, g, rem + Join(others))| <= 1 + |others|
    decreases |rem + Join(others)|, |others|
  {
    hide Width;
    if rem == "" {
      if others != [] {
        JoinTail(rem, others);
        assert "" + others[0] == others[0];
        Ahead(f, g, "", others[0], others[1..]);
      } else {
        assert rem + Join(others) == "";
      }
    } else {
      var c, rem' := rem[0], rem[1..];
      var text := rem + Join(others);
      assert text[0] == c && text[1..] == rem' + Join(others);
      assert o + rem == (o + [c]) + rem';
      WidthConcat(f, o + [c], rem');
      WidthConcat(f, o, [c]);
      SuffixNarrower(f, g, o);
      assert IsSuffix(g + [c], o + [c]);
      Level(f, g + [c], o + [c], rem', others);
    }
  }

  /** Greedy has closed a line fewer than the other cut: it finishes with at most as many. */
  lemma {:induction false} Ahead(f: Font, g: string, o: string, rem: string, others: seq<string>)
    requires Fits(f, o + rem) && AllFit(f, others)
    requires Plain(rem + Join(others))
    ensures |WrapFrom(f, g, rem + Join(others))| <= 2 + |others|
    decreases |rem + Join(others)|, |others|
  {
    hide Width;
    if rem == "" {
      if others != [] {
        JoinTail(rem, others);
        assert "" + others[0] == others[0];
        Ahead(f, g, "", others[0], others[1..]);
      } else {
        assert rem + Join(others) == "";
      }
    } else {
      var c, rem' := rem[0], rem[1..];
      var text := rem + Join(others);
      assert text[0] == c && text[1..] == rem' + Join(others);
      assert o + rem == (o + [c]) + rem';
      if Width(f, g) + Width(f, [c]) > SUB_W && g != "" {
        assert IsSuffix([c], o + [c]);
        Level(f, [c], o + [c], rem', others);
      } else {
        Ahead(f, g + [c], o + [c], rem', others);
      }
    }
  }

  /** Greedy wrapping is optimal: no cut of a newline-free text into fitting lines has fewer. */
  lemma WrapIsOptimal(f: Font, text: string, lines: seq<string>)
    requires Plain(text) && lines != [] && AllFit(f, lines) && Join(lines) == text
    ensures |Lines(f, text)| <= |lines|
  {
    assert "" + lines[0] == lines[0];
    assert text == lines[0] + Join(lines[1..]);
    Level(f, "", "", lines[0], lines[1..]);
  }
}
