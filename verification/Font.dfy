/**
 * The font as a parameter: each character has an advance and a set of ink pixels inside its
 * advance box; a text is its characters side by side.
 */
module Font {
  /** `ink(c, x, y)` is consulted for 0 <= x < adv(c) and 0 <= y < height only. */
  datatype Font = Font(adv: char -> nat, ink: (char, int, int) -> bool, height: nat)

  function Width(f: Font, s: string): nat {
    if s == "" then 0 else f.adv(s[0]) + Width(f, s[1..])
  }

  lemma {:induction false} WidthConcat(f: Font, s: string, t: string)
    ensures Width(f, s + t) == Width(f, s) + Width(f, t)
  {
    if s == "" {
      assert s + t == t;
    } else {
      WidthConcat(f, s[1..], t);
      assert (s + t)[1..] == s[1..] + t;
    }
  }

  /** Whether text pixel (x, y) is ink, the text's origin being its top left corner. */
  predicate On(f: Font, s: string, x: int, y: int) {
    if s == "" || x < 0 then false
    else if x < f.adv(s[0]) then 0 <= y < f.height && f.ink(s[0], x, y)
    else On(f, s[1..], x - f.adv(s[0]), y)
  }

  lemma {:induction false} OnInsideWidth(f: Font, s: string, x: int, y: int)
    requires On(f, s, x, y)
    ensures 0 <= x < Width(f, s) && 0 <= y < f.height
  {
    if x >= f.adv(s[0]) {
      OnInsideWidth(f, s[1..], x - f.adv(s[0]), y);
    }
  }

  /** Text appended on the right leaves the pixels of what stood there alone. */
  lemma {:induction false} OnPrefix(f: Font, s: string, t: string, x: int, y: int)
    requires x < Width(f, s)
    ensures On(f, s + t, x, y) == On(f, s, x, y)
  {
    if s != "" {
      assert (s + t)[1..] == s[1..] + t;
      if x >= f.adv(s[0]) {
        OnPrefix(f, s[1..], t, x - f.adv(s[0]), y);
      }
    }
  }
}
