/**
 * The status bar of src/render.rs: what decides its pixels, the picture they form, and the packed
 * key that stands in for them when deciding whether to redraw.
 */
module StatusBar {
  import opened Arithmetic
  import opened Bytes
  import opened Options
  import opened Font
  import opened Raster
  import opened Display
  import opened Numerals

  const BAR_BG: Color := 0x1202
  const U64_MAX: nat := 0xFFFF_FFFF_FFFF_FFFF

  datatype Clock = Unsynced | At(hour: nat, minute: nat)

  /** Everything that decides the bar's pixels. */
  datatype BarView = BarView(mode: Mode, volShown: bool, volume: nat, clock: Clock, batt: Option<byte>, charging: bool)

  /** `show_volume`: as written, true from the deadline on, for half the clock's range. */
  predicate ShowVolume(until: u32, now: u32) {
    until != 0 && (now - until) % 0x1_0000_0000 < 0xFFFF_FFFF / 2
  }

  /**
   * A volume change sets the deadline 1500 ms ahead. The popup is not shown before the deadline;
   * it is shown from the deadline on, for half the clock's range.
   */
  lemma PopupShownExactlyFromDeadlineOn(until: u32, d: int)
    requires -0x8000_0000 <= d < 0x8000_0000
    ensures ShowVolume(until, (until + d) % 0x1_0000_0000) <==> until != 0 && 0 <= d < 0x7FFF_FFFF
  {
    var now := (until + d) % 0x1_0000_0000;
    assert (now - until) % 0x1_0000_0000 == d % 0x1_0000_0000;
  }

  function ViewOf(bar: TopBar, now: u32, clock: Clock): BarView
    requires bar.volume >= 0
  {
    BarView(bar.mode, ShowVolume(bar.volumeUntilMs, now), bar.volume, clock, bar.battLevel, bar.battCharging)
  }

  /** Ranges the rest of the firmware keeps. */
  predicate InRange(v: BarView) {
    && v.volume <= 100
    && (v.clock.At? ==> v.clock.hour < 24 && v.clock.minute < 60)
    && (v.batt.Some? ==> v.batt.value <= 100)
  }

  // ---------- the picture ----------

  function ModeText(m: Mode): string {
    match m
    case Idle => "IDLE"
    case Listening => "LISTEN"
    case Playing => "PLAY"
    case Offline => "OFFLINE"
  }

  function ModeColor(m: Mode): Color {
    match m
    case Idle => 0xFFFF
    case Listening => 0x67F4
    case Playing => 0xFF0C
    case Offline => 0xF98C
  }

  function TwoDigits(n: nat): string {
    (if n < 10 then "0" else "") + Decimal(n)
  }

  function ClockText(c: Clock): string {
    match c
    case Unsynced => "--:--"
    case At(h, m) => TwoDigits(h) + ":" + TwoDigits(m)
  }

  function BattText(b: Option<byte>): string {
    if b.Some? then Decimal(b.value) + "%" else "--%"
  }

  function VolumeText(v: nat): string {
    "VOL " + Decimal(v) + "%"
  }

  /** The clock text is five characters that read as the hour and the minute, or none of them digits. */
  lemma ClockReads(c: Clock)
    requires c.At? ==> c.hour < 24 && c.minute < 60
    ensures var t := ClockText(c);
            && |t| == 5 && t[2] == ':'
            && (c.At? ==> AllDigits(t[..2]) && Number(t[..2]) == c.hour && AllDigits(t[3..]) && Number(t[3..]) == c.minute)
            && (c.Unsynced? ==> t == "--:--")
  {
    if c.At? {
      TwoDigitsRead(c.hour);
      TwoDigitsRead(c.minute);
      var t := ClockText(c);
      assert t[..2] == TwoDigits(c.hour) && t[3..] == TwoDigits(c.minute);
    }
  }

  lemma TwoDigitsRead(n: nat)
    requires n < 100
    ensures |TwoDigits(n)| == 2 && AllDigits(TwoDigits(n)) && Number(TwoDigits(n)) == n
  {
    var t := TwoDigits(n);
    assert Decimal(n) == if n < 10 then [(48 + n) as char] else [(48 + n / 10) as char, (48 + n % 10) as char];
    assert t[..1][..0] == "";
    assert Number(t[..1]) == n / 10;
  }

  /** The battery text is its level in percent, the popup's the volume. */
  lemma LevelsRead(b: Option<byte>, volume: nat)
    ensures var t := BattText(b);
            && t != "" && t[|t| - 1] == '%'
            && (b.Some? ==> AllDigits(t[..|t| - 1]) && Number(t[..|t| - 1]) == b.value)
            && (b.None? ==> t == "--%")
    ensures var t := VolumeText(volume);
            && |t| > 5 && t[..4] == "VOL " && t[|t| - 1] == '%'
            && AllDigits(t[4..|t| - 1]) && Number(t[4..|t| - 1]) == volume
  {
    if b.Some? {
      DecimalIsNumber(b.value);
      var t := BattText(b);
      assert t[..|t| - 1] == Decimal(b.value);
    }
    DecimalIsNumber(volume);
    var t := VolumeText(volume);
    assert t[4..|t| - 1] == Decimal(volume) && t[..4] == "VOL ";
  }

  /** No two modes look alike, in text or in colour. */
  lemma ModesDiffer(a: Mode, b: Mode)
    requires a != b
    ensures ModeText(a) != ModeText(b) && ModeColor(a) != ModeColor(b)
  {
    assert ModeText(a)[0] != ModeText(b)[0];
  }

  function WifiColor(m: Mode): Color {
    if m.Offline? then 0x630C else 0x07FF
  }

  function WifiPicture(p: Picture, m: Mode): Picture {
    var c := WifiColor(m);
    Rect(Rect(Rect(p, 190, 10, 3, 5, c), 195, 7, 3, 8, c), 200, 4, 3, 11, c)
  }

  function BoltPicture(p: Picture, bx: int): Picture {
    Stroke(Stroke(Stroke(p, bx + 2, 3, bx, 8, 0xFFE0), bx, 8, bx + 3, 8, 0xFFE0), bx + 3, 8, bx + 1, 13, 0xFFE0)
  }

  function BattPicture(f: Font, p: Picture, b: Option<byte>, charging: bool): Picture {
    var text := BattText(b);
    var bw := Width(f, text);
    var q := Ink(p, text, 0xFFFF, 237 - bw);
    if charging then BoltPicture(q, 237 - bw - 8) else q
  }

  function BarPicture(f: Font, v: BarView): Picture {
    var p := Ink(Fill(BAR_BG), ModeText(v.mode), ModeColor(v.mode), 6);
    if v.volShown then Ink(p, VolumeText(v.volume), 0x07FF, 176)
    else
      BattPicture(f, WifiPicture(Ink(p, ClockText(v.clock), 0xFFFF, 150), v.mode), v.batt, v.charging)
  }

  /** The texts of a picture and where they start, in drawing order. */
  function Texts(p: Picture): seq<(string, int)> {
    match p
    case Fill(_) => []
    case Ink(b, text, _, x) => Texts(b) + [(text, x)]
    case Rect(b, _, _, _, _, _) => Texts(b)
    case Stroke(b, _, _, _, _, _) => Texts(b)
  }

  lemma MarksAreNoText(p: Picture, m: Mode, bx: int)
    ensures Texts(WifiPicture(p, m)) == Texts(p) == Texts(BoltPicture(p, bx))
  {
    var c := WifiColor(m);
    assert Texts(Rect(Rect(p, 190, 10, 3, 5, c), 195, 7, 3, 8, c)) == Texts(p);
    var q := Stroke(p, bx + 2, 3, bx, 8, 0xFFE0);
    assert Texts(Stroke(q, bx, 8, bx + 3, 8, 0xFFE0)) == Texts(p);
  }

  /**
   * The bar says the mode, and then either the volume, while the popup shows, or the clock and the
   * battery, which ends three pixels from the right edge.
   */
  lemma BarSays(f: Font, v: BarView)
    ensures Texts(BarPicture(f, v)) ==
      [(ModeText(v.mode), 6)]
      + if v.volShown then [(VolumeText(v.volume), 176)]
        else [(ClockText(v.clock), 150), (BattText(v.batt), 237 - Width(f, BattText(v.batt)))]
  {
    hide Width, ModeText, ClockText, BattText, VolumeText, WifiPicture, BoltPicture;
    var p := Ink(Fill(BAR_BG), ModeText(v.mode), ModeColor(v.mode), 6);
    assert Texts(p) == [(ModeText(v.mode), 6)];
    if !v.volShown {
      var q := Ink(p, ClockText(v.clock), 0xFFFF, 150);
      assert Texts(q) == [(ModeText(v.mode), 6), (ClockText(v.clock), 150)];
      var bw: int := Width(f, BattText(v.batt));
      MarksAreNoText(q, v.mode, 0);
      MarksAreNoText(Ink(WifiPicture(q, v.mode), BattText(v.batt), 0xFFFF, 237 - bw), v.mode, 237 - bw - 8);
    }
  }

  /** The colours of the marks of a picture, in drawing order: rectangles, then strokes. */
  function Rects(p: Picture): seq<Color> {
    match p
    case Fill(_) => []
    case Ink(b, _, _, _) => Rects(b)
    case Rect(b, _, _, _, _, c) => Rects(b) + [c]
    case Stroke(b, _, _, _, _, _) => Rects(b)
  }

  function Strokes(p: Picture): seq<Color> {
    match p
    case Fill(_) => []
    case Ink(b, _, _, _) => Strokes(b)
    case Rect(b, _, _, _, _, _) => Strokes(b)
    case Stroke(b, _, _, _, _, c) => Strokes(b) + [c]
  }

  lemma WifiMarks(p: Picture, m: Mode)
    ensures Rects(WifiPicture(p, m)) == Rects(p) + [WifiColor(m), WifiColor(m), WifiColor(m)]
    ensures Strokes(WifiPicture(p, m)) == Strokes(p)
  {
    var c := WifiColor(m);
    var q := Rect(p, 190, 10, 3, 5, c);
    var r := Rect(q, 195, 7, 3, 8, c);
    assert Rects(q) == Rects(p) + [c] && Rects(r) == Rects(q) + [c];
    assert Strokes(q) == Strokes(p) && Strokes(r) == Strokes(q);
  }

  lemma BoltMarks(p: Picture, bx: int)
    ensures Rects(BoltPicture(p, bx)) == Rects(p)
    ensures Strokes(BoltPicture(p, bx)) == Strokes(p) + [0xFFE0, 0xFFE0, 0xFFE0]
  {
    var q := Stroke(p, bx + 2, 3, bx, 8, 0xFFE0);
    var r := Stroke(q, bx, 8, bx + 3, 8, 0xFFE0);
    assert Strokes(q) == Strokes(p) + [0xFFE0] && Strokes(r) == Strokes(q) + [0xFFE0];
    assert Rects(q) == Rects(p) && Rects(r) == Rects(p);
  }

  /**
   * Unless the popup shows, the bar has three signal bars, grey exactly when offline, and a yellow
   * bolt of three strokes exactly when charging.
   */
  lemma BarMarks(f: Font, v: BarView)
    ensures Rects(BarPicture(f, v)) ==
      if v.volShown then [] else if v.mode.Offline? then [0x630C, 0x630C, 0x630C] else [0x07FF, 0x07FF, 0x07FF]
    ensures Strokes(BarPicture(f, v)) == if v.volShown || !v.charging then [] else [0xFFE0, 0xFFE0, 0xFFE0]
  {
    hide Width, ModeText, ClockText, BattText, VolumeText, WifiPicture, BoltPicture;
    var p := Ink(Fill(BAR_BG), ModeText(v.mode), ModeColor(v.mode), 6);
    assert Rects(p) == [] && Strokes(p) == [];
    if !v.volShown {
      var q := Ink(p, ClockText(v.clock), 0xFFFF, 150);
      assert Rects(q) == [] && Strokes(q) == [];
      WifiMarks(q, v.mode);
      var bw: int := Width(f, BattText(v.batt));
      var r := Ink(WifiPicture(q, v.mode), BattText(v.batt), 0xFFFF, 237 - bw);
      BoltMarks(r, 237 - bw - 8);
    }
  }

  lemma BattHasNoBlack(f: Font, p: Picture, b: Option<byte>, charging: bool)
    requires NoBlack(p)
    ensures NoBlack(BattPicture(f, p, b, charging))
  {
    hide Width, BattText;
    var bw: int := Width(f, BattText(b));
    var q := Ink(p, BattText(b), 0xFFFF, 237 - bw);
    var bx: int := 237 - bw - 8;
    assert NoBlack(q);
    assert NoBlack(Stroke(q, bx + 2, 3, bx, 8, 0xFFE0));
    assert NoBlack(BoltPicture(q, bx));
  }

  lemma WifiHasNoBlack(p: Picture, m: Mode)
    requires NoBlack(p)
    ensures NoBlack(WifiPicture(p, m))
  {
    var c := WifiColor(m);
    assert NoBlack(Rect(p, 190, 10, 3, 5, c));
    assert NoBlack(Rect(Rect(p, 190, 10, 3, 5, c), 195, 7, 3, 8, c));
  }

  /** No pixel of the bar is black. */
  lemma BarHasNoBlack(f: Font, v: BarView)
    ensures NoBlack(BarPicture(f, v))
  {
    hide BattPicture, WifiPicture, ClockText, VolumeText, ModeText;
    var p := Ink(Fill(BAR_BG), ModeText(v.mode), ModeColor(v.mode), 6);
    assert NoBlack(p);
    if !v.volShown {
      var q := Ink(p, ClockText(v.clock), 0xFFFF, 150);
      assert NoBlack(q);
      WifiHasNoBlack(q, v.mode);
      BattHasNoBlack(f, WifiPicture(q, v.mode), v.batt, v.charging);
    }
  }

  // ---------- the key ----------

  function ModeCode(m: Mode): nat {
    match m
    case Idle => 0
    case Listening => 1
    case Playing => 2
    case Offline => 3
  }

  function ClockCode(c: Clock): nat {
    match c
    case Unsynced => 0x800
    case At(h, m) => h * 60 + m
  }

  function BattCode(b: Option<byte>): nat {
    if b.Some? then b.value else 127
  }

  /** `bar_key`: disjoint bit fields, so the bitwise or is a sum. */
  function Key(v: BarView): nat {
    var k := ModeCode(v.mode) + (if v.volShown then 8 else 0) + v.volume % 0x80 * 0x10;
    if v.volShown then k
    else k + ClockCode(v.clock) * 0x800 + BattCode(v.batt) * 0x100_0000 + (if v.charging then 0x8000_0000 else 0)
  }

  lemma ClockCodeInjective(a: Clock, b: Clock)
    requires a.At? ==> a.hour < 24 && a.minute < 60
    requires b.At? ==> b.hour < 24 && b.minute < 60
    requires ClockCode(a) == ClockCode(b)
    ensures a == b
  {
  }

  /** Two sums of fields below their bounds are equal only field by field. */
  lemma FieldsUnique(lo: nat, hi: nat, lo': nat, hi': nat, base: nat)
    requires lo < base && lo' < base && lo + hi * base == lo' + hi' * base
    ensures lo == lo' && hi == hi'
  {
    ProductOrder(hi, hi', base);
    ProductOrder(hi', hi, base);
  }

  function Low(v: BarView): nat {
    ModeCode(v.mode) + (if v.volShown then 8 else 0)
  }

  function High(v: BarView): nat {
    if v.volShown then 0
    else ClockCode(v.clock) + 0x2000 * (BattCode(v.batt) + 0x80 * (if v.charging then 1 else 0))
  }

  lemma KeySplits(v: BarView)
    requires InRange(v)
    ensures Key(v) == Low(v) + (v.volume + High(v) * 0x80) * 0x10
    ensures Low(v) < 0x10 && v.volume < 0x80 && Key(v) < U64_MAX
  {
  }

  /** Equal keys mean equal bar pixels: nothing that shows is left out of the key. */
  lemma KeyDecidesPicture(f: Font, a: BarView, b: BarView)
    requires InRange(a) && InRange(b) && Key(a) == Key(b)
    ensures BarPicture(f, a) == BarPicture(f, b)
  {
    hide Key, BattPicture, WifiPicture, ClockText, VolumeText, ModeText, ModeColor;
    KeySplits(a);
    KeySplits(b);
    FieldsUnique(Low(a), a.volume + High(a) * 0x80, Low(b), b.volume + High(b) * 0x80, 0x10);
    FieldsUnique(a.volume, High(a), b.volume, High(b), 0x80);
    if !a.volShown {
      var p, q := BattCode(a.batt) + 0x80 * (if a.charging then 1 else 0), BattCode(b.batt) + 0x80 * (if b.charging then 1 else 0);
      FieldsUnique(ClockCode(a.clock), p, ClockCode(b.clock), q, 0x2000);
      ClockCodeInjective(a.clock, b.clock);
    }
  }
}
