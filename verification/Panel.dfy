/**
 * The panel's pixels: what a window pushed does to them, when they show what the renderer
 * remembers, and exactly when redrawing what differs puts any panel right.
 */
module Panel {
  import opened Bytes
  import opened Options
  import opened Font
  import opened Raster
  import opened Screen
  import opened StatusBar
  import opened Frames

  function RowTop(slot: nat): nat {
    SUB_Y + slot * LINE_H
  }

  /** The panel shows every remembered row, rendered in full. */
  ghost predicate ShowsRows(f: Font, px: (int, int) -> int, drawn: seq<Slot>)
    requires |drawn| == VISIBLE
  {
    forall k :: 0 <= k < VISIBLE ==> ShowsRow(f, px, drawn[k], k)
  }

  ghost predicate ShowsRow(f: Font, px: (int, int) -> int, s: Slot, k: nat) {
    forall x, y :: 0 <= x < SCREEN_W && 0 <= y < LINE_H ==> px(x, RowTop(k) + y) == RowPixel(f, s, x, y)
  }

  ghost predicate ShowsBar(f: Font, px: (int, int) -> int, v: BarView) {
    forall x, y :: 0 <= x < SCREEN_W && 0 <= y < BAR_H ==> px(x, y) == Paint(f, BarPicture(f, v), x, y)
  }

  ghost predicate BlackRows(px: (int, int) -> int, top: nat, bottom: nat) {
    forall x, y :: 0 <= x < SCREEN_W && top <= y < bottom ==> px(x, y) == BLACK
  }

  /** The full rendering of what is wanted, pixel by pixel. */
  function WantedPixel(f: Font, w: Want, x: int, y: int): int
    requires |w.rows| == VISIBLE && 0 <= y < SCREEN_H
  {
    if y < BAR_H then Paint(f, BarPicture(f, w.bar), x, y)
    else if y < SUB_Y then BLACK
    else RowPixel(f, Target(w.rows[(y - SUB_Y) / LINE_H]), x, (y - SUB_Y) % LINE_H)
  }

  lemma CleanRowShows(f: Font, d: Slot, want: Option<Slot>, x: int, y: int)
    requires Clean(d, want)
    ensures RowPixel(f, d, x, y) == RowPixel(f, Target(want), x, y)
  {
    if want.None? {
      BlankRow(f, d, x, y);
      BlankRow(f, NO_SLOT, x, y);
    }
  }

  // ---------- what a push does to the panel ----------

  lemma RowPictureIs(f: Font, s: Slot, shift: int)
    ensures RowPicture(f, s, shift) ==
      (if s.caret then Ink(Ink(Fill(BLACK), s.txt, s.col, shift), "_", CARET_COLOR, Width(f, s.txt) + shift)
       else Ink(Fill(BLACK), s.txt, s.col, shift))
  {
  }

  /** The strip of a prefix extension lies on the panel. */
  lemma ExtendBounds(f: Font, d: Slot, s: Slot)
    requires CanExtend(f, d, s)
    ensures 0 <= TEXT_X + Width(f, d.txt) < TEXT_X + Width(f, s.txt) <= SCREEN_W
  {
  }

  predicate InStrip(slot: nat, a: int, b: int, i: int, j: int) {
    a <= i < b && RowTop(slot) <= j < RowTop(slot) + LINE_H
  }

  /** Only pixels of row `slot`, between columns a and b, differ. */
  ghost predicate OnlyStrip(f: Font, px: (int, int) -> int, px': (int, int) -> int, s: Slot, slot: nat, a: int, b: int) {
    forall i, j ::
      px'(i, j) == if InStrip(slot, a, b, i, j) then RowPixel(f, s, i, j - RowTop(slot)) else px(i, j)
  }

  /** What pushing the band `b` through a window does. */
  ghost predicate Pushed(px: (int, int) -> int, px': (int, int) -> int, x: int, y: int, w: nat, h: nat, b: seq<byte>) {
    forall i, j ::
      px'(i, j) == if InRect(x, y, w, h, i, j) then PixelOf(b, w, i - x, j - y) else px(i, j)
  }

  lemma StripPushed(f: Font, px: (int, int) -> int, px': (int, int) -> int, s: Slot, slot: nat, a: int, b: int, bytes: seq<byte>)
    requires 0 <= a < b && Shows(f, bytes, b - a, LINE_H, RowPicture(f, s, TEXT_X - a))
    requires Pushed(px, px', a, RowTop(slot), b - a, LINE_H, bytes)
    ensures OnlyStrip(f, px, px', s, slot, a, b)
  {
    hide PixelOf, Paint, RowPicture;
    forall i, j
      ensures px'(i, j) == if InStrip(slot, a, b, i, j) then RowPixel(f, s, i, j - RowTop(slot)) else px(i, j)
    {
      if InStrip(slot, a, b, i, j) {
        assert InBand(b - a, LINE_H, i - a, j - RowTop(slot));
        ShiftedRow(f, s, a, i, j - RowTop(slot));
      }
    }
  }

  lemma RowExtended(f: Font, px: (int, int) -> int, px': (int, int) -> int, d: Slot, s: Slot, slot: nat)
    requires CanExtend(f, d, s) && ShowsRow(f, px, d, slot)
    requires OnlyStrip(f, px, px', s, slot, TEXT_X + Width(f, d.txt), TEXT_X + Width(f, s.txt))
    ensures ShowsRow(f, px', s, slot)
  {
    hide RowPixel, CanExtend, Width;
    ExtendBounds(f, d, s);
    forall x, y | 0 <= x < SCREEN_W && 0 <= y < LINE_H
      ensures px'(x, RowTop(slot) + y) == RowPixel(f, s, x, y)
    {
      if x < TEXT_X + Width(f, d.txt) || x >= TEXT_X + Width(f, s.txt) {
        ExtensionStaysInStrip(f, d, s, x, y);
      }
    }
  }

  lemma RowReplaced(f: Font, px: (int, int) -> int, px': (int, int) -> int, s: Slot, slot: nat)
    requires OnlyStrip(f, px, px', s, slot, 0, SCREEN_W)
    ensures ShowsRow(f, px', s, slot)
  {
    hide RowPixel;
  }

  /** Pixels outside row `slot` are as before. */
  ghost predicate OnlyRow(px: (int, int) -> int, px': (int, int) -> int, slot: nat) {
    forall i, j :: InStrip(slot, 0, SCREEN_W, i, j) || px'(i, j) == px(i, j)
  }

  lemma OthersKept(f: Font, px: (int, int) -> int, px': (int, int) -> int, drawn: seq<Slot>, s: Slot, slot: nat)
    requires |drawn| == VISIBLE && slot < VISIBLE
    requires ShowsRows(f, px, drawn) && OnlyRow(px, px', slot) && ShowsRow(f, px', s, slot)
    ensures ShowsRows(f, px', drawn[slot := s])
  {
    hide RowPixel;
    var drawn' := drawn[slot := s];
    forall k | 0 <= k < VISIBLE
      ensures ShowsRow(f, px', drawn'[k], k)
    {
      if k != slot {
        assert ShowsRow(f, px, drawn[k], k);
        RowsApart(k, slot);
      }
    }
  }

  lemma RowsApart(k: nat, slot: nat)
    requires k != slot
    ensures RowTop(k) + LINE_H <= RowTop(slot) || RowTop(slot) + LINE_H <= RowTop(k)
  {
  }

  lemma BarKept(f: Font, px: (int, int) -> int, px': (int, int) -> int, v: BarView, slot: nat)
    requires OnlyRow(px, px', slot)
    ensures BlackRows(px, BAR_H, SUB_Y) ==> BlackRows(px', BAR_H, SUB_Y)
    ensures ShowsBar(f, px, v) ==> ShowsBar(f, px', v)
  {
    hide Paint, BarPicture;
  }

  lemma BarReplaced(f: Font, px: (int, int) -> int, px': (int, int) -> int, v: BarView, b: seq<byte>, drawn: seq<Slot>)
    requires |drawn| == VISIBLE
    requires Shows(f, b, SCREEN_W, BAR_H, BarPicture(f, v))
    requires Pushed(px, px', 0, 0, SCREEN_W, BAR_H, b)
    ensures ShowsBar(f, px', v)
    ensures ShowsRows(f, px, drawn) ==> ShowsRows(f, px', drawn)
    ensures BlackRows(px, BAR_H, SUB_Y) ==> BlackRows(px', BAR_H, SUB_Y)
  {
    hide PixelOf, Paint, BarPicture, RowPixel;
    forall x, y | 0 <= x < SCREEN_W && 0 <= y < BAR_H
      ensures px'(x, y) == Paint(f, BarPicture(f, v), x, y)
    {
      assert InBand(SCREEN_W, BAR_H, x, y);
    }
    if ShowsRows(f, px, drawn) {
      forall k | 0 <= k < VISIBLE
        ensures ShowsRow(f, px', drawn[k], k)
      {
        assert ShowsRow(f, px, drawn[k], k);
      }
    }
  }

  lemma RowsCleared(f: Font, px: (int, int) -> int, px': (int, int) -> int, b: seq<byte>, top: nat, h: nat)
    requires Shows(f, b, SCREEN_W, h, Fill(BLACK))
    requires Pushed(px, px', 0, top, SCREEN_W, h, b)
    ensures forall i, j :: 0 <= i < SCREEN_W ==> px'(i, j) == if top <= j < top + h then BLACK else px(i, j)
    ensures BlackRows(px, 0, top) ==> BlackRows(px', 0, top + h)
  {
    hide PixelOf;
    forall i, j | 0 <= i < SCREEN_W && top <= j < top + h
      ensures px'(i, j) == BLACK
    {
      assert InBand(SCREEN_W, h, i, j - top);
    }
  }

  /** A black panel shows twelve empty rows. */
  lemma BlackPanel(f: Font, px: (int, int) -> int)
    requires BlackRows(px, 0, SCREEN_H)
    ensures ShowsRows(f, px, seq(VISIBLE, _ => NO_SLOT)) && BlackRows(px, BAR_H, SUB_Y)
  {
    hide RowPixel;
    forall k | 0 <= k < VISIBLE
      ensures ShowsRow(f, px, NO_SLOT, k)
    {
      forall x, y | 0 <= x < SCREEN_W && 0 <= y < LINE_H
        ensures px(x, RowTop(k) + y) == RowPixel(f, NO_SLOT, x, y)
      {
        BlankRow(f, NO_SLOT, x, y);
      }
    }
  }

  // ---------- when the panel heals ----------

  /** The columns a redraw of a row writes. */
  function Strip(f: Font, d: Slot, want: Option<Slot>): (int, int) {
    if want.Some? && CanExtend(f, d, want.value)
    then (TEXT_X + Width(f, d.txt), TEXT_X + Width(f, want.value.txt))
    else (0, SCREEN_W)
  }

  /** Outside columns a to b a row shows the full rendering of a slot. */
  ghost predicate ShowsOutside(f: Font, px: (int, int) -> int, s: Slot, k: nat, a: int, b: int) {
    forall x, y :: 0 <= x < SCREEN_W && 0 <= y < LINE_H ==>
      a <= x < b || px(x, RowTop(k) + y) == RowPixel(f, s, x, y)
  }

  /**
   * What a row must show for redrawing to put it right: all of what is remembered if it will not
   * be redrawn, and what is remembered outside the columns that will be redrawn if it will.
   */
  ghost predicate RowHeals(f: Font, px: (int, int) -> int, d: Slot, want: Option<Slot>, k: nat) {
    if Clean(d, want) then ShowsRow(f, px, d, k)
    else ShowsOutside(f, px, d, k, Strip(f, d, want).0, Strip(f, d, want).1)
  }

  ghost predicate RowsHeal(f: Font, px: (int, int) -> int, drawn: seq<Slot>, rows: seq<Option<Slot>>)
    requires |drawn| == |rows| == VISIBLE
  {
    forall k :: 0 <= k < VISIBLE ==> RowHeals(f, px, drawn[k], rows[k], k)
  }

  /** And of the whole panel: the gap above the rows is never redrawn, the bar only if its key differs. */
  ghost predicate Heals(f: Font, px: (int, int) -> int, m: Memory, w: Want)
    requires |m.drawn| == |w.rows| == VISIBLE
  {
    && RowsHeal(f, px, m.drawn, w.rows)
    && BlackRows(px, BAR_H, SUB_Y)
    && (m.barKey == Key(w.bar) ==> ShowsBar(f, px, w.bar))
  }

  ghost predicate ShowsWanted(f: Font, px: (int, int) -> int, w: Want)
    requires |w.rows| == VISIBLE
  {
    forall x, y :: 0 <= x < SCREEN_W && 0 <= y < SCREEN_H ==> px(x, y) == WantedPixel(f, w, x, y)
  }

  /** Nothing above the rows is different. */
  ghost predicate SameAbove(px: (int, int) -> int, px': (int, int) -> int) {
    forall i, j :: j < SUB_Y ==> px'(i, j) == px(i, j)
  }

  lemma NothingAbove(px: (int, int) -> int)
    ensures SameAbove(px, px)
  {
  }

  lemma SameAboveTwice(p: (int, int) -> int, q: (int, int) -> int, r: (int, int) -> int)
    requires SameAbove(p, q) && SameAbove(q, r)
    ensures SameAbove(p, r)
  {
  }

  ghost predicate SameRow(px: (int, int) -> int, px': (int, int) -> int, k: nat) {
    forall i, j :: RowTop(k) <= j < RowTop(k) + LINE_H ==> px'(i, j) == px(i, j)
  }

  lemma SameRowHeals(f: Font, px: (int, int) -> int, px': (int, int) -> int, d: Slot, want: Option<Slot>, k: nat)
    requires SameRow(px, px', k)
    ensures RowHeals(f, px, d, want, k) <==> RowHeals(f, px', d, want, k)
  {
    hide RowPixel, Clean, Strip;
  }

  /** Redrawing a row heals it exactly if its pixels outside the redrawn columns were right. */
  lemma RedrawHeals(f: Font, px: (int, int) -> int, px': (int, int) -> int, d: Slot, want: Option<Slot>, k: nat)
    requires !Clean(d, want) && OnlyStrip(f, px, px', Target(want), k, Strip(f, d, want).0, Strip(f, d, want).1)
    ensures RowHeals(f, px, d, want, k) <==> RowHeals(f, px', Target(want), want, k)
  {
    hide RowPixel, Clean, Target, Strip;
    TargetIsClean(want);
    var (a, b) := Strip(f, d, want);
    forall x, y | 0 <= x < SCREEN_W && 0 <= y < LINE_H
      ensures a <= x < b ==> px'(x, RowTop(k) + y) == RowPixel(f, Target(want), x, y)
      ensures !(a <= x < b) ==>
        px'(x, RowTop(k) + y) == px(x, RowTop(k) + y) && RowPixel(f, d, x, y) == RowPixel(f, Target(want), x, y)
    {
      if !(a <= x < b) {
        OutsideStripSame(f, d, want, x, y);
      }
    }
  }

  lemma OutsideStripSame(f: Font, d: Slot, want: Option<Slot>, x: int, y: int)
    requires 0 <= x < SCREEN_W && !(Strip(f, d, want).0 <= x < Strip(f, d, want).1)
    ensures RowPixel(f, d, x, y) == RowPixel(f, Target(want), x, y)
  {
    hide RowPixel, CanExtend, Width;
    ExtensionStaysInStrip(f, d, want.value, x, y);
  }

  /** One row redrawn: the rows heal after it exactly if they did before. */
  lemma RowUpdateHeals(f: Font, px: (int, int) -> int, px': (int, int) -> int, drawn: seq<Slot>, rows: seq<Option<Slot>>, slot: nat)
    requires |drawn| == |rows| == VISIBLE && slot < VISIBLE && !Clean(drawn[slot], rows[slot])
    requires var (a, b) := Strip(f, drawn[slot], rows[slot]); OnlyStrip(f, px, px', Target(rows[slot]), slot, a, b)
    ensures RowsHeal(f, px, drawn, rows) <==> RowsHeal(f, px', drawn[slot := Target(rows[slot])], rows)
    ensures SameAbove(px, px')
  {
    hide RowHeals, Clean, Target, Strip, RowPixel;
    var drawn' := drawn[slot := Target(rows[slot])];
    forall k | 0 <= k < VISIBLE
      ensures RowHeals(f, px, drawn[k], rows[k], k) <==> RowHeals(f, px', drawn'[k], rows[k], k)
    {
      if k == slot {
        RedrawHeals(f, px, px', drawn[k], rows[k], k);
      } else {
        RowsApart(k, slot);
        SameRowHeals(f, px, px', drawn[k], rows[k], k);
      }
    }
  }

  lemma RowsHealTogether(f: Font, px: (int, int) -> int, px': (int, int) -> int, drawn: seq<Slot>, rows: seq<Option<Slot>>)
    requires |drawn| == |rows| == VISIBLE && forall k :: 0 <= k < VISIBLE ==> SameRow(px, px', k)
    ensures RowsHeal(f, px, drawn, rows) <==> RowsHeal(f, px', drawn, rows)
  {
    hide RowHeals, SameRow;
    forall k | 0 <= k < VISIBLE
      ensures RowHeals(f, px, drawn[k], rows[k], k) <==> RowHeals(f, px', drawn[k], rows[k], k)
    {
      SameRowHeals(f, px, px', drawn[k], rows[k], k);
    }
  }

  /** The bar redrawn: whatever it showed before no longer matters. */
  lemma BarUpdateHeals(f: Font, px: (int, int) -> int, px': (int, int) -> int, m: Memory, w: Want, b: seq<byte>)
    requires |m.drawn| == |w.rows| == VISIBLE && m.barKey != Key(w.bar)
    requires Shows(f, b, SCREEN_W, BAR_H, BarPicture(f, w.bar)) && Pushed(px, px', 0, 0, SCREEN_W, BAR_H, b)
    ensures Heals(f, px, m, w) <==> Heals(f, px', m.(barKey := Key(w.bar)), w)
  {
    hide RowsHeal, Key, BarPicture, Paint, PixelOf;
    BarReplaced(f, px, px', w.bar, b, m.drawn);
    RowsHealTogether(f, px, px', m.drawn, w.rows);
  }

  /** Rows redrawn under an up-to-date bar. */
  lemma RowsThenPanelHeals(f: Font, px: (int, int) -> int, px': (int, int) -> int, m: Memory, drawn': seq<Slot>, w: Want)
    requires |m.drawn| == |drawn'| == |w.rows| == VISIBLE && SameAbove(px, px')
    requires RowsHeal(f, px, m.drawn, w.rows) <==> RowsHeal(f, px', drawn', w.rows)
    ensures Heals(f, px, m, w) <==> Heals(f, px', m.(drawn := drawn'), w)
  {
    hide RowsHeal, Key, BarPicture, Paint;
  }

  /** Only the key of the wanted bar matters. */
  lemma HealsByKey(f: Font, px: (int, int) -> int, m: Memory, w: Want, v: BarView)
    requires |m.drawn| == |w.rows| == VISIBLE && InRange(w.bar) && InRange(v) && Key(v) == Key(w.bar)
    ensures Heals(f, px, m, w) <==> Heals(f, px, m, w.(bar := v))
  {
    hide RowsHeal, Key, InRange, BarPicture, Paint;
    KeyDecidesPicture(f, v, w.bar);
  }

  /** With nothing left to redraw, healing means showing what is wanted, pixel by pixel. */
  lemma SettledHealsIfShown(f: Font, px: (int, int) -> int, m: Memory, w: Want)
    requires |m.drawn| == |w.rows| == VISIBLE && Settled(m, w)
    ensures Heals(f, px, m, w) <==> ShowsWanted(f, px, w)
  {
    hide Key, BarPicture, RowPixel, Clean, Paint, Target;
    if Heals(f, px, m, w) {
      forall x, y | 0 <= x < SCREEN_W && 0 <= y < SCREEN_H
        ensures px(x, y) == WantedPixel(f, w, x, y)
      {
        if y >= SUB_Y {
          var k, r := (y - SUB_Y) / LINE_H, (y - SUB_Y) % LINE_H;
          assert y == RowTop(k) + r && RowHeals(f, px, m.drawn[k], w.rows[k], k);
          CleanRowShows(f, m.drawn[k], w.rows[k], x, r);
        }
      }
    }
    if ShowsWanted(f, px, w) {
      forall k | 0 <= k < VISIBLE
        ensures RowHeals(f, px, m.drawn[k], w.rows[k], k)
      {
        WantedRowShown(f, px, w, m.drawn[k], k);
      }
    }
  }

  lemma WantedRowShown(f: Font, px: (int, int) -> int, w: Want, d: Slot, k: nat)
    requires |w.rows| == VISIBLE && k < VISIBLE && Clean(d, w.rows[k]) && ShowsWanted(f, px, w)
    ensures ShowsRow(f, px, d, k)
  {
    hide BarPicture, RowPixel, Clean, Paint, Target;
    forall x, y | 0 <= x < SCREEN_W && 0 <= y < LINE_H
      ensures px(x, RowTop(k) + y) == RowPixel(f, d, x, y)
    {
      var j := RowTop(k) + y;
      assert (j - SUB_Y) / LINE_H == k && (j - SUB_Y) % LINE_H == y;
      assert px(x, j) == WantedPixel(f, w, x, j);
      CleanRowShows(f, d, w.rows[k], x, y);
    }
  }

  /** The gap between bar and rows is never redrawn, so a panel without it black cannot heal. */
  lemma GreyGapStays(f: Font, px: (int, int) -> int, m: Memory, w: Want)
    requires |m.drawn| == |w.rows| == VISIBLE && px(0, BAR_H) != BLACK
    ensures !Heals(f, px, m, w)
  {
    hide RowsHeal, Key, ShowsBar;
  }

  /** Nor can one with a mark in a row that is remembered empty and wanted empty. */
  lemma MarkInEmptyRowStays(f: Font, px: (int, int) -> int, m: Memory, w: Want, k: nat, y: nat)
    requires |m.drawn| == |w.rows| == VISIBLE && k < VISIBLE && y < LINE_H
    requires m.drawn[k] == NO_SLOT && w.rows[k].None? && px(0, RowTop(k) + y) != BLACK
    ensures !Heals(f, px, m, w)
  {
    hide Key, ShowsBar, RowPixel;
    BlankRow(f, NO_SLOT, 0, y);
    assert px(0, RowTop(k) + y) != RowPixel(f, NO_SLOT, 0, y);
    assert !ShowsRow(f, px, NO_SLOT, k);
  }

  /** A panel that shows what is remembered heals, whatever is wanted. */
  lemma FaithfulHeals(f: Font, px: (int, int) -> int, m: Memory, shown: BarView, w: Want)
    requires |m.drawn| == |w.rows| == VISIBLE && InRange(w.bar)
    requires ShowsRows(f, px, m.drawn) && BlackRows(px, BAR_H, SUB_Y)
    requires m.barKey != U64_MAX ==> InRange(shown) && m.barKey == Key(shown) && ShowsBar(f, px, shown)
    ensures Heals(f, px, m, w)
  {
    hide Key, InRange, BarPicture, RowPixel, Clean, Paint, Strip;
    KeySplits(w.bar);
    if m.barKey == Key(w.bar) {
      KeyDecidesPicture(f, shown, w.bar);
    }
    forall k | 0 <= k < VISIBLE
      ensures RowHeals(f, px, m.drawn[k], w.rows[k], k)
    {
      assert ShowsRow(f, px, m.drawn[k], k);
    }
  }
}
