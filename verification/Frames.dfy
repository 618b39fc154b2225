/**
 * What the renderer wants on the panel, what it remembers having drawn, and one redraw pass as a
 * function: the row-by-row comparison of src/render.rs and why a few passes settle it.
 */
module Frames {
  import opened Options
  import opened Font
  import Wrap
  import opened Raster
  import opened D = Display
  import opened StatusBar

  const LINE_H: nat := 18
  const BAR_H: nat := 22
  const SUB_Y: nat := 24
  const VISIBLE: nat := 12
  const TEXT_X: int := 4
  const BLACK: Color := 0
  const CARET_COLOR: Color := 0x47F4
  const MAX_PUSH: nat := 2

  /** The remembered content of a subtitle row. */
  datatype Slot = Slot(txt: string, col: Color, caret: bool)

  const NO_SLOT: Slot := Slot("", 0, false)

  // ---------- what a row should show ----------

  predicate IsTyping(s: Subtitles) {
    s.typingRest != "" || s.curLine != ""
  }

  function Total(s: Subtitles): nat {
    |s.history| + if IsTyping(s) then 1 else 0
  }

  /** Row `abs` of the view: the history, then the line being typed. */
  function ViewRow(s: Subtitles, mode: Mode, abs: nat): Slot
    requires abs < Total(s)
  {
    var caret := mode.Listening? && abs == Total(s) - 1;
    if IsTyping(s) && abs == Total(s) - 1 then Slot(s.curLine, s.curColor, caret)
    else Slot(s.history[abs].text, s.history[abs].color, caret)
  }

  /** `desired_row`: the last VISIBLE rows of the view; None for a row that should be empty. */
  function DesiredRow(s: Subtitles, mode: Mode, slot: nat): Option<Slot> {
    var total := Total(s);
    if total == 0 then
      if mode.Listening? && slot == 0 then Some(Slot("", BLACK, true)) else None
    else
      var first := if total > VISIBLE then total - VISIBLE else 0;
      if first + slot >= total then None else Some(ViewRow(s, mode, first + slot))
  }

  function DesiredRows(s: Subtitles, mode: Mode): (rows: seq<Option<Slot>>)
    ensures |rows| == VISIBLE
  {
    seq(VISIBLE, k requires 0 <= k => DesiredRow(s, mode, k))
  }

  /** The lines of the view, oldest first: the history, then the line being typed. */
  function View(s: Subtitles): seq<D.Line> {
    s.history + if IsTyping(s) then [D.Line(s.curLine, s.curColor)] else []
  }

  /**
   * The panel shows exactly the last lines of the view, in order from the top, as many as fit;
   * the caret is on the newest one, and only while listening.
   */
  lemma RowsShowTheNewestLines(s: Subtitles, mode: Mode, slot: nat)
    requires slot < VISIBLE
    ensures var v := View(s);
            var n := if |v| < VISIBLE then |v| else VISIBLE;
            DesiredRows(s, mode)[slot] ==
              if slot < n then
                var line := v[|v| - n + slot];
                Some(Slot(line.text, line.color, mode.Listening? && slot == n - 1))
              else if n == 0 && slot == 0 && mode.Listening? then Some(Slot("", BLACK, true))
              else None
  {
  }

  // ---------- full rendering ----------

  /** A row's picture, its text starting `shift` columns into the band. */
  function RowPicture(f: Font, s: Slot, shift: int): Picture {
    var t := Ink(Fill(BLACK), s.txt, s.col, shift);
    if s.caret then Ink(t, "_", CARET_COLOR, Width(f, s.txt) + shift) else t
  }

  function RowPixel(f: Font, s: Slot, x: int, y: int): int {
    Paint(f, RowPicture(f, s, TEXT_X), x, y)
  }

  /**
   * A row pixel by pixel: the caret's ink behind the text, then the text's ink, four pixels from
   * the left and two from the top, each as far as the text limit; black elsewhere.
   */
  lemma RowPixelIs(f: Font, s: Slot, x: int, y: int)
    ensures var w := Width(f, s.txt);
            RowPixel(f, s, x, y) ==
              if s.caret && x - 4 - w < 232 && On(f, "_", x - 4 - w, y - 2) then 0x47F4
              else if x - 4 < 232 && On(f, s.txt, x - 4, y - 2) then s.col
              else 0
  {
    hide On, Width;
    var w: int := Width(f, s.txt);
    var t := Ink(Fill(BLACK), s.txt, s.col, 4);
    assert Paint(f, t, x, y) == if x - 4 < 232 && On(f, s.txt, x - 4, y - 2) then s.col else 0;
    assert Hit(f, "_", w + 4, x, y) <==> x - (w + 4) < 232 && On(f, "_", x - (w + 4), y - 2);
    assert x - (w + 4) == x - 4 - w;
  }

  /** Drawing only the columns from sx0 on draws the same pixels there. */
  lemma ShiftedRow(f: Font, s: Slot, sx0: int, x: int, y: int)
    ensures Paint(f, RowPicture(f, s, TEXT_X - sx0), x - sx0, y) == RowPixel(f, s, x, y)
  {
    hide On, Width;
    var t := Ink(Fill(BLACK), s.txt, s.col, TEXT_X - sx0);
    var u := Ink(Fill(BLACK), s.txt, s.col, TEXT_X);
    assert Paint(f, t, x - sx0, y) == Paint(f, u, x, y);
  }

  /** The conditions under which only the new part of a row is redrawn. */
  predicate CanExtend(f: Font, d: Slot, s: Slot) {
    && !s.caret && !d.caret && d.col == s.col && d.txt != ""
    && d.txt <= s.txt
    && Width(f, s.txt) > Width(f, d.txt)
    && Width(f, s.txt) <= Wrap.SUB_W
  }

  /** Outside the strip between the old and the new width, a prefix extension changes nothing. */
  lemma ExtensionStaysInStrip(f: Font, d: Slot, s: Slot, x: int, y: int)
    requires CanExtend(f, d, s)
    requires x < TEXT_X + Width(f, d.txt) || x >= TEXT_X + Width(f, s.txt)
    ensures RowPixel(f, s, x, y) == RowPixel(f, d, x, y)
  {
    hide On, Width;
    var more := s.txt[|d.txt|..];
    assert s.txt == d.txt + more;
    if x - TEXT_X < Width(f, d.txt) {
      OnPrefix(f, d.txt, more, x - TEXT_X, y - TEXT_TOP);
    } else {
      if On(f, s.txt, x - TEXT_X, y - TEXT_TOP) {
        OnInsideWidth(f, s.txt, x - TEXT_X, y - TEXT_TOP);
      }
      if On(f, d.txt, x - TEXT_X, y - TEXT_TOP) {
        OnInsideWidth(f, d.txt, x - TEXT_X, y - TEXT_TOP);
      }
    }
  }

  lemma BlankRow(f: Font, s: Slot, x: int, y: int)
    requires s.txt == "" && !s.caret
    ensures RowPixel(f, s, x, y) == BLACK
  {
    assert !On(f, "", x - TEXT_X, y - TEXT_TOP);
    assert Paint(f, Fill(BLACK), x, y) == BLACK;
  }

  // ---------- one pass ----------

  /** The comparison with the remembered row; for an empty row its colour does not matter. */
  predicate Clean(d: Slot, want: Option<Slot>) {
    match want
    case None => d.txt == "" && !d.caret
    case Some(s) => d == s
  }

  function Target(want: Option<Slot>): Slot {
    match want
    case None => NO_SLOT
    case Some(s) => s
  }

  /** The rows remembered after a pass from `slot` on, with `pushed` windows already pushed. */
  function Pass(drawn: seq<Slot>, rows: seq<Option<Slot>>, slot: nat, pushed: nat): (drawn': seq<Slot>)
    requires |drawn| == |rows| == VISIBLE && slot <= VISIBLE
    ensures |drawn'| == VISIBLE
    decreases VISIBLE - slot
  {
    if slot == VISIBLE || pushed >= MAX_PUSH then drawn
    else if Clean(drawn[slot], rows[slot]) then Pass(drawn, rows, slot + 1, pushed)
    else Pass(drawn[slot := Target(rows[slot])], rows, slot + 1, pushed + 1)
  }

  /** Each row is as before or as wanted: where a call that a failed write cut short may leave off. */
  ghost predicate PartWay(drawn: seq<Slot>, drawn': seq<Slot>, rows: seq<Option<Slot>>) {
    && |drawn| == |drawn'| == |rows|
    && forall k :: 0 <= k < |drawn| ==> drawn'[k] == drawn[k] || drawn'[k] == Target(rows[k])
  }

  lemma NothingChanged(drawn: seq<Slot>, rows: seq<Option<Slot>>)
    requires |drawn| == |rows|
    ensures PartWay(drawn, drawn, rows)
  {
  }

  lemma RowChanged(drawn: seq<Slot>, drawn': seq<Slot>, rows: seq<Option<Slot>>, slot: nat)
    requires PartWay(drawn, drawn', rows) && slot < |rows|
    ensures PartWay(drawn, drawn'[slot := Target(rows[slot])], rows)
  {
  }

  /** What the renderer remembers: the rows and the bar's key. */
  datatype Memory = Memory(drawn: seq<Slot>, barKey: nat)

  /** What it wants shown. */
  datatype Want = Want(rows: seq<Option<Slot>>, bar: BarView)

  function Frame(m: Memory, w: Want): (m': Memory)
    requires |m.drawn| == |w.rows| == VISIBLE
    ensures |m'.drawn| == VISIBLE
  {
    if m.barKey != Key(w.bar) then Memory(Pass(m.drawn, w.rows, 0, 1), Key(w.bar))
    else Memory(Pass(m.drawn, w.rows, 0, 0), m.barKey)
  }

  /** One step of a pass. */
  lemma PassUnfolds(drawn: seq<Slot>, rows: seq<Option<Slot>>, slot: nat, pushed: nat)
    requires |drawn| == |rows| == VISIBLE && slot <= VISIBLE && pushed <= MAX_PUSH
    ensures slot == VISIBLE || pushed >= MAX_PUSH ==> Pass(drawn, rows, slot, pushed) == drawn && Budget(drawn, rows, slot, pushed) == 0
    ensures slot < VISIBLE && pushed < MAX_PUSH ==>
      if Clean(drawn[slot], rows[slot]) then
        && Pass(drawn, rows, slot, pushed) == Pass(drawn, rows, slot + 1, pushed)
        && Budget(drawn, rows, slot, pushed) == Budget(drawn, rows, slot + 1, pushed)
      else
        var next := drawn[slot := Target(rows[slot])];
        && Pass(drawn, rows, slot, pushed) == Pass(next, rows, slot + 1, pushed + 1)
        && Budget(drawn, rows, slot, pushed) == 1 + Budget(next, rows, slot + 1, pushed + 1)
  {
    hide Clean;
    if slot < VISIBLE {
      DirtyElsewhere(drawn, rows, slot, Target(rows[slot]), slot + 1);
    }
  }

  // ---------- settling ----------

  /** How many windows a pass from `slot` on still sends. */
  function Budget(drawn: seq<Slot>, rows: seq<Option<Slot>>, slot: nat, pushed: nat): nat
    requires |drawn| == |rows| == VISIBLE && slot <= VISIBLE && pushed <= MAX_PUSH
  {
    var n := DirtyRows(drawn, rows, slot);
    if n > MAX_PUSH - pushed then MAX_PUSH - pushed else n
  }

  /** How many windows a frame sends: as many as differ, at most two. */
  function Windows(m: Memory, w: Want): (n: nat)
    requires |m.drawn| == |w.rows| == VISIBLE
    ensures n == if Dirty(m, w) > MAX_PUSH then MAX_PUSH else Dirty(m, w)
  {
    if m.barKey != Key(w.bar) then 1 + Budget(m.drawn, w.rows, 0, 1) else Budget(m.drawn, w.rows, 0, 0)
  }

  /** How many rows from `slot` on differ from what is wanted. */
  function DirtyRows(drawn: seq<Slot>, rows: seq<Option<Slot>>, slot: nat): nat
    requires |drawn| == |rows| == VISIBLE && slot <= VISIBLE
    decreases VISIBLE - slot
  {
    if slot == VISIBLE then 0
    else (if Clean(drawn[slot], rows[slot]) then 0 else 1) + DirtyRows(drawn, rows, slot + 1)
  }

  function Dirty(m: Memory, w: Want): nat
    requires |m.drawn| == |w.rows| == VISIBLE
  {
    (if m.barKey == Key(w.bar) then 0 else 1) + DirtyRows(m.drawn, w.rows, 0)
  }

  lemma {:induction false} DirtyBounded(drawn: seq<Slot>, rows: seq<Option<Slot>>, slot: nat)
    requires |drawn| == |rows| == VISIBLE && slot <= VISIBLE
    ensures DirtyRows(drawn, rows, slot) <= VISIBLE - slot
    decreases VISIBLE - slot
  {
    if slot < VISIBLE {
      DirtyBounded(drawn, rows, slot + 1);
    }
  }

  lemma {:induction false} DirtyElsewhere(drawn: seq<Slot>, rows: seq<Option<Slot>>, k: nat, s: Slot, slot: nat)
    requires |drawn| == |rows| == VISIBLE && k < slot <= VISIBLE
    ensures DirtyRows(drawn[k := s], rows, slot) == DirtyRows(drawn, rows, slot)
    decreases VISIBLE - slot
  {
    if slot < VISIBLE {
      DirtyElsewhere(drawn, rows, k, s, slot + 1);
    }
  }

  lemma TargetIsClean(want: Option<Slot>)
    ensures Clean(Target(want), want)
  {
  }

  /** Rows before `slot` are not touched. */
  lemma {:induction false} PassLeavesEarlier(drawn: seq<Slot>, rows: seq<Option<Slot>>, slot: nat, pushed: nat, k: nat)
    requires |drawn| == |rows| == VISIBLE && k < slot <= VISIBLE
    ensures Pass(drawn, rows, slot, pushed)[k] == drawn[k]
    decreases VISIBLE - slot
  {
    if slot < VISIBLE && pushed < MAX_PUSH {
      if Clean(drawn[slot], rows[slot]) {
        PassLeavesEarlier(drawn, rows, slot + 1, pushed, k);
      } else {
        PassLeavesEarlier(drawn[slot := Target(rows[slot])], rows, slot + 1, pushed + 1, k);
      }
    }
  }

  /** A pass cleans as many dirty rows as it may still push, and dirties none. */
  lemma {:induction false} PassCleans(drawn: seq<Slot>, rows: seq<Option<Slot>>, slot: nat, pushed: nat)
    requires |drawn| == |rows| == VISIBLE && slot <= VISIBLE && pushed <= MAX_PUSH
    ensures var n, n' := DirtyRows(drawn, rows, slot), DirtyRows(Pass(drawn, rows, slot, pushed), rows, slot);
            n' == if n > MAX_PUSH - pushed then n - (MAX_PUSH - pushed) else 0
    decreases VISIBLE - slot
  {
    if slot < VISIBLE && pushed < MAX_PUSH {
      if Clean(drawn[slot], rows[slot]) {
        PassCleans(drawn, rows, slot + 1, pushed);
        PassLeavesEarlier(drawn, rows, slot + 1, pushed, slot);
      } else {
        var next := drawn[slot := Target(rows[slot])];
        TargetIsClean(rows[slot]);
        DirtyElsewhere(drawn, rows, slot, Target(rows[slot]), slot + 1);
        PassCleans(next, rows, slot + 1, pushed + 1);
        PassLeavesEarlier(next, rows, slot + 1, pushed + 1, slot);
      }
    }
  }

  /** A frame asks the wanted bar only for its key. */
  lemma FrameByKey(m: Memory, w: Want, v: BarView)
    requires |m.drawn| == |w.rows| == VISIBLE && Key(v) == Key(w.bar)
    ensures Frame(m, w.(bar := v)) == Frame(m, w) && Windows(m, w.(bar := v)) == Windows(m, w)
  {
    hide Key, Pass, Budget;
  }

  /** Each pass removes two differences, until none is left. */
  lemma FrameCleans(m: Memory, w: Want)
    requires |m.drawn| == |w.rows| == VISIBLE
    ensures Dirty(Frame(m, w), w) == if Dirty(m, w) > 2 then Dirty(m, w) - 2 else 0
  {
    hide Key, DirtyRows, Pass;
    PassCleans(m.drawn, w.rows, 0, if m.barKey != Key(w.bar) then 1 else 0);
  }

  function AfterFrames(m: Memory, w: Want, n: nat): (m': Memory)
    requires |m.drawn| == |w.rows| == VISIBLE
    ensures |m'.drawn| == VISIBLE
  {
    if n == 0 then m else Frame(AfterFrames(m, w, n - 1), w)
  }

  lemma {:induction false} FramesClean(m: Memory, w: Want, n: nat)
    requires |m.drawn| == |w.rows| == VISIBLE
    ensures Dirty(AfterFrames(m, w, n), w) <= if Dirty(m, w) > 2 * n then Dirty(m, w) - 2 * n else 0
  {
    hide Dirty, Frame;
    if n > 0 {
      FramesClean(m, w, n - 1);
      FrameCleans(AfterFrames(m, w, n - 1), w);
    }
  }

  /** Everything remembered is what is wanted. */
  predicate Settled(m: Memory, w: Want)
    requires |m.drawn| == |w.rows| == VISIBLE
  {
    m.barKey == Key(w.bar) && forall k :: 0 <= k < VISIBLE ==> Clean(m.drawn[k], w.rows[k])
  }

  lemma {:induction false} NoneDirty(drawn: seq<Slot>, rows: seq<Option<Slot>>, slot: nat)
    requires |drawn| == |rows| == VISIBLE && slot <= VISIBLE
    ensures DirtyRows(drawn, rows, slot) == 0 <==> forall k :: slot <= k < VISIBLE ==> Clean(drawn[k], rows[k])
    decreases VISIBLE - slot
  {
    if slot < VISIBLE {
      NoneDirty(drawn, rows, slot + 1);
    }
  }

  lemma SettledIsClean(m: Memory, w: Want)
    requires |m.drawn| == |w.rows| == VISIBLE
    ensures Settled(m, w) <==> Dirty(m, w) == 0
  {
    hide Key, Clean;
    NoneDirty(m.drawn, w.rows, 0);
  }

  /**
   * A frame that finds nothing different changes nothing. In particular damage a failed write
   * left on the panel stays: what decides is what is remembered, and that is not forgotten.
   */
  lemma SettledStaysPut(m: Memory, w: Want)
    requires |m.drawn| == |w.rows| == VISIBLE
    ensures Settled(m, w) <==> Windows(m, w) == 0
    ensures Settled(m, w) ==> Frame(m, w) == m
  {
    hide Key;
    SettledIsClean(m, w);
    if Settled(m, w) {
      CleanPass(m.drawn, w.rows, 0);
    }
  }

  lemma {:induction false} CleanPass(drawn: seq<Slot>, rows: seq<Option<Slot>>, slot: nat)
    requires |drawn| == |rows| == VISIBLE && slot <= VISIBLE
    requires forall k :: slot <= k < VISIBLE ==> Clean(drawn[k], rows[k])
    ensures Pass(drawn, rows, slot, 0) == drawn
    decreases VISIBLE - slot
  {
    if slot < VISIBLE {
      CleanPass(drawn, rows, slot + 1);
    }
  }

  /** With the display and the bar frozen, seven passes settle everything, whatever was drawn. */
  lemma SettlesInSevenFrames(m: Memory, w: Want, n: nat)
    requires |m.drawn| == |w.rows| == VISIBLE && n >= 7
    ensures Settled(AfterFrames(m, w, n), w)
  {
    hide AfterFrames, Key, Clean;
    DirtyBounded(m.drawn, w.rows, 0);
    FramesClean(m, w, n);
    NoneDirty(AfterFrames(m, w, n).drawn, w.rows, 0);
  }
}
