/**
 * The renderer object of src/render.rs: what it pushes keeps the panel equal to the full
 * rendering of what it remembers, and what it remembers follows Frames.Frame.
 */
module Renderer {
  import opened Bytes
  import opened Options
  import opened Font
  import opened Raster
  import opened Display
  import opened Screen
  import opened StatusBar
  import opened Frames
  import opened Panel

  const BAR_HOLD_MS: nat := 800
  const RECOVER_INTERVAL_MS: nat := 2000
  const BAND_BYTES: nat := 2 * (SCREEN_W * BAR_H)

  /** What is remembered at take-over. */
  const NOTHING_DRAWN: Memory := Frames.Memory(seq(VISIBLE, _ => NO_SLOT), U64_MAX)

  predicate AllTaken(writes: nat -> Write, lo: int, hi: int)
    requires 0 <= lo
  {
    forall i :: lo <= i < hi ==> writes(i).Taken?
  }

  class Renderer {
    const font: Font
    const band: array<byte>
    var drawn: seq<Slot>
    var barKey: nat
    var startMs: u32
    var recoverAt: u32
    var clearRow: nat
    var taken: bool
    /** The bar view last drawn. */
    ghost var shown: BarView

    ghost predicate Shape()
      reads this
    {
      band.Length == BAND_BYTES && |drawn| == VISIBLE
    }

    function Memory(): Memory
      reads this
    {
      Frames.Memory(drawn, barKey)
    }

    /**
     * Before take-over the panel is black down to `clearRow`. After it, every subtitle row shows
     * the full rendering of its remembered slot, and the bar the view its key was made from.
     */
    ghost predicate Faithful(px: (int, int) -> int)
      requires Shape()
      reads this
    {
      if taken then
        && startMs != 0
        && ShowsRows(font, px, drawn)
        && BlackRows(px, BAR_H, SUB_Y)
        && (barKey != U64_MAX ==> InRange(shown) && barKey == Key(shown) && ShowsBar(font, px, shown))
      else
        clearRow < SCREEN_H && BlackRows(px, 0, clearRow)
    }

    /** The panel is faithful as long as no write has ever failed. */
    ghost predicate Sound(screen: Screen)
      requires Shape()
      reads this, screen
    {
      screen.clean ==> Faithful(screen.px)
    }

    constructor (font: Font)
      ensures Shape() && fresh(band) && !taken && clearRow == 0 && this.font == font
      ensures startMs == 0 && recoverAt == 0
      ensures forall px: (int, int) -> int :: Faithful(px)
    {
      this.font := font;
      band := new byte[BAND_BYTES](_ => 0);
      drawn := seq(VISIBLE, _ => NO_SLOT);
      barKey, startMs, recoverAt, clearRow, taken := U64_MAX, 0, 0, 0, false;
      shown := BarView(Idle, false, 0, Unsynced, None, false);
    }

    // ---------- one row ----------

    /** `paint_row`: columns [sx0, sx1) of a row, cut to the panel. */
    method PaintRow(screen: Screen, slot: nat, s: Slot, sx0: int, sx1: int, write: Write) returns (painted: bool)
      requires Shape() && screen.ok && slot < VISIBLE && 0 <= sx0 < sx1 <= SCREEN_W
      modifies band, screen
      ensures painted == screen.ok == write.Taken? && screen.pushes == old(screen.pushes) + 1
      ensures screen.clean == (painted && old(screen.clean))
      ensures painted ==> OnlyStrip(font, old(screen.px), screen.px, s, slot, sx0, sx1)
      ensures !painted ==> screen.px == write.noise
    {
      hide PixelOf, Paint, RowPicture, On, Hit;
      var w := sx1 - sx0;
      var n := w * LINE_H * 2;
      assert n == 2 * (w * LINE_H) <= band.Length;
      FillColor(font, band, w, LINE_H, BLACK);
      var shift := TEXT_X - sx0;
      DrawText(font, band, w, LINE_H, s.txt, s.col, shift, Fill(BLACK));
      ghost var pic := Ink(Fill(BLACK), s.txt, s.col, shift);
      if s.caret {
        DrawText(font, band, w, LINE_H, "_", CARET_COLOR, Width(font, s.txt) + shift, pic);
        pic := Ink(pic, "_", CARET_COLOR, Width(font, s.txt) + shift);
      }
      assert pic == RowPicture(font, s, shift) by { RowPictureIs(font, s, shift); }
      assert Shows(font, band[..], w, LINE_H, pic);
      ghost var px := screen.px;
      painted := screen.PushBand(sx0, RowTop(slot), w, LINE_H, band, n, write);
      if painted {
        StripPushed(font, px, screen.px, s, slot, sx0, sx1, band[..]);
      }
    }

    /**
     * Redraw one row that differs, whole or only its new end; only a row painted is remembered,
     * and painting it writes exactly the strip, whatever the panel showed.
     */
    method UpdateRow(screen: Screen, slot: nat, want: Option<Slot>, write: Write) returns (painted: bool)
      requires Shape() && taken && screen.ok && Sound(screen) && slot < VISIBLE
      modifies this`drawn, band, screen
      ensures painted == screen.ok == write.Taken? && screen.pushes == old(screen.pushes) + 1
      ensures screen.clean == (painted && old(screen.clean))
      ensures Shape() && drawn == if painted then old(drawn)[slot := Target(want)] else old(drawn)
      ensures Sound(screen)
      ensures painted ==>
        var (a, b) := Strip(font, old(drawn)[slot], want);
        OnlyStrip(font, old(screen.px), screen.px, Target(want), slot, a, b)
      ensures !painted ==> screen.px == write.noise
    {
      hide RowPixel, Paint, BarPicture, Key, CanExtend, InRange;
      ghost var px := screen.px;
      var s := Target(want);
      var d := drawn[slot];
      if want.Some? && CanExtend(font, d, s) {
        ExtendBounds(font, d, s);
        painted := PaintRow(screen, slot, s, TEXT_X + Width(font, d.txt), TEXT_X + Width(font, s.txt), write);
        if painted && screen.clean {
          RowExtended(font, px, screen.px, d, s, slot);
        }
      } else {
        painted := PaintRow(screen, slot, s, 0, SCREEN_W, write);
        if painted {
          RowReplaced(font, px, screen.px, s, slot);
        }
      }
      if !painted {
        return;
      }
      if screen.clean {
        OthersKept(font, px, screen.px, drawn, s, slot);
        BarKept(font, px, screen.px, shown, slot);
      }
      drawn := drawn[slot := s];
    }

    /**
     * The rows of one pass, in order, at most MAX_PUSH windows in all: as many as differ, and none
     * if none does. A write that fails ends the call, and only rows painted are remembered.
     */
    method UpdateRows(screen: Screen, rows: seq<Option<Slot>>, pushed0: nat, writes: nat -> Write)
      requires Shape() && taken && screen.ok && Sound(screen) && |rows| == VISIBLE && pushed0 <= MAX_PUSH
      modifies this`drawn, band, screen
      ensures Shape() && Sound(screen)
      ensures screen.ok ==> screen.clean == old(screen.clean)
      ensures screen.ok ==> drawn == Pass(old(drawn), rows, 0, pushed0)
      ensures screen.ok ==> screen.pushes == old(screen.pushes) + Budget(old(drawn), rows, 0, pushed0)
      ensures old(screen.pushes) <= screen.pushes <= old(screen.pushes) + (MAX_PUSH - pushed0)
      ensures screen.pushes == old(screen.pushes) ==> screen.px == old(screen.px) && screen.ok
      ensures !screen.ok ==> PartWay(old(drawn), drawn, rows)
      ensures !screen.ok ==> exists i :: writes(i).Failed? && screen.px == writes(i).noise
      ensures screen.ok ==> AllTaken(writes, pushed0, pushed0 + (screen.pushes - old(screen.pushes)))
      ensures screen.ok ==>
        && SameAbove(old(screen.px), screen.px)
        && (RowsHeal(font, old(screen.px), old(drawn), rows) <==> RowsHeal(font, screen.px, drawn, rows))
    {
      hide Sound, Pass, Clean, Budget, PartWay, Target, RowsHeal, SameAbove, Strip, OnlyStrip;
      NothingAbove(screen.px);
      var pushed := pushed0;
      var slot := 0;
      NothingChanged(drawn, rows);
      while slot < VISIBLE
        invariant slot <= VISIBLE && pushed0 <= pushed <= MAX_PUSH
        invariant Shape() && Sound(screen) && screen.ok && screen.clean == old(screen.clean)
        invariant Pass(old(drawn), rows, 0, pushed0) == Pass(drawn, rows, slot, pushed)
        invariant screen.pushes == old(screen.pushes) + (pushed - pushed0)
        invariant Budget(old(drawn), rows, 0, pushed0) == (pushed - pushed0) + Budget(drawn, rows, slot, pushed)
        invariant pushed == pushed0 ==> screen.px == old(screen.px)
        invariant PartWay(old(drawn), drawn, rows)
        invariant AllTaken(writes, pushed0, pushed)
        invariant SameAbove(old(screen.px), screen.px)
        invariant RowsHeal(font, old(screen.px), old(drawn), rows) <==> RowsHeal(font, screen.px, drawn, rows)
      {
        PassUnfolds(drawn, rows, slot, pushed);
        if pushed >= MAX_PUSH {
          return;
        }
        if !Clean(drawn[slot], rows[slot]) {
          ghost var before, px := drawn, screen.px;
          var painted := UpdateRow(screen, slot, rows[slot], writes(pushed));
          if !painted {
            return;
          }
          RowChanged(old(drawn), before, rows, slot);
          RowUpdateHeals(font, px, screen.px, before, rows, slot);
          SameAboveTwice(old(screen.px), px, screen.px);
          pushed := pushed + 1;
        }
        slot := slot + 1;
      }
      PassUnfolds(drawn, rows, slot, pushed);
    }

    // ---------- the status bar ----------

    method DrawWifi(m: Mode, ghost p: Picture)
      requires Shape() && Shows(font, band[..], SCREEN_W, BAR_H, p)
      modifies band
      ensures Shows(font, band[..], SCREEN_W, BAR_H, WifiPicture(p, m))
    {
      hide Shows;
      var c := WifiColor(m);
      FillRect(font, band, SCREEN_W, BAR_H, 190, 10, 3, 5, c, p);
      FillRect(font, band, SCREEN_W, BAR_H, 195, 7, 3, 8, c, Rect(p, 190, 10, 3, 5, c));
      FillRect(font, band, SCREEN_W, BAR_H, 200, 4, 3, 11, c, Rect(Rect(p, 190, 10, 3, 5, c), 195, 7, 3, 8, c));
    }

    method DrawBattery(b: Option<byte>, charging: bool, ghost p: Picture)
      requires Shape() && Shows(font, band[..], SCREEN_W, BAR_H, p)
      modifies band
      ensures Shows(font, band[..], SCREEN_W, BAR_H, BattPicture(font, p, b, charging))
    {
      hide Shows;
      var text := BattText(b);
      var bw: int := Width(font, text);
      DrawText(font, band, SCREEN_W, BAR_H, text, 0xFFFF, 237 - bw, p);
      if charging {
        var bx: int := 237 - bw - 8;
        ghost var q := Ink(p, text, 0xFFFF, 237 - bw);
        var _ := DrawLine(font, band, SCREEN_W, BAR_H, bx + 2, 3, bx, 8, 0xFFE0, q);
        ghost var q1 := Stroke(q, bx + 2, 3, bx, 8, 0xFFE0);
        var _ := DrawLine(font, band, SCREEN_W, BAR_H, bx, 8, bx + 3, 8, 0xFFE0, q1);
        var _ := DrawLine(font, band, SCREEN_W, BAR_H, bx + 3, 8, bx + 1, 13, 0xFFE0, Stroke(q1, bx, 8, bx + 3, 8, 0xFFE0));
      }
    }

    method DrawBar(v: BarView)
      requires Shape()
      modifies band
      ensures Shows(font, band[..], SCREEN_W, BAR_H, BarPicture(font, v))
    {
      hide Shows, WifiPicture, BattPicture;
      FillColor(font, band, SCREEN_W, BAR_H, BAR_BG);
      DrawText(font, band, SCREEN_W, BAR_H, ModeText(v.mode), ModeColor(v.mode), 6, Fill(BAR_BG));
      ghost var p := Ink(Fill(BAR_BG), ModeText(v.mode), ModeColor(v.mode), 6);
      if v.volShown {
        DrawText(font, band, SCREEN_W, BAR_H, VolumeText(v.volume), 0x07FF, 176, p);
      } else {
        DrawText(font, band, SCREEN_W, BAR_H, ClockText(v.clock), 0xFFFF, 150, p);
        p := Ink(p, ClockText(v.clock), 0xFFFF, 150);
        DrawWifi(v.mode, p);
        DrawBattery(v.batt, v.charging, WifiPicture(p, v.mode));
      }
    }

    method PushBar(screen: Screen, v: BarView, write: Write) returns (pushed: bool)
      requires Shape() && taken && screen.ok && Sound(screen) && InRange(v)
      modifies this`barKey, this`shown, band, screen
      ensures pushed == screen.ok == write.Taken? && screen.pushes == old(screen.pushes) + 1
      ensures screen.clean == (pushed && old(screen.clean))
      ensures Shape() && Sound(screen) && barKey == if pushed then Key(v) else old(barKey)
      ensures pushed ==> forall w: Want :: |w.rows| == VISIBLE && w.bar == v && old(barKey) != Key(v) ==>
        (Heals(font, old(screen.px), old(Memory()), w) <==> Heals(font, screen.px, Memory(), w))
      ensures !pushed ==> screen.px == write.noise
    {
      hide PixelOf, Paint, BarPicture, RowPixel, Key, InRange, Heals;
      ghost var px := screen.px;
      DrawBar(v);
      pushed := screen.PushBand(0, 0, SCREEN_W, BAR_H, band, BAND_BYTES, write);
      if !pushed {
        return;
      }
      BarReplaced(font, px, screen.px, v, band[..], drawn);
      forall w: Want | |w.rows| == VISIBLE && w.bar == v && barKey != Key(v)
        ensures Heals(font, px, Memory(), w) <==> Heals(font, screen.px, Memory().(barKey := Key(v)), w)
      {
        BarUpdateHeals(font, px, screen.px, Memory(), w, band[..]);
      }
      barKey := Key(v);
      shown := v;
    }

    // ---------- the call ----------

    /** One step of the take-over: the next rows of the panel cleared, whether or not the write went through. */
    method ClearNext(screen: Screen, write: Write)
      requires Shape() && !taken && screen.ok && clearRow < SCREEN_H && Sound(screen) && startMs != 0
      modifies this, band, screen
      ensures Shape() && Sound(screen) && startMs == old(startMs) && recoverAt == old(recoverAt)
      ensures screen.ok == write.Taken? && screen.pushes == old(screen.pushes) + 1
      ensures screen.clean == (screen.ok && old(screen.clean))
      ensures taken <==> old(clearRow) + LINE_H >= SCREEN_H
      ensures !taken ==> clearRow == old(clearRow) + LINE_H && Memory() == old(Memory())
      ensures taken ==> Memory() == NOTHING_DRAWN
      ensures screen.ok ==> forall i, j :: 0 <= i < SCREEN_W && j < SCREEN_H ==>
        screen.px(i, j) == if old(clearRow) <= j < old(clearRow) + LINE_H then BLACK else old(screen.px)(i, j)
      ensures !screen.ok ==> screen.px == write.noise
    {
      hide PixelOf, RowPixel, Paint;
      ghost var px := screen.px;
      var h := if LINE_H < SCREEN_H - clearRow then LINE_H else SCREEN_H - clearRow;
      var n := SCREEN_W * h * 2;
      assert n == 2 * (SCREEN_W * h);
      FillColor(font, band, SCREEN_W, h, BLACK);
      var pushed := screen.PushBand(0, clearRow, SCREEN_W, h, band, n, write);
      if pushed {
        RowsCleared(font, px, screen.px, band[..], clearRow, h);
      }
      clearRow := clearRow + h;
      if clearRow >= SCREEN_H {
        drawn := seq(VISIBLE, _ => NO_SLOT);
        taken := true;
        barKey := U64_MAX;
        if screen.clean {
          BlackPanel(font, screen.px);
        }
      }
    }

    /** A call while the panel is down: only set it up again, at most every two seconds. */
    method Recover(screen: Screen, now: u32, works: bool)
      requires Shape() && !screen.ok && Sound(screen)
      modifies this`recoverAt, screen`ok, screen`clean
      ensures Shape() && Sound(screen)
      ensures var again := (now - old(recoverAt)) % 0x1_0000_0000 >= RECOVER_INTERVAL_MS;
              && screen.ok == (again && works)
              && recoverAt == (if again then now else old(recoverAt))
    {
      if (now - recoverAt) % 0x1_0000_0000 >= RECOVER_INTERVAL_MS {
        recoverAt := now;
        screen.TryRecover(works);
      }
    }

    /** One frame: the bar if its key differs, then the rows. */
    method DrawFrame(screen: Screen, want: Want, writes: nat -> Write)
      requires Shape() && taken && screen.ok && Sound(screen) && |want.rows| == VISIBLE && InRange(want.bar)
      modifies this`drawn, this`barKey, this`shown, band, screen
      ensures Shape() && Sound(screen)
      ensures screen.pushes <= old(screen.pushes) + MAX_PUSH
      ensures screen.ok ==>
        && Memory() == Frame(old(Memory()), want)
        && screen.clean == old(screen.clean)
        && screen.pushes == old(screen.pushes) + Windows(old(Memory()), want)
      ensures !screen.ok ==>
        && PartWay(old(drawn), drawn, want.rows)
        && (barKey == old(barKey) || barKey == Key(want.bar))
      ensures screen.pushes == old(screen.pushes) ==> screen.px == old(screen.px)
      ensures !screen.ok ==> exists i :: writes(i).Failed? && screen.px == writes(i).noise
      ensures screen.ok ==> AllTaken(writes, 0, screen.pushes - old(screen.pushes))
      ensures screen.ok ==>
        (Heals(font, old(screen.px), old(Memory()), want) <==> Heals(font, screen.px, Memory(), want))
    {
      hide Sound, Key, InRange, Pass, Budget, PartWay, Heals, RowsHeal, SameAbove;
      var pushed := 0;
      NothingChanged(drawn, want.rows);
      if barKey != Key(want.bar) {
        var painted := PushBar(screen, want.bar, writes(0));
        if !painted {
          return;
        }
        pushed := 1;
      }
      ghost var px, m := screen.px, Memory();
      UpdateRows(screen, want.rows, pushed, writes);
      if screen.ok {
        RowsThenPanelHeals(font, px, screen.px, m, drawn, want);
      }
    }

    /**
     * `tick`. A panel that is down is only set up again now and then. While the boot bars are
     * held nothing is sent; then the panel is cleared a row a call; then each call is one frame,
     * sending exactly as many windows as differ, up to two. As long as no write has ever failed
     * the panel shows the full rendering of what is remembered; after a failure, a frame that goes
     * through neither makes nor breaks what the panel needs to heal.
     */
    method Tick(disp: Display, screen: Screen, now: u32, clock: Clock, writes: nat -> Write, works: bool)
      requires Shape() && Sound(screen) && (!taken ==> clearRow < SCREEN_H) && (taken ==> startMs != 0)
      requires disp.volume >= 0 && InRange(ViewOf(disp.Bar(), now, clock))
      modifies this, band, screen
      ensures Shape() && Sound(screen) && (!taken ==> clearRow < SCREEN_H) && (taken ==> startMs != 0)
      ensures screen.pushes <= old(screen.pushes) + MAX_PUSH
      ensures var held := (now - startMs) % 0x1_0000_0000 < BAR_HOLD_MS;
              var want := Want(DesiredRows(disp.Subs(), disp.state), ViewOf(disp.Bar(), now, clock));
              if !old(screen.ok) then
                && Memory() == old(Memory()) && taken == old(taken) && clearRow == old(clearRow)
                && startMs == old(startMs) && screen.pushes == old(screen.pushes) && screen.px == old(screen.px)
                && screen.ok == ((now - old(recoverAt)) % 0x1_0000_0000 >= RECOVER_INTERVAL_MS && works)
              else
                && recoverAt == old(recoverAt)
                && startMs == (if old(startMs) == 0 then now else old(startMs))
                && if held then
                     && Memory() == old(Memory()) && taken == old(taken) && clearRow == old(clearRow)
                     && screen.px == old(screen.px) && screen.ok
                   else if !old(taken) then
                     && (taken <==> old(clearRow) + LINE_H >= SCREEN_H)
                     && (!taken ==> clearRow == old(clearRow) + LINE_H)
                     && (taken ==> Memory() == NOTHING_DRAWN)
                   else
                     && taken
                     && (screen.ok ==> Memory() == Frame(old(Memory()), want)
                                       && screen.pushes == old(screen.pushes) + Windows(old(Memory()), want))
                     && (!screen.ok ==> PartWay(old(drawn), drawn, want.rows)
                                        && (barKey == old(barKey) || barKey == Key(want.bar)))
                     && (screen.pushes == old(screen.pushes) ==> screen.px == old(screen.px))
                     && (screen.ok ==> (Heals(font, old(screen.px), old(Memory()), want)
                                        <==> Heals(font, screen.px, Memory(), want)))
      ensures old(screen.ok) && screen.ok ==> AllTaken(writes, 0, screen.pushes - old(screen.pushes))
      ensures old(screen.ok) && !screen.ok ==> exists i :: writes(i).Failed? && screen.px == writes(i).noise
      ensures old(screen.ok) && (forall i :: writes(i).Taken?) ==> screen.ok && screen.clean == old(screen.clean)
    {
      hide Faithful, Key, InRange, DesiredRow, Frame, Windows, PartWay, Heals;
      if !screen.ok {
        Recover(screen, now, works);
        return;
      }
      if startMs == 0 {
        StartHold(screen.px, screen.clean, now);
      }
      if (now - startMs) % 0x1_0000_0000 < BAR_HOLD_MS {
        return;
      }
      if !taken {
        ClearNext(screen, writes(0));
        return;
      }
      DrawFrame(screen, Want(DesiredRows(disp.Subs(), disp.state), ViewOf(disp.Bar(), now, clock)), writes);
    }

    /**
     * The calls the main loop makes while the subtitles and the bar's key do not change, on any
     * panel at all. After seven of them every pixel is the full rendering of what is wanted if and
     * only if the panel could heal, which it could if no write had ever failed; and the windows
     * sent are exactly as many as differed.
     */
    method Settle(disp: Display, screen: Screen, times: seq<u32>, clocks: seq<Clock>, bar: BarView)
      requires Shape() && taken && screen.ok && Sound(screen) && startMs != 0 && |clocks| == |times| >= 7
      requires disp.volume >= 0 && InRange(bar)
      requires forall i :: 0 <= i < |times| ==>
        && (times[i] - startMs) % 0x1_0000_0000 >= BAR_HOLD_MS
        && InRange(ViewOf(disp.Bar(), times[i], clocks[i])) && Key(ViewOf(disp.Bar(), times[i], clocks[i])) == Key(bar)
      modifies this, band, screen
      ensures Shape() && taken && screen.ok && Sound(screen)
      ensures var want := Want(DesiredRows(disp.Subs(), disp.state), bar);
              && Settled(Memory(), want)
              && screen.pushes == old(screen.pushes) + Dirty(old(Memory()), want)
              && (ShowsWanted(font, screen.px, want) <==> Heals(font, old(screen.px), old(Memory()), want))
              && (old(screen.clean) ==> ShowsWanted(font, screen.px, want))
    {
      hide Faithful, Key, InRange, DesiredRows, Frame, ShowsWanted, Heals, Windows, Dirty, PartWay, Settled;
      ghost var want := Want(DesiredRows(disp.Subs(), disp.state), bar);
      ghost var m0 := Memory();
      if screen.clean {
        TakenMeans(screen.px);
        FaithfulHeals(font, screen.px, m0, shown, want);
      }
      for i := 0 to |times|
        invariant Shape() && taken && screen.ok && Sound(screen) && startMs == old(startMs)
        invariant Memory() == AfterFrames(m0, want, i)
        invariant screen.pushes + Dirty(Memory(), want) == old(screen.pushes) + Dirty(m0, want)
        invariant Heals(font, old(screen.px), m0, want) <==> Heals(font, screen.px, Memory(), want)
      {
        ghost var v := ViewOf(disp.Bar(), times[i], clocks[i]);
        FrameCleans(Memory(), want);
        FrameByKey(Memory(), want, v);
        HealsByKey(font, screen.px, Memory(), want, v);
        Tick(disp, screen, times[i], clocks[i], _ => Taken, true);
        HealsByKey(font, screen.px, Memory(), want, v);
      }
      SettlesInSevenFrames(m0, want, |times|);
      SettledIsClean(Memory(), want);
      SettledHealsIfShown(font, screen.px, Memory(), want);
    }

    lemma TakenMeans(px: (int, int) -> int)
      requires Shape() && taken && Faithful(px)
      ensures startMs != 0 && ShowsRows(font, px, drawn) && BlackRows(px, BAR_H, SUB_Y)
      ensures barKey != U64_MAX ==> InRange(shown) && barKey == Key(shown) && ShowsBar(font, px, shown)
    {
      hide ShowsRows, BlackRows, ShowsBar, InRange, Key;
    }

    method StartHold(ghost px: (int, int) -> int, ghost clean: bool, now: u32)
      requires Shape() && (clean ==> Faithful(px)) && startMs == 0
      modifies this`startMs
      ensures startMs == now && Shape() && (clean ==> Faithful(px))
    {
      startMs := now;
    }
  }

  const RESTING: TopBar := TopBar(Idle, 80, 0, None, false)

  lemma RestingView(bar: TopBar, now: u32)
    requires bar == RESTING
    ensures ViewOf(bar, now, Unsynced) == BarView(Idle, false, 80, Unsynced, None, false)
    ensures InRange(ViewOf(bar, now, Unsynced)) && Key(ViewOf(bar, now, Unsynced)) != U64_MAX
  {
  }

  /** From power-on to the end of the take-over, with every write taken. */
  method TakeOver(font: Font, garbage: (int, int) -> int) returns (disp: Display, screen: Screen, r: Renderer)
    ensures fresh(disp) && fresh(screen) && fresh(r) && fresh(r.band)
    ensures disp.Bar() == RESTING && disp.Subs() == BLANK && screen.ok
    ensures r.Shape() && r.Sound(screen) && r.taken && r.font == font && r.startMs == 1 && r.recoverAt == 0
    ensures r.Memory() == NOTHING_DRAWN
  {
    hide Heals, DesiredRows, Key, InRange, Frame, Windows, Renderer.Faithful, PartWay, AllTaken;
    disp := new Display(font);
    screen := new Screen(garbage);
    r := new Renderer(font);
    RestingView(disp.Bar(), 1);
    RestingView(disp.Bar(), 1000);
    r.Tick(disp, screen, 1, Unsynced, _ => Taken, true);
    for i := 0 to 14
      invariant disp.Bar() == RESTING && disp.Subs() == BLANK && screen.ok
      invariant r.Shape() && r.Sound(screen) && r.startMs == 1 && r.recoverAt == 0 && r.font == font
      invariant if i < 14 then !r.taken && r.clearRow == i * LINE_H else r.taken && r.Memory() == NOTHING_DRAWN
    {
      r.Tick(disp, screen, 1000, Unsynced, _ => Taken, true);
    }
  }

  lemma BarIsDue(m: Memory, w: Want)
    requires m == NOTHING_DRAWN && |w.rows| == VISIBLE && Key(w.bar) != U64_MAX
    ensures Windows(m, w) > 0
  {
    hide Key, Budget;
  }

  /** With nothing said and nothing typed every row should be empty. */
  lemma NothingWanted(s: Subtitles, k: nat)
    requires s == BLANK && k < VISIBLE
    ensures DesiredRows(s, Idle)[k].None?
  {
  }

  lemma PartWayToNothing(drawn: seq<Slot>, drawn': seq<Slot>, rows: seq<Option<Slot>>, k: nat)
    requires PartWay(drawn, drawn', rows) && k < |drawn| && drawn[k] == NO_SLOT && rows[k].None?
    ensures drawn'[k] == NO_SLOT
  {
  }

  /** The first write after the take-over fails, with any effect on the panel. */
  method FailFirstWrite(disp: Display, screen: Screen, r: Renderer, noise: (int, int) -> int)
    requires disp.Bar() == RESTING && disp.Subs() == BLANK && screen.ok && r.Shape() && r.Sound(screen) && r.taken
    requires r.startMs == 1 && r.recoverAt == 0 && r.Memory() == NOTHING_DRAWN
    modifies r, r.band, screen
    ensures r.Shape() && r.Sound(screen) && r.taken && r.startMs == 1 && r.recoverAt == 0
    ensures !screen.ok && screen.px == noise && r.drawn[LAST_ROW] == NO_SLOT
  {
    hide Heals, DesiredRows, Key, InRange, Frame, Windows, Renderer.Faithful, Renderer.Sound, PartWay, Dirty;
    RestingView(disp.Bar(), 1000);
    ghost var rows, before := DesiredRows(disp.Subs(), disp.state), r.drawn;
    BarIsDue(r.Memory(), Want(rows, ViewOf(disp.Bar(), 1000, Unsynced)));
    NothingWanted(disp.Subs(), LAST_ROW);
    var writes: nat -> Write := _ => Failed(noise);
    r.Tick(disp, screen, 1000, Unsynced, writes, true);
    assert writes(0).Failed?;
    PartWayToNothing(before, r.drawn, rows, LAST_ROW);
  }

  /** Three seconds later the panel is set up again, which draws nothing. */
  method SetUpAgain(disp: Display, screen: Screen, r: Renderer)
    requires disp.Bar() == RESTING && !screen.ok && r.Shape() && r.Sound(screen) && r.taken
    requires r.startMs == 1 && r.recoverAt == 0
    modifies r, r.band, screen
    ensures r.Shape() && r.Sound(screen) && r.taken && r.startMs == 1 && r.Memory() == old(r.Memory())
    ensures screen.ok && screen.px == old(screen.px)
  {
    hide Heals, DesiredRows, Key, InRange, Frame, Windows, Renderer.Faithful, Renderer.Sound, PartWay, Dirty;
    RestingView(disp.Bar(), 4000);
    r.Tick(disp, screen, 4000, Unsynced, _ => Taken, true);
  }

  const LAST_ROW: nat := VISIBLE - 1

  /** The window the last step of the take-over set: its six rows of pixels. */
  const LAST_WINDOW: nat := SCREEN_H - 6

  /** The row of the bar that ends up in a row of that window when all of the bar is written round it. */
  function WrappedRow(y: int): int {
    if y < LAST_WINDOW + 4 then y - LAST_WINDOW + 18 else y - LAST_WINDOW + 12
  }

  /** The panel after the bar's pixels went into the window that was set before. */
  function Misplaced(f: Font, px: (int, int) -> int, bar: BarView): (int, int) -> int {
    (x, y) =>
      if 0 <= x < SCREEN_W && LAST_WINDOW <= y < SCREEN_H then Paint(f, BarPicture(f, bar), x, WrappedRow(y)) else px(x, y)
  }

  /**
   * A concrete run on which passing write errors do not heal. From power-on with nothing to show
   * the panel is taken over. Of the writes that push the first bar, the one that sets the window's
   * rows fails, so the bar's pixels go round the window the last clearing had set, at the bottom
   * of the panel. The panel is set up again successfully, and any number of calls follow with
   * every write taken: the renderer has settled, and the panel still does not show what is wanted.
   */
  method DamageForGood(font: Font, garbage: (int, int) -> int, n: nat)
    returns (disp: Display, screen: Screen, r: Renderer)
    requires n >= 7
    ensures screen.ok && r.Shape() && r.taken && disp.Bar() == RESTING
    ensures var want := Want(DesiredRows(disp.Subs(), disp.state), ViewOf(disp.Bar(), 4000, Unsynced));
            Settled(r.Memory(), want) && !ShowsWanted(font, screen.px, want)
  {
    hide Heals, Settled, ShowsWanted, DesiredRows, Key, InRange, Frame, Renderer.Faithful, PartWay, Dirty, Paint, BarPicture;
    disp, screen, r := TakeOver(font, garbage);
    RestingView(disp.Bar(), 4000);
    var bar := ViewOf(disp.Bar(), 4000, Unsynced);
    FailFirstWrite(disp, screen, r, Misplaced(font, screen.px, bar));
    SetUpAgain(disp, screen, r);
    BarHasNoBlack(font, bar);
    NoBlackPixel(font, BarPicture(font, bar), 0, WrappedRow(LAST_WINDOW));
    NothingWanted(disp.Subs(), LAST_ROW);
    MarkInEmptyRowStays(font, screen.px, r.Memory(), Want(DesiredRows(disp.Subs(), disp.state), bar), LAST_ROW, 12);
    r.Settle(disp, screen, seq(n, _ => 4000), seq(n, _ => Unsynced), bar);
  }
}
