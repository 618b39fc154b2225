/**
 * The subtitle model of src/display.rs: typewriter queue, reconciliation of streamed deltas with
 * the full text, wrapping into a bounded history.
 */
module Display {
  import opened Bytes
  import opened Options
  import opened Font
  import opened Wrap

  const MAX_HISTORY_LINES: nat := 80
  const TYPE_INTERVAL_MS: nat := 143
  const USER_COLOR: u16 := 0x07E0
  const AI_COLOR: u16 := 0x07FF

  datatype Mode = Idle | Listening | Playing | Offline

  datatype Line = Line(text: string, color: u16)

  datatype Subtitles = Subtitles(
    history: seq<Line>, typingRest: string, curLine: string, curColor: u16,
    streamMode: bool, streamQueued: string, lastTypeMs: u32)

  /** What the status bar shows, apart from the clock. */
  datatype TopBar = TopBar(mode: Mode, volume: int, volumeUntilMs: u32, battLevel: Option<byte>, battCharging: bool)

  const BLANK: Subtitles := Subtitles([], "", "", AI_COLOR, false, "", 0)

  // ---------- lines into the history ----------

  function LastLines(s: seq<Line>): (r: seq<Line>)
    ensures |r| <= MAX_HISTORY_LINES
  {
    if |s| > MAX_HISTORY_LINES then s[|s| - MAX_HISTORY_LINES..] else s
  }

  /** Lines as they are logged: an empty one shows a space. */
  function Logged(lines: seq<string>, color: u16): (r: seq<Line>)
    ensures |r| == |lines|
  {
    seq(|lines|, i requires 0 <= i < |lines| => Line(if lines[i] == "" then " " else lines[i], color))
  }

  function PushLine(f: Font, s: Subtitles, text: string, color: u16): Subtitles {
    s.(history := LastLines(s.history + Logged(Lines(f, text), color)))
  }

  // ---------- steps ----------

  function FlushTyping(f: Font, s: Subtitles): Subtitles {
    var s := s.(streamMode := false, streamQueued := "");
    if s.typingRest == "" && s.curLine == "" then s
    else PushLine(f, s.(curLine := "", typingRest := ""), s.curLine + s.typingRest, s.curColor)
  }

  const PREFIX: string := "\U{6211}:"

  function AddUserLine(f: Font, s: Subtitles, text: string): Subtitles {
    PushLine(f, FlushTyping(f, s), PREFIX + text, USER_COLOR)
  }

  function BeginTypewriter(f: Font, s: Subtitles, text: string): Subtitles {
    FlushTyping(f, s).(typingRest := text, curLine := "", curColor := AI_COLOR,
                       streamMode := false, streamQueued := "")
  }

  function BeginStream(f: Font, s: Subtitles): Subtitles {
    FlushTyping(f, s).(typingRest := "", curLine := "", curColor := AI_COLOR,
                       streamQueued := "", streamMode := true)
  }

  function AppendDelta(f: Font, s: Subtitles, delta: string): Subtitles {
    if delta == "" then s
    else
      var s := if s.streamMode then s else BeginStream(f, s);
      s.(typingRest := s.typingRest + delta, streamQueued := s.streamQueued + delta)
  }

  /** The full text continues what was queued: only the difference is queued. */
  predicate Extends(s: Subtitles, full: string) {
    s.streamMode && s.streamQueued <= full
  }

  function SetFullText(f: Font, s: Subtitles, full: string): Subtitles {
    if Extends(s, full) then
      s.(typingRest := s.typingRest + full[|s.streamQueued|..], streamMode := false, streamQueued := "")
    else BeginTypewriter(f, s, full)
  }

  function ClearChat(s: Subtitles): Subtitles {
    s.(history := [], typingRest := "", curLine := "", streamMode := false, streamQueued := "")
  }

  // ---------- the typewriter ----------

  predicate IsGraphic(c: char) {
    '!' <= c <= '~'
  }

  function SpaceRun(s: string, i: nat): (j: nat)
    requires i <= |s|
    ensures i <= j <= |s|
    decreases |s| - i
  {
    if i < |s| && s[i] == ' ' then SpaceRun(s, i + 1) else i
  }

  function GraphicRun(s: string, i: nat): (j: nat)
    requires i <= |s|
    ensures i <= j <= |s|
    decreases |s| - i
  {
    if i < |s| && IsGraphic(s[i]) then GraphicRun(s, i + 1) else i
  }

  /** One reveal: leading spaces, then an ASCII word with the spaces after it or one character. */
  function UnitLen(s: string): (n: nat)
    requires s != ""
    ensures 1 <= n <= |s|
  {
    var i := SpaceRun(s, 0);
    if i < |s| && IsGraphic(s[i]) then SpaceRun(s, GraphicRun(s, i + 1))
    else if i < |s| then i + 1
    else i
  }

  /** Unicode White_Space, as `trim` uses it. */
  predicate IsWhitespace(c: char) {
    var n := c as int;
    9 <= n <= 13 || n == 32 || n == 0x85 || n == 0xA0 || n == 0x1680 || 0x2000 <= n <= 0x200A
    || n == 0x2028 || n == 0x2029 || n == 0x202F || n == 0x205F || n == 0x3000
  }

  function Trim(s: string): string {
    if s != "" && IsWhitespace(s[0]) then Trim(s[1..])
    else if s != "" && IsWhitespace(s[|s| - 1]) then Trim(s[..|s| - 1])
    else s
  }

  /** Trimming removes the newline itself, so the line-break branch of the typewriter is dead. */
  lemma {:induction false} TrimIsNeverNewline(s: string)
    ensures Trim(s) != "\n"
    decreases |s|
  {
    if s != "" && IsWhitespace(s[0]) {
      TrimIsNeverNewline(s[1..]);
    } else if s != "" && IsWhitespace(s[|s| - 1]) {
      TrimIsNeverNewline(s[..|s| - 1]);
    }
  }

  predicate Due(s: Subtitles, now: u32) {
    s.typingRest != "" && (now - s.lastTypeMs) % 0x1_0000_0000 >= TYPE_INTERVAL_MS
  }

  function Reveal(f: Font, s: Subtitles, unit: string): Subtitles {
    if Trim(unit) == "\n" then
      PushLine(f, s.(curLine := ""), s.curLine, s.curColor)
    else
      var s := if Width(f, s.curLine) + Width(f, unit) > SUB_W && s.curLine != ""
               then PushLine(f, s.(curLine := ""), s.curLine, s.curColor) else s;
      s.(curLine := s.curLine + unit)
  }

  function Tick(f: Font, s: Subtitles, now: u32): Subtitles {
    if !Due(s, now) then s
    else
      var n := UnitLen(s.typingRest);
      Reveal(f, s.(lastTypeMs := now, typingRest := s.typingRest[n..]), s.typingRest[..n])
  }

  // ---------- the object ----------

  class Display {
    const font: Font
    var state: Mode
    var volume: int
    var history: seq<Line>
    var typingRest: string
    var curLine: string
    var curColor: u16
    var streamMode: bool
    var streamQueued: string
    var lastTypeMs: u32
    var volumeUntilMs: u32
    var battLevel: Option<byte>
    var battCharging: bool

    function Subs(): Subtitles
      reads this
    {
      Subtitles(history, typingRest, curLine, curColor, streamMode, streamQueued, lastTypeMs)
    }

    function Bar(): TopBar
      reads this
    {
      TopBar(state, volume, volumeUntilMs, battLevel, battCharging)
    }

    constructor (font: Font)
      ensures this.font == font && Subs() == BLANK && Bar() == TopBar(Idle, 80, 0, None, false)
    {
      this.font := font;
      state, volume := Idle, 80;
      history, typingRest, curLine, curColor := [], "", "", AI_COLOR;
      streamMode, streamQueued, lastTypeMs := false, "", 0;
      volumeUntilMs, battLevel, battCharging := 0, None, false;
    }

    method SetState(mode: Mode)
      modifies this`state
      ensures state == mode
    {
      state := mode;
    }

    /** Setting the same volume again does not reopen the popup. */
    method SetVolume(v: int, now: u32)
      modifies this`volume, this`volumeUntilMs
      ensures volume == if v < 0 then 0 else if v > 100 then 100 else v
      ensures volumeUntilMs == if volume == old(volume) then old(volumeUntilMs) else (now + 1500) % 0x1_0000_0000
    {
      var clamped := if v < 0 then 0 else if v > 100 then 100 else v;
      if clamped == volume {
        return;
      }
      volume := clamped;
      volumeUntilMs := (now + 1500) % 0x1_0000_0000;
    }

    method SetBattery(level: Option<byte>, charging: bool)
      modifies this`battLevel, this`battCharging
      ensures battLevel == level && battCharging == charging
    {
      battLevel, battCharging := level, charging;
    }

    method Push(text: string, color: u16)
      modifies this`history
      ensures Bar() == old(Bar())
      ensures Subs() == PushLine(font, old(Subs()), text, color)
    {
      var lines := WrapToLines(font, text);
      var i := 0;
      while i < |lines|
        invariant 0 <= i <= |lines|
        invariant history == old(history) + Logged(lines, color)[..i]
      {
        var seg := if lines[i] == "" then " " else lines[i];
        assert Logged(lines, color)[i] == Line(seg, color);
        history := history + [Line(seg, color)];
        i := i + 1;
      }
      ghost var all := old(history) + Logged(lines, color);
      assert history == all;
      while |history| > MAX_HISTORY_LINES
        invariant |history| <= |all| && history == all[|all| - |history|..]
        invariant |all| <= MAX_HISTORY_LINES ==> history == all
        invariant |all| > MAX_HISTORY_LINES ==> |history| >= MAX_HISTORY_LINES
        decreases |history|
      {
        history := history[1..];
      }
    }

    method Flush()
      modifies this
      ensures Subs() == FlushTyping(font, old(Subs()))
      ensures Bar() == old(Bar())
    {
      streamMode, streamQueued := false, "";
      if typingRest == "" && curLine == "" {
        return;
      }
      var rest := curLine + typingRest;
      curLine, typingRest := "", "";
      Push(rest, curColor);
    }

    method AddUser(text: string)
      modifies this
      ensures Subs() == AddUserLine(font, old(Subs()), text)
      ensures Bar() == old(Bar())
    {
      Flush();
      Push(PREFIX + text, USER_COLOR);
    }

    method BeginReplyTypewriter(text: string)
      modifies this
      ensures Subs() == BeginTypewriter(font, old(Subs()), text)
      ensures Bar() == old(Bar())
    {
      Flush();
      typingRest, curLine, curColor, streamMode, streamQueued := text, "", AI_COLOR, false, "";
    }

    method BeginReplyStream()
      modifies this
      ensures Subs() == BeginStream(font, old(Subs()))
      ensures Bar() == old(Bar())
    {
      Flush();
      typingRest, curLine, curColor, streamQueued, streamMode := "", "", AI_COLOR, "", true;
    }

    method AppendReplyDelta(delta: string)
      modifies this
      ensures Subs() == AppendDelta(font, old(Subs()), delta)
      ensures Bar() == old(Bar())
    {
      if delta == "" {
        return;
      }
      if !streamMode {
        BeginReplyStream();
      }
      typingRest, streamQueued := typingRest + delta, streamQueued + delta;
    }

    method SetReplyFullText(full: string)
      modifies this
      ensures Subs() == SetFullText(font, old(Subs()), full)
      ensures Bar() == old(Bar())
    {
      if streamMode && streamQueued <= full {
        if |full| > |streamQueued| {
          typingRest := typingRest + full[|streamQueued|..];
        } else {
          assert full[|streamQueued|..] == "" && typingRest + "" == typingRest;
        }
        streamMode, streamQueued := false, "";
        return;
      }
      BeginReplyTypewriter(full);
    }

    method Clear()
      modifies this
      ensures Subs() == ClearChat(old(Subs()))
      ensures Bar() == old(Bar())
    {
      history, typingRest, curLine, streamMode, streamQueued := [], "", "", false, "";
    }

    /** How many characters the next reveal takes. */
    method ScanUnit() returns (n: nat)
      requires typingRest != ""
      ensures n == UnitLen(typingRest)
    {
      var i := 0;
      while i < |typingRest| && typingRest[i] == ' '
        invariant 0 <= i <= |typingRest| && SpaceRun(typingRest, 0) == SpaceRun(typingRest, i)
      {
        i := i + 1;
      }
      if i < |typingRest| && IsGraphic(typingRest[i]) {
        ghost var start := i;
        while i < |typingRest| && IsGraphic(typingRest[i])
          invariant start <= i <= |typingRest| && (i == start ==> IsGraphic(typingRest[i]))
          invariant i > start ==> GraphicRun(typingRest, start + 1) == GraphicRun(typingRest, i)
        {
          i := i + 1;
        }
        ghost var word := i;
        while i < |typingRest| && typingRest[i] == ' '
          invariant word <= i <= |typingRest| && SpaceRun(typingRest, word) == SpaceRun(typingRest, i)
        {
          i := i + 1;
        }
      } else if i < |typingRest| {
        i := i + 1;
      }
      n := i;
    }

    method TypeTick(now: u32)
      modifies this
      ensures Subs() == Tick(font, old(Subs()), now)
      ensures Bar() == old(Bar())
    {
      if typingRest == "" {
        return;
      }
      if (now - lastTypeMs) % 0x1_0000_0000 < TYPE_INTERVAL_MS {
        return;
      }
      lastTypeMs := now;
      var n := ScanUnit();
      var unit := typingRest[..n];
      typingRest := typingRest[n..];
      if Trim(unit) == "\n" {
        var line := curLine;
        curLine := "";
        Push(line, curColor);
        return;
      }
      if Width(font, curLine) + Width(font, unit) > SUB_W && curLine != "" {
        var line := curLine;
        curLine := "";
        Push(line, curColor);
      }
      curLine := curLine + unit;
    }
  }
}
