/**
 * Whole runs of the subtitle model: no character of a reply is lost, invented or reordered, over
 * any interleaving of deltas, ticks, completion, flushes and user lines.
 */
module SubtitleRuns {
  import opened Bytes
  import opened Options
  import opened Font
  import opened Wrap
  import opened Display

  datatype Op =
    | UserLine(text: string)
    | Typewriter(text: string)
    | Stream
    | Delta(text: string)
    | Full(text: string)
    | Flush
    | Clear
    | TypeTick(now: u32)

  /**
   * The subtitles with their history in full: everything logged before the current reply, the
   * lines logged for it so far (before empty ones become spaces), and all text enqueued for it.
   */
  datatype Trace = Trace(s: Subtitles, base: seq<Line>, lines: seq<string>, enqueued: string)

  /** The full text goes on from, or is, what has been streamed. */
  predicate Continues(s: Subtitles, full: string) {
    s.streamMode && s.streamQueued <= full
  }

  const START: Trace := Trace(BLANK, [], [], "")

  /** Text pushed into the history on behalf of the current reply. */
  function Log(f: Font, tr: Trace, pushed: string): Trace {
    tr.(lines := tr.lines + Lines(f, pushed))
  }

  function LogFlush(f: Font, tr: Trace): Trace {
    var s := tr.s;
    var tr' := tr.(s := FlushTyping(f, s));
    if s.typingRest == "" && s.curLine == "" then tr' else Log(f, tr', s.curLine + s.typingRest)
  }

  /** The reply is over: what was logged for it becomes part of the past. */
  function Close(tr: Trace): Trace {
    tr.(base := tr.base + Logged(tr.lines, tr.s.curColor), lines := [], enqueued := "")
  }

  function Step(f: Font, tr: Trace, op: Op): Trace {
    match op
    case UserLine(text) =>
      var tr' := Close(LogFlush(f, tr));
      tr'.(s := AddUserLine(f, tr.s, text), base := tr'.base + Logged(Lines(f, PREFIX + text), USER_COLOR))
    case Typewriter(text) =>
      Close(LogFlush(f, tr)).(s := BeginTypewriter(f, tr.s, text), enqueued := text)
    case Stream =>
      Close(LogFlush(f, tr)).(s := BeginStream(f, tr.s))
    case Delta(text) =>
      if text == "" then tr
      else
        var tr' := if tr.s.streamMode then tr else Close(LogFlush(f, tr));
        tr'.(s := AppendDelta(f, tr.s, text), enqueued := tr'.enqueued + text)
    case Full(text) =>
      if Continues(tr.s, text) then
        tr.(s := SetFullText(f, tr.s, text), enqueued := tr.enqueued + text[|tr.s.streamQueued|..])
      else
        Close(LogFlush(f, tr)).(s := SetFullText(f, tr.s, text), enqueued := text)
    case Flush => LogFlush(f, tr)
    case Clear => Trace(ClearChat(tr.s), [], [], "")
    case TypeTick(now) => LogTick(f, tr, now)
  }

  function LogTick(f: Font, tr: Trace, now: u32): Trace {
    var s := tr.s;
    var tr' := tr.(s := Tick(f, s, now));
    if !Due(s, now) then tr'
    else
      var unit := s.typingRest[..UnitLen(s.typingRest)];
      if Width(f, s.curLine) + Width(f, unit) > SUB_W && s.curLine != "" then Log(f, tr', s.curLine) else tr'
  }

  /** Logged ++ being typed ++ waiting = enqueued, up to newlines. */
  ghost predicate Conserved(tr: Trace) {
    Join(tr.lines) + NoNewlines(tr.s.curLine + tr.s.typingRest) == NoNewlines(tr.enqueued)
  }

  /** The visible history is the last 80 lines of everything logged. */
  ghost predicate HistoryIsTail(tr: Trace) {
    tr.s.history == LastLines(tr.base + Logged(tr.lines, tr.s.curColor))
  }

  ghost predicate Good(tr: Trace) {
    && Conserved(tr)
    && HistoryIsTail(tr)
    && (tr.s.streamMode ==> tr.enqueued == tr.s.streamQueued)
  }

  // ---------- history ----------

  /** Keeping the last 80 of the last 80 and more is keeping the last 80 of all. */
  lemma LastOfLast(a: seq<Line>, b: seq<Line>)
    ensures LastLines(LastLines(a) + b) == LastLines(a + b)
  {
  }

  lemma LoggedConcat(a: seq<string>, b: seq<string>, color: u16)
    ensures Logged(a + b, color) == Logged(a, color) + Logged(b, color)
  {
  }

  lemma PushKeepsTail(f: Font, s: Subtitles, base: seq<Line>, lines: seq<string>, text: string)
    requires s.history == LastLines(base + Logged(lines, s.curColor))
    ensures PushLine(f, s, text, s.curColor).history
         == LastLines(base + Logged(lines + Lines(f, text), s.curColor))
  {
    hide LastLines, Logged;
    var more := Lines(f, text);
    LoggedConcat(lines, more, s.curColor);
    var all := base + Logged(lines, s.curColor);
    LastOfLast(all, Logged(more, s.curColor));
    assert all + Logged(more, s.curColor) == base + (Logged(lines, s.curColor) + Logged(more, s.curColor));
  }

  // ---------- conservation, step by step ----------

  lemma LogKeepsText(f: Font, lines: seq<string>, pushed: string, left: string)
    ensures Join(lines + Lines(f, pushed)) + NoNewlines(left) == Join(lines) + NoNewlines(pushed + left)
  {
    WrapKeepsText(f, pushed);
    JoinConcat(lines, Lines(f, pushed));
    NoNewlinesConcat(pushed, left);
  }

  lemma FlushIsGood(f: Font, tr: Trace)
    requires Good(tr)
    ensures var tr' := LogFlush(f, tr);
            && Conserved(tr') && HistoryIsTail(tr')
            && tr'.s.curLine == "" && tr'.s.typingRest == "" && !tr'.s.streamMode
            && tr'.enqueued == tr.enqueued && tr'.s.curColor == tr.s.curColor
            && Join(tr'.lines) == NoNewlines(tr.enqueued)
  {
    hide Lines, LastLines, Logged, Width;
    var s := tr.s;
    assert NoNewlines("") == "" && "" + "" == "";
    if s.typingRest != "" || s.curLine != "" {
      var rest := s.curLine + s.typingRest;
      var s1 := s.(streamMode := false, streamQueued := "", curLine := "", typingRest := "");
      PushKeepsTail(f, s1, tr.base, tr.lines, rest);
      LogKeepsText(f, tr.lines, rest, "");
      assert rest + "" == rest;
      assert Join(tr.lines + Lines(f, rest)) + "" == Join(tr.lines + Lines(f, rest));
    } else {
      assert s.curLine + s.typingRest == "";
      assert Join(tr.lines) + "" == Join(tr.lines);
    }
  }

  /** A finished reply becomes history; the next one starts with nothing logged. */
  lemma CloseKeepsTail(tr: Trace)
    requires HistoryIsTail(tr)
    ensures forall c :: Close(tr).base + Logged([], c) == tr.base + Logged(tr.lines, tr.s.curColor)
    ensures forall s: Subtitles :: s.history == tr.s.history ==> HistoryIsTail(Close(tr).(s := s))
  {
    hide LastLines;
    forall c ensures Close(tr).base + Logged([], c) == Close(tr).base {
      assert Logged([], c) == [];
    }
  }

  lemma StartsEmpty(text: string)
    ensures Join([]) + NoNewlines("" + text) == NoNewlines(text)
  {
    assert "" + text == text;
    assert "" + NoNewlines(text) == NoNewlines(text);
  }

  lemma UserLineIsGood(f: Font, tr: Trace, text: string)
    requires Good(tr)
    ensures Good(Step(f, tr, UserLine(text)))
  {
    hide Lines, LastLines, Logged, FlushTyping;
    FlushIsGood(f, tr);
    var mid := LogFlush(f, tr);
    CloseKeepsTail(mid);
    var more := Logged(Lines(f, PREFIX + text), USER_COLOR);
    var tr' := Step(f, tr, UserLine(text));
    var past := mid.base + Logged(mid.lines, mid.s.curColor);
    LastOfLast(past, more);
    assert tr'.base == past + more;
    assert tr'.base + Logged([], tr'.s.curColor) == tr'.base by { NothingLogged(tr'.s.curColor); }
    StartsEmpty("");
    assert tr'.s.curLine + tr'.s.typingRest == "";
  }

  lemma NothingLogged(color: u16)
    ensures Logged([], color) == []
  {
  }

  lemma NewReplyIsGood(f: Font, tr: Trace, op: Op)
    requires Good(tr)
    requires op.Typewriter? || op.Stream? || (op.Delta? && op.text != "" && !tr.s.streamMode)
             || (op.Full? && !Continues(tr.s, op.text))
    ensures Good(Step(f, tr, op))
  {
    hide Lines, LastLines, Logged, FlushTyping;
    FlushIsGood(f, tr);
    var mid := LogFlush(f, tr);
    CloseKeepsTail(mid);
    var tr' := Step(f, tr, op);
    var text := if op.Stream? then "" else op.text;
    StartsEmpty(text);
    assert "" + text == text;
    assert HistoryIsTail(Close(mid).(s := tr'.s));
  }

  lemma MoreTextIsGood(f: Font, tr: Trace, op: Op)
    requires Good(tr)
    requires (op.Delta? && op.text != "" && tr.s.streamMode) || (op.Full? && Continues(tr.s, op.text))
    ensures Good(Step(f, tr, op))
  {
    hide LastLines, Logged, FlushTyping, Join, NoNewlines;
    var s := tr.s;
    var more := if op.Delta? then op.text else op.text[|s.streamQueued|..];
    MoreText(Join(tr.lines), s.curLine, s.typingRest, tr.enqueued, more);
  }

  lemma MoreText(logged: string, cur: string, rest: string, enqueued: string, more: string)
    requires logged + NoNewlines(cur + rest) == NoNewlines(enqueued)
    ensures logged + NoNewlines(cur + (rest + more)) == NoNewlines(enqueued + more)
  {
    hide NoNewlines;
    NoNewlinesConcat(cur + rest, more);
    NoNewlinesConcat(enqueued, more);
    assert cur + (rest + more) == cur + rest + more;
    var b, c := NoNewlines(cur + rest), NoNewlines(more);
    assert logged + (b + c) == (logged + b) + c;
  }

  lemma TickIsGood(f: Font, tr: Trace, now: u32)
    requires Good(tr)
    ensures Good(LogTick(f, tr, now))
  {
    hide Lines, LastLines, Logged, Width, Trim, UnitLen;
    var s := tr.s;
    if Due(s, now) {
      var n := UnitLen(s.typingRest);
      var unit, rest := s.typingRest[..n], s.typingRest[n..];
      TrimIsNeverNewline(unit);
      assert s.typingRest == unit + rest;
      var s1 := s.(lastTypeMs := now, typingRest := rest, curLine := "");
      PushKeepsTail(f, s1, tr.base, tr.lines, s.curLine);
      LogKeepsText(f, tr.lines, s.curLine, unit + rest);
      assert s.curLine + (unit + rest) == (s.curLine + unit) + rest;
      assert ("" + unit) + rest == unit + rest;
    }
  }

  /** Every operation keeps every reply's text, and the history the tail of the log. */
  lemma StepIsGood(f: Font, tr: Trace, op: Op)
    requires Good(tr)
    ensures Good(Step(f, tr, op))
  {
    hide Lines, LastLines, Width, FlushTyping, LogTick, LogFlush;
    match op
    case UserLine(text) => UserLineIsGood(f, tr, text);
    case Typewriter(text) => NewReplyIsGood(f, tr, op);
    case Stream => NewReplyIsGood(f, tr, op);
    case Delta(text) =>
      if text != "" {
        if tr.s.streamMode { MoreTextIsGood(f, tr, op); } else { NewReplyIsGood(f, tr, op); }
      }
    case Full(text) =>
      if Continues(tr.s, text) { MoreTextIsGood(f, tr, op); } else { NewReplyIsGood(f, tr, op); }
    case Flush =>
      FlushIsGood(f, tr);
    case Clear =>
      StartsEmpty("");
      NothingLogged(tr.s.curColor);
      ShortHistory();
    case TypeTick(now) => TickIsGood(f, tr, now);
  }

  lemma ShortHistory()
    ensures LastLines([] + []) == []
  {
  }

  function Run(f: Font, ops: seq<Op>): Trace {
    if ops == [] then START else Step(f, Run(f, ops[..|ops| - 1]), ops[|ops| - 1])
  }

  /** The main result: conservation and the bounded history hold after every run. */
  lemma {:induction false} RunConserves(f: Font, ops: seq<Op>)
    ensures var tr := Run(f, ops);
            && Join(tr.lines) + NoNewlines(tr.s.curLine + tr.s.typingRest) == NoNewlines(tr.enqueued)
            && tr.s.history == LastLines(tr.base + Logged(tr.lines, tr.s.curColor))
            && (tr.s.streamMode ==> tr.enqueued == tr.s.streamQueued)
            && Good(tr)
  {
    hide Step, LastLines;
    if ops == [] {
      StartIsGood();
    } else {
      RunConserves(f, ops[..|ops| - 1]);
      StepIsGood(f, Run(f, ops[..|ops| - 1]), ops[|ops| - 1]);
    }
  }

  lemma StartIsGood()
    ensures Good(START)
  {
    StartsEmpty("");
    NothingLogged(AI_COLOR);
  }

  /** Flushing at any moment loses nothing: everything enqueued is then logged. */
  lemma FlushLosesNothing(f: Font, ops: seq<Op>)
    ensures var tr := Step(f, Run(f, ops), Flush);
            Join(tr.lines) == NoNewlines(Run(f, ops).enqueued) && tr.s.curLine == "" && tr.s.typingRest == ""
  {
    RunConserves(f, ops);
    FlushIsGood(f, Run(f, ops));
  }

  /** The text streamed since a stream of deltas began, told from the operations, if one is on. */
  function Streamed(ops: seq<Op>): Option<string> {
    if ops == [] then None
    else
      var before := Streamed(ops[..|ops| - 1]);
      match ops[|ops| - 1]
      case Delta(text) =>
        if text == "" then before else Some((if before.Some? then before.value else "") + text)
      case Stream => Some("")
      case TypeTick(_) => before
      case _ => None
  }

  /** A stream is on exactly then, and its text is all its deltas joined together. */
  lemma {:induction false} StreamIsItsDeltas(f: Font, ops: seq<Op>)
    ensures var s := Run(f, ops).s;
            && (s.streamMode <==> Streamed(ops).Some?)
            && (s.streamMode ==> s.streamQueued == Streamed(ops).value == Run(f, ops).enqueued)
  {
    hide Step;
    RunConserves(f, ops);
    if ops != [] {
      StreamIsItsDeltas(f, ops[..|ops| - 1]);
      StepStreams(f, Run(f, ops[..|ops| - 1]), ops[|ops| - 1]);
    }
  }

  lemma StepStreams(f: Font, tr: Trace, op: Op)
    ensures var s, s' := tr.s, Step(f, tr, op).s;
            match op
            case Delta(text) =>
              if text == "" then s' == s
              else s'.streamMode && s'.streamQueued == (if s.streamMode then s.streamQueued else "") + text
            case Stream => s'.streamMode && s'.streamQueued == ""
            case TypeTick(_) => s'.streamMode == s.streamMode && s'.streamQueued == s.streamQueued
            case _ => !s'.streamMode
  {
    hide Lines, LastLines, Logged, Width, Trim, UnitLen;
    if op.Delta? {
      assert "" + op.text == op.text;
    }
  }

  /**
   * Reconciliation: when the full text arrives, all of it and nothing else is what is logged,
   * being typed and waiting, so each of its characters is revealed exactly once from here on.
   * If it does not continue the streamed text, that text has been flushed whole into the past.
   */
  lemma FullTextIsShownOnce(f: Font, ops: seq<Op>, full: string)
    ensures var before, tr := Run(f, ops), Step(f, Run(f, ops), Full(full));
            && tr.enqueued == full && !tr.s.streamMode
            && Join(tr.lines) + NoNewlines(tr.s.curLine + tr.s.typingRest) == NoNewlines(full)
            && (Continues(before.s, full) ==> tr.lines == before.lines && tr.base == before.base)
            && (!Continues(before.s, full) ==>
                 tr.lines == [] && tr.s.curLine == ""
                 && tr.base == before.base + Logged(LogFlush(f, before).lines, before.s.curColor)
                 && Join(LogFlush(f, before).lines) == NoNewlines(before.enqueued))
  {
    RunConserves(f, ops);
    var before := Run(f, ops);
    StepIsGood(f, before, Full(full));
    FlushIsGood(f, before);
    FullEnqueued(f, before, full);
  }

  lemma FullEnqueued(f: Font, tr: Trace, full: string)
    requires tr.s.streamMode ==> tr.enqueued == tr.s.streamQueued
    ensures Step(f, tr, Full(full)).enqueued == full
  {
    if Continues(tr.s, full) {
      var n := |tr.s.streamQueued|;
      assert full == full[..n] + full[n..];
    }
  }

  // ---------- when text adds something ----------

  /** Every line ever logged, whatever the bounded history has dropped since. */
  function AllLogged(tr: Trace): seq<Line> {
    tr.base + Logged(tr.lines, tr.s.curColor)
  }

  /** Nothing more was logged, and what is being typed and waiting is as before. */
  predicate NothingAdded(tr: Trace, tr': Trace) {
    AllLogged(tr') == AllLogged(tr) && tr'.s.curLine == tr.s.curLine && tr'.s.typingRest == tr.s.typingRest
  }

  /**
   * A full text adds nothing exactly if it is the text streamed so far, or, when it does not
   * continue a stream, if it is empty and nothing is being typed or waiting.
   */
  predicate AddsNothing(s: Subtitles, full: string) {
    if Continues(s, full) then full == s.streamQueued
    else full == "" && s.typingRest == "" && s.curLine == ""
  }

  lemma FlushAdds(f: Font, tr: Trace)
    ensures AllLogged(LogFlush(f, tr)) == AllLogged(tr) <==> tr.s.typingRest == "" && tr.s.curLine == ""
  {
    hide Width, PushLine;
    var s := tr.s;
    if s.typingRest != "" || s.curLine != "" {
      var pushed := s.curLine + s.typingRest;
      LoggedConcat(tr.lines, Lines(f, pushed), s.curColor);
      assert |AllLogged(LogFlush(f, tr))| == |AllLogged(tr)| + |Lines(f, pushed)|;
    }
  }

  lemma ClosingAddsNothing(tr: Trace, s: Subtitles)
    ensures AllLogged(Close(tr).(s := s)) == AllLogged(tr)
  {
    NothingLogged(s.curColor);
  }

  lemma FullTextAddsNothingExactly(f: Font, tr: Trace, full: string)
    ensures NothingAdded(tr, Step(f, tr, Full(full))) <==> AddsNothing(tr.s, full)
  {
    hide FlushTyping, Logged, LogFlush;
    if Continues(tr.s, full) {
      var more := full[|tr.s.streamQueued|..];
      assert full == tr.s.streamQueued + more;
      assert |tr.s.typingRest + more| == |tr.s.typingRest| + |more|;
      if more == "" {
        assert tr.s.typingRest + more == tr.s.typingRest && full == tr.s.streamQueued;
      }
    } else {
      FlushAdds(f, tr);
      ClosingAddsNothing(LogFlush(f, tr), SetFullText(f, tr.s, full));
      FlushKeepsColor(f, tr);
    }
  }

  lemma FlushKeepsColor(f: Font, tr: Trace)
    ensures LogFlush(f, tr).s == FlushTyping(f, tr.s) && FlushTyping(f, tr.s).curColor == tr.s.curColor
  {
    hide Lines, LastLines, Logged;
  }

  // ---------- what one reveal is ----------

  predicate Spaces(s: string) {
    forall i :: 0 <= i < |s| ==> s[i] == ' '
  }

  /** The printable ASCII characters, the space apart. */
  predicate Printable(c: char) {
    33 <= c as int <= 126
  }

  predicate Word(s: string) {
    s != "" && forall i :: 0 <= i < |s| ==> Printable(s[i])
  }

  lemma {:induction false} SpaceRunIs(s: string, i: nat)
    requires i <= |s|
    ensures var j := SpaceRun(s, i);
            Spaces(s[i..j]) && (j < |s| ==> s[j] != ' ')
    decreases |s| - i
  {
    if i < |s| && s[i] == ' ' {
      SpaceRunIs(s, i + 1);
      var j := SpaceRun(s, i);
      assert s[i..j] == [s[i]] + s[i + 1..j];
    }
  }

  lemma {:induction false} GraphicRunIs(s: string, i: nat)
    requires i <= |s|
    ensures var j := GraphicRun(s, i);
            (forall k :: i <= k < j ==> Printable(s[k])) && (j < |s| ==> !Printable(s[j]))
    decreases |s| - i
  {
    if i < |s| && IsGraphic(s[i]) {
      GraphicRunIs(s, i + 1);
    }
  }

  /**
   * A reveal is some spaces, then either a whole ASCII word with all the spaces after it, or one
   * other character; only spaces at the very end of the queue come alone.
   */
  lemma UnitIsAWordOrACharacter(s: string) returns (a: nat, b: nat)
    requires s != ""
    ensures var n := UnitLen(s);
            && a <= b <= n && Spaces(s[..a])
            && ( || (Word(s[a..b]) && Spaces(s[b..n]) && (n < |s| ==> s[n] != ' ') && (b < |s| ==> !Printable(s[b])))
                 || (b == n == a + 1 && s[a] != ' ' && !Printable(s[a]))
                 || (a == b == n == |s|))
  {
    SpaceRunIs(s, 0);
    a := SpaceRun(s, 0);
    assert s[0..a] == s[..a];
    if a < |s| && IsGraphic(s[a]) {
      GraphicRunIs(s, a + 1);
      b := GraphicRun(s, a + 1);
      SpaceRunIs(s, b);
      forall k | 0 <= k < b - a ensures Printable(s[a..b][k]) {
        assert s[a..b][k] == s[a + k];
      }
    } else {
      b := UnitLen(s);
    }
  }

  /** A reveal never stops inside an ASCII word. */
  lemma WordsStayWhole(s: string)
    requires s != "" && UnitLen(s) < |s|
    ensures !(Printable(s[UnitLen(s) - 1]) && Printable(s[UnitLen(s)]))
  {
    var n := UnitLen(s);
    var a, b := UnitIsAWordOrACharacter(s);
    if b < n {
      assert s[b..n][n - 1 - b] == s[n - 1];
    }
  }

  /** A line the typewriter may show: it fits the screen, or is a single reveal of some queue. */
  ghost predicate TypedLine(f: Font, line: string) {
    Width(f, line) <= SUB_W || exists queue :: queue != "" && line == queue[..UnitLen(queue)]
  }

  lemma TickKeepsTypedLine(f: Font, s: Subtitles, now: u32)
    requires TypedLine(f, s.curLine)
    ensures TypedLine(f, Tick(f, s, now).curLine)
  {
    hide Width, Trim, UnitLen, Lines;
    if Due(s, now) {
      var unit := s.typingRest[..UnitLen(s.typingRest)];
      WidthConcat(f, s.curLine, unit);
      TrimIsNeverNewline(unit);
      assert "" + unit == unit;
    }
  }

  lemma OtherStepsKeepTypedLine(f: Font, tr: Trace, op: Op)
    requires !op.TypeTick?
    ensures var line := Step(f, tr, op).s.curLine; line == tr.s.curLine || line == ""
  {
    hide Width, Lines, LastLines, Logged;
  }

  /** After every run the line being typed fits the screen, or is a single reveal wider than it. */
  lemma {:induction false} TypedLineFits(f: Font, ops: seq<Op>)
    ensures TypedLine(f, Run(f, ops).s.curLine)
  {
    hide TypedLine, Step;
    EmptyLine(f);
    if ops != [] {
      var tr, op := Run(f, ops[..|ops| - 1]), ops[|ops| - 1];
      TypedLineFits(f, ops[..|ops| - 1]);
      if op.TypeTick? {
        TickKeepsTypedLine(f, tr.s, op.now);
        TickStepIs(f, tr, op.now);
      } else {
        OtherStepsKeepTypedLine(f, tr, op);
      }
    }
  }

  lemma EmptyLine(f: Font)
    ensures TypedLine(f, "")
  {
    EmptyFits(f);
  }

  lemma TickStepIs(f: Font, tr: Trace, now: u32)
    ensures Step(f, tr, TypeTick(now)).s == Tick(f, tr.s, now)
  {
    hide Tick, Lines, Width;
  }

  // ---------- what one tick does ----------

  /**
   * A tick types exactly if text waits and 143 ms have passed on the wrapping clock since the last
   * one that did. It takes n characters off the queue; they join the line being typed as long as
   * it fits the screen with them or is empty, and otherwise the line is logged and they start a
   * new one.
   */
  lemma TickTypes(f: Font, s: Subtitles, now: u32) returns (n: nat)
    ensures s.typingRest == "" || (now - s.lastTypeMs) % 0x1_0000_0000 < 143 ==> Tick(f, s, now) == s
    ensures s.typingRest != "" && (now - s.lastTypeMs) % 0x1_0000_0000 >= 143 ==>
      var s' := Tick(f, s, now);
      && 1 <= n <= |s.typingRest| && n == UnitLen(s.typingRest)
      && var line, unit := s.curLine, s.typingRest[..n];
      var breaks := line != "" && Width(f, line + unit) > SUB_W;
      && s'.curLine == (if breaks then unit else line + unit)
      && s'.history == (if breaks then PushLine(f, s, line, s.curColor).history else s.history)
      && s'.typingRest == s.typingRest[n..] && s'.lastTypeMs == now
      && s'.(history := s.history, curLine := line, typingRest := s.typingRest, lastTypeMs := s.lastTypeMs) == s
  {
    hide Width, Trim, Lines, LastLines, Logged, UnitLen;
    if s.typingRest == "" {
      n := 0;
    } else {
      n := UnitLen(s.typingRest);
      var unit := s.typingRest[..n];
      WidthConcat(f, s.curLine, unit);
      TrimIsNeverNewline(unit);
      assert "" + unit == unit;
    }
  }

  /** Nothing but a tick that types moves its clock; so any two are at least 143 ms apart. */
  lemma OnlyTypingStamps(f: Font, tr: Trace, op: Op)
    ensures Step(f, tr, op).s.lastTypeMs != tr.s.lastTypeMs ==>
      && op.TypeTick? && Step(f, tr, op).s.lastTypeMs == op.now
      && (op.now - tr.s.lastTypeMs) % 0x1_0000_0000 >= 143
  {
    hide Width, Trim, Lines, LastLines, Logged, UnitLen;
  }

  // ---------- what is in the history ----------

  /** The newest 80 lines of these, oldest first. */
  predicate Newest(h: seq<Line>, all: seq<Line>) {
    |h| == (if |all| <= 80 then |all| else 80) && h == all[|all| - |h|..]
  }

  /** The lines as they show in a colour, an empty one as a space. */
  predicate Shows(shown: seq<Line>, lines: seq<string>, color: u16) {
    |shown| == |lines| && forall i :: 0 <= i < |lines| ==> shown[i] == Line(if lines[i] == "" then " " else lines[i], color)
  }

  /** Text is logged line by line, and the newest lines are kept. */
  lemma LinesAreLogged(f: Font, s: Subtitles, text: string, color: u16) returns (shown: seq<Line>)
    ensures Shows(shown, Lines(f, text), color)
    ensures Newest(PushLine(f, s, text, color).history, s.history + shown)
  {
    hide Lines;
    shown := Logged(Lines(f, text), color);
  }

  /** After every run the history is the newest 80 lines of all that were logged. */
  lemma HistoryIsNewest(f: Font, ops: seq<Op>)
    ensures Newest(Run(f, ops).s.history, AllLogged(Run(f, ops)))
  {
    RunConserves(f, ops);
  }

  /** What is typed is always in the colour of replies. */
  lemma {:induction false} RepliesKeepTheirColor(f: Font, ops: seq<Op>)
    ensures Run(f, ops).s.curColor == 0x07FF
  {
    hide Step;
    if ops != [] {
      RepliesKeepTheirColor(f, ops[..|ops| - 1]);
      StepKeepsColor(f, Run(f, ops[..|ops| - 1]), ops[|ops| - 1]);
    }
  }

  lemma StepKeepsColor(f: Font, tr: Trace, op: Op)
    requires tr.s.curColor == 0x07FF
    ensures Step(f, tr, op).s.curColor == 0x07FF
  {
    hide Width, Trim, Lines, LastLines, Logged, UnitLen;
  }

  lemma UserLineIs(f: Font, s: Subtitles, text: string)
    ensures AddUserLine(f, s, text).history == PushLine(f, FlushTyping(f, s), "\U{6211}:" + text, 0x07E0).history
    ensures AddUserLine(f, s, text).typingRest == "" && AddUserLine(f, s, text).curLine == ""
    ensures !AddUserLine(f, s, text).streamMode
  {
    hide Lines, LastLines, Logged;
  }

  /** A user line is logged in its own colour, after everything that was being typed. */
  lemma UserLineIsLogged(f: Font, tr: Trace, text: string) returns (shown: seq<Line>)
    ensures Shows(shown, Lines(f, "\U{6211}:" + text), 0x07E0)
    ensures var s' := Step(f, tr, UserLine(text)).s;
            && s'.typingRest == "" && s'.curLine == "" && !s'.streamMode
            && Newest(s'.history, LogFlush(f, tr).s.history + shown)
  {
    hide Lines, LastLines, Logged, PushLine, Shows, Newest, FlushTyping;
    shown := LinesAreLogged(f, FlushTyping(f, tr.s), "\U{6211}:" + text, 0x07E0);
    UserLineIs(f, tr.s, text);
    FlushKeepsColor(f, tr);
  }

  // ---------- progress ----------

  /** Each due tick takes at least one character off the queue; any other leaves it alone. */
  lemma TickReveals(f: Font, s: Subtitles, now: u32)
    ensures Due(s, now) ==> |Tick(f, s, now).typingRest| < |s.typingRest|
    ensures !Due(s, now) ==> Tick(f, s, now) == s
    ensures Tick(f, s, now).curLine == s.curLine || Due(s, now)
  {
    hide Trim, Width, Lines;
  }

  /** Clock times far enough apart, each due after the one before. */
  predicate Spaced(last: u32, times: seq<u32>)
    decreases |times|
  {
    times == [] || ((times[0] - last) % 0x1_0000_0000 >= TYPE_INTERVAL_MS && Spaced(times[0], times[1..]))
  }

  function Ticks(f: Font, s: Subtitles, times: seq<u32>): Subtitles
    decreases |times|
  {
    if times == [] then s else Ticks(f, Tick(f, s, times[0]), times[1..])
  }

  /** As many spaced ticks as characters wait reveal everything. */
  lemma {:induction false} TicksRevealAll(f: Font, s: Subtitles, times: seq<u32>)
    requires Spaced(s.lastTypeMs, times) && |times| >= |s.typingRest|
    ensures Ticks(f, s, times).typingRest == ""
    decreases |times|
  {
    hide Tick;
    if times != [] {
      TickReveals(f, s, times[0]);
      var s' := Tick(f, s, times[0]);
      if s.typingRest == "" {
        EmptyStays(f, s, times);
      } else {
        TickStamps(f, s, times[0]);
        TicksRevealAll(f, s', times[1..]);
      }
    }
  }

  lemma TickStamps(f: Font, s: Subtitles, now: u32)
    requires Due(s, now)
    ensures Tick(f, s, now).lastTypeMs == now
  {
    hide Trim, Width, Lines, UnitLen;
  }

  lemma {:induction false} EmptyStays(f: Font, s: Subtitles, times: seq<u32>)
    requires s.typingRest == ""
    ensures Ticks(f, s, times) == s
    decreases |times|
  {
    if times != [] {
      EmptyStays(f, s, times[1..]);
    }
  }
}
