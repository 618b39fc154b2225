/**
 * The two tasks of src/main.rs in program order. Dispatch lets every step follow every other,
 * which is what a safety result wants. Here each task takes its steps as its own loop does, and
 * the two interleave freely: what is shown to happen here is what the program can do.
 */
module LoopRuns {
  import opened Bytes
  import opened Options
  import opened Font
  import opened AudioSpec
  import opened Dispatch
  import AR = AudioRuns
  import Base64
  import D = Display
  import M = Messages
  import RT = RoundTracker
  import Utf8
  import opened Wrap

  /** The main loop: at its top or at the volume keys, then pumped, typed, and inside a state's arm. */
  datatype MainPc = Top | Pumped | Typed | Restarted | Checked | Left | Held | Resumed

  /** The voice task: no link, tracker reset, about to look for a request, waiting for a frame. */
  datatype VoicePc = Offline | Opening | Polling | Receiving

  datatype Pc = Pc(main: MainPc, voice: VoicePc)

  datatype Machine = Machine(pc: Pc, s: Sys)

  /** Where the main loop is after a step, if it can take the step now. */
  function MainTurn(pc: MainPc, s: Sys, op: Step): Option<MainPc> {
    match op
    case Pump(_) => if pc.Top? then Some(Pumped) else None
    case TypeTick(_) => if pc.Pumped? then Some(Typed) else None
    case IdlePoll(_, _) => if pc.Typed? && s.loop.state.Idle? then Some(Top) else None
    case TalkWhenIdle(now, linkSeen, _) =>
      if pc.Typed? && s.loop.state.Idle? && !MayAutoListen(s.(wsUp := linkSeen), now) then Some(Top) else None
    case RestartCapture(_) => if pc.Typed? && s.loop.state.Listening? then Some(Restarted) else None
    case PlaybackCheck =>
      if pc.Restarted? || (pc.Typed? && s.loop.state.Listening?) then Some(Checked) else None
    case ManualExit(_) => if pc.Checked? then Some(Left) else None
    case TimeoutCheck(_) => if pc.Checked? || pc.Left? then Some(Top) else None
    case RequestInterrupt => if pc.Typed? && s.loop.state.Playing? then Some(Held) else None
    case ResumeAfterInterrupt(_, _) => if pc.Held? then Some(Resumed) else None
    case DrainCheck(_, _) => if pc.Resumed? || (pc.Typed? && s.loop.state.Playing?) then Some(Top) else None
    case Volume(_) | Beep(_) => if pc.Top? then Some(Top) else None
    case _ => None
  }

  /** And where the voice task is; waiting for a frame times out, which leads back to the request. */
  function VoiceTurn(pc: VoicePc, op: Step): Option<VoicePc> {
    match op
    case SessionStart => if pc.Offline? then Some(Opening) else None
    case SessionSent(ok) => if !pc.Opening? then None else if ok then Some(Polling) else Some(Offline)
    case TakeInterrupt => if pc.Polling? || pc.Receiving? then Some(Receiving) else None
    case Server(_, _, _) => if pc.Receiving? then Some(Polling) else None
    case Disconnect => if pc.Polling? || pc.Receiving? then Some(Offline) else None
    case _ => None
  }

  function Turn(pc: Pc, s: Sys, op: Step): Option<Pc> {
    match MainTurn(pc.main, s, op)
    case Some(main) => Some(pc.(main := main))
    case None =>
      match VoiceTurn(pc.voice, op)
      case Some(voice) => Some(pc.(voice := voice))
      case None => None
  }

  function PowerOn(cap: nat, tx: Tx, stream: Stream): Machine {
    Machine(Pc(Top, Offline), Boot(cap, tx, stream))
  }

  /** Where the program is after these steps, if it can take them in this order. */
  function Exec(f: Font, m: Machine, ops: seq<Step>): Option<Machine>
    decreases |ops|
  {
    if ops == [] then Some(m)
    else if !Good(m.s) then None
    else
      match Turn(m.pc, m.s, ops[0])
      case None => None
      case Some(pc) => Exec(f, Machine(pc, Next(f, m.s, ops[0])), ops[1..])
  }

  /** Whatever holds along every schedule of Dispatch holds along these. */
  lemma {:induction false} ExecIsReachable(f: Font, m: Machine, ops: seq<Step>)
    requires Exec(f, m, ops).Some?
    ensures Reachable(f, m.s, ops, Exec(f, m, ops).value.s)
    decreases |ops|
  {
    hide Next, Good, Turn;
    if ops != [] {
      GoodMeans(m.s);
      ExecIsReachable(f, Machine(Turn(m.pc, m.s, ops[0]).value, Next(f, m.s, ops[0])), ops[1..]);
    }
  }

  lemma ExecNothing(f: Font, m: Machine)
    ensures Exec(f, m, []) == Some(m)
  {
  }

  /** One step at the front. */
  lemma Goes(f: Font, m: Machine, op: Step, ops: seq<Step>)
    requires Good(m.s) && Turn(m.pc, m.s, op).Some?
    ensures Exec(f, m, [op] + ops) == Exec(f, Machine(Turn(m.pc, m.s, op).value, Next(f, m.s, op)), ops)
    ensures Good(Next(f, m.s, op))
  {
    hide Next, Good, Turn;
    assert ([op] + ops)[1..] == ops;
    NextKeepsGood(f, m.s, op);
  }

  lemma {:induction false} GoesOn(f: Font, m: Machine, a: seq<Step>, b: seq<Step>)
    requires Exec(f, m, a).Some?
    ensures Exec(f, m, a + b) == Exec(f, Exec(f, m, a).value, b)
    decreases |a|
  {
    hide Next, Good, Turn;
    if a == [] {
      assert a + b == b;
    } else {
      assert (a + b)[1..] == a[1..] + b;
      GoodMeans(m.s);
      GoesOn(f, Machine(Turn(m.pc, m.s, a[0]).value, Next(f, m.s, a[0])), a[1..], b);
    }
  }

  // ---------- runs from power-on ----------

  /** A DMA that offers nothing. */
  const NO_ROOM: TickEnv := TickEnv(false, 0, false)

  /** A pass of the main loop up to its arm, with nothing playing and nothing to type. */
  function Pass(now: u32): seq<Step> {
    [Pump(NO_ROOM), TypeTick(now)]
  }

  const CONNECTED: seq<Step> := [SessionStart, SessionSent(true)]

  const LISTENS: seq<Step> := CONNECTED + Pass(6000) + [IdlePoll(6000, true)]

  predicate Resting(s: Sys) {
    Good(s) && !s.audio.started && |s.audio.queue| < PLAY_WATERMARK_BYTES && !s.audio.done && s.audio.xfer.None?
    && s.subs.typingRest == ""
  }

  lemma PassIsIdle(f: Font, m: Machine, now: u32)
    requires Resting(m.s) && m.pc.main.Top?
    ensures Exec(f, m, Pass(now)) == Some(m.(pc := m.pc.(main := Typed)))
  {
    hide Inv, Slice, AfterPop;
    Goes(f, m, Pump(NO_ROOM), [TypeTick(now)]);
    assert Next(f, m.s, Pump(NO_ROOM)) == m.s;
    Goes(f, m.(pc := m.pc.(main := Pumped)), TypeTick(now), []);
  }

  lemma Connects(f: Font, m: Machine)
    requires Good(m.s) && m.pc.voice.Offline?
    ensures Exec(f, m, CONNECTED)
         == Some(Machine(m.pc.(voice := Polling), m.s.(tracker := RT.Step(m.s.tracker, RT.Reset), wsUp := true)))
  {
    hide Inv;
    Goes(f, m, SessionStart, [SessionSent(true)]);
    var m' := Machine(m.pc.(voice := Opening), Next(f, m.s, SessionStart));
    Goes(f, m', SessionSent(true), []);
  }

  /** The first listening: connected, and the main loop's first pass after five seconds. */
  lemma Listens(f: Font, cap: nat, tx: Tx, stream: Stream)
    requires cap >= 2 && cap % 2 == 0
    ensures var s := Boot(cap, tx, stream).(wsUp := true);
            && Resting(StartListening(s, 6000, true))
            && Exec(f, PowerOn(cap, tx, stream), LISTENS)
            == Some(Machine(Pc(Top, Polling), StartListening(s, 6000, true)))
  {
    hide Exec;
    var m := PowerOn(cap, tx, stream);
    Connects(f, m);
    var m' := Machine(Pc(Top, Polling), m.s.(wsUp := true));
    PassIsIdle(f, m', 6000);
    var m'' := m'.(pc := Pc(Typed, Polling));
    Goes(f, m'', IdlePoll(6000, true), []);
    GoesOn(f, m, CONNECTED, Pass(6000));
    GoesOn(f, m, CONNECTED + Pass(6000), [IdlePoll(6000, true)]);
    ExecNothing(f, Machine(Pc(Top, Polling), StartListening(m'.s, 6000, true)));
    assert [IdlePoll(6000, true)] + [] == [IdlePoll(6000, true)];
  }

  /** What the voice task does when a frame with this event arrives. */
  function Frame(ev: M.ServerEvent, now: u32, starts: bool): seq<Step> {
    [TakeInterrupt, Server(ev, now, starts)]
  }

  /** Without a request to take, a frame is just its event. */
  lemma FrameIsHandled(f: Font, m: Machine, ev: M.ServerEvent, now: u32, starts: bool)
    requires Good(m.s) && !m.s.intReq && (m.pc.voice.Polling? || m.pc.voice.Receiving?)
    ensures Exec(f, m, Frame(ev, now, starts))
         == Some(Machine(m.pc.(voice := Polling), Handle(f, m.s, ev, now, starts)))
    ensures Good(Handle(f, m.s, ev, now, starts))
  {
    hide Inv, Handle;
    Goes(f, m, TakeInterrupt, [Server(ev, now, starts)]);
    var m' := m.(pc := m.pc.(voice := Receiving));
    assert Next(f, m.s, TakeInterrupt) == m.s;
    Goes(f, m', Server(ev, now, starts), []);
    ServerIs(f, m.s, Server(ev, now, starts));
  }

  const REFUSED: seq<Step> :=
    LISTENS + Frame(M.AsrResult("x"), 7000, true) + Frame(M.AssistantError("e"), 8000, false)

  /**
   * A run from power-on: listening, a recognised sentence, an error. The capture does not start
   * again, so the device is back in Listening, marked on everywhere, and records nothing.
   */
  lemma ErrorLeavesItUnheard(f: Font, cap: nat, tx: Tx, stream: Stream)
    requires cap >= 2 && cap % 2 == 0
    ensures var run := Exec(f, PowerOn(cap, tx, stream), REFUSED);
            && run.Some?
            && var s := run.value.s;
            && s.loop.state.Listening? && s.wsUp && s.micActive && !Hears(s) && !Stranded(s)
  {
    hide Exec, Inv, D.AddUserLine, D.FlushTyping;
    var m := PowerOn(cap, tx, stream);
    Listens(f, cap, tx, stream);
    var m1 := Exec(f, m, LISTENS).value;
    FrameIsHandled(f, m1, M.AsrResult("x"), 7000, true);
    GoesOn(f, m, LISTENS, Frame(M.AsrResult("x"), 7000, true));
    var m2 := Machine(m1.pc, Handle(f, m1.s, M.AsrResult("x"), 7000, true));
    FrameIsHandled(f, m2, M.AssistantError("e"), 8000, false);
    GoesOn(f, m, LISTENS + Frame(M.AsrResult("x"), 7000, true), Frame(M.AssistantError("e"), 8000, false));
  }

  const DEAFENED: seq<Step> := LISTENS + [Disconnect] + CONNECTED + Frame(M.Error("asr"), 9000, true)

  /** Another: listening, a disconnect, a new session, an error. The uplink flag stays down. */
  lemma ErrorAfterReconnectStaysDeaf(f: Font, cap: nat, tx: Tx, stream: Stream)
    requires cap >= 2 && cap % 2 == 0
    ensures var run := Exec(f, PowerOn(cap, tx, stream), DEAFENED);
            && run.Some?
            && var s := run.value.s;
            && s.loop.state.Listening? && s.wsUp && s.capturing && !s.micActive && Stranded(s)
  {
    hide Exec, Inv;
    var m := PowerOn(cap, tx, stream);
    Listens(f, cap, tx, stream);
    var m1 := Exec(f, m, LISTENS).value;
    Goes(f, m1, Disconnect, []);
    ExecNothing(f, Machine(Pc(Top, Offline), Next(f, m1.s, Disconnect)));
    assert [Disconnect] + [] == [Disconnect];
    GoesOn(f, m, LISTENS, [Disconnect]);
    var m2 := Machine(Pc(Top, Offline), Next(f, m1.s, Disconnect));
    Connects(f, m2);
    GoesOn(f, m, LISTENS + [Disconnect], CONNECTED);
    var m3 := Exec(f, m2, CONNECTED).value;
    FrameIsHandled(f, m3, M.Error("asr"), 9000, true);
    GoesOn(f, m, LISTENS + [Disconnect] + CONNECTED, Frame(M.Error("asr"), 9000, true));
  }

  // ---------- late text ----------

  const ASR: M.ServerEvent := M.AsrResult("x")
  const AUDIO: M.ServerEvent := M.AudioStart(Some(16000))
  const SAMPLE: M.ServerEvent := M.AudioChunk("AAA=")

  /** A sentence is recognised and the first sample of the reply arrives. */
  const SPEAKS: seq<Step> := Frame(ASR, 7000, true) + Frame(AUDIO, 7100, true) + Frame(SAMPLE, 7200, true)

  /** The main loop notices that speech is queued; the voice task is waiting for a frame. */
  const PLAYS: seq<Step> := LISTENS + SPEAKS + [TakeInterrupt] + Pass(8000) + [PlaybackCheck, TimeoutCheck(8000)]

  /** And on its next pass the button is pressed. */
  const REQUESTED: seq<Step> := PLAYS + Pass(8001) + [RequestInterrupt]

  lemma SampleText()
    ensures Utf8.Encode("AAA=") == [65, 65, 65, 61]
  {
    Utf8.EncodeUnfolds("AAA=");
    Utf8.EncodeUnfolds("AA=");
    Utf8.EncodeUnfolds("A=");
    Utf8.EncodeUnfolds("=");
    assert "AAA="[1..] == "AA=" && "AA="[1..] == "A=" && "A="[1..] == "=" && "="[1..] == "";
  }

  lemma SampleGroups()
    ensures Base64.Groups([65, 65, 65, 61]) == [0, 0, 0]
  {
    Base64.GroupsUnfold([65, 65, 65, 61]);
    Base64.GroupsUnfold([65, 65, 61]);
    Base64.GroupsUnfold([65, 61]);
    Base64.GroupsUnfold([61]);
  }

  lemma OneSample()
    ensures |Pcm("AAA=")| == 2
  {
    hide Base64.Decoded, Base64.Groups, Base64.Pow2, Base64.BytesNumber, Base64.GroupsNumber, Utf8.Encode;
    SampleText();
    SampleGroups();
    Base64.DecodedIsABitStream([65, 65, 65, 61]);
  }

  predicate UserLineNewest(s: D.Subtitles) {
    s.typingRest == "" && s.curLine == "" && s.history != [] && s.history[|s.history| - 1].color == D.USER_COLOR
  }

  /** Speech is queued and has not started; nothing is typed, and the user's line is the newest. */
  predicate Spoken(s: Sys) {
    && Resting(s) && s.audio.streaming && s.audio.queue != [] && !s.intReq && UserLineNewest(s.subs)
    && s.tracker == RT.NEW.(receivedAudio := true, voiceAudioOn := true)
  }

  lemma PushedLineIsLast(f: Font, s: D.Subtitles, text: string, color: u16)
    ensures var h := D.PushLine(f, s, text, color).history;
            h != [] && h[|h| - 1].color == color
  {
    var all := s.history + D.Logged(Lines(f, text), color);
    assert all[|all| - 1] == D.Logged(Lines(f, text), color)[|Lines(f, text)| - 1];
  }

  lemma UserLineIsLast(f: Font)
    ensures UserLineNewest(D.AddUserLine(f, D.BLANK, "x"))
  {
    hide Lines, D.Logged, D.LastLines;
    PushedLineIsLast(f, D.BLANK, D.PREFIX + "x", D.USER_COLOR);
  }

  /** The three events one by one. */
  lemma Recognised(f: Font, s: Sys)
    requires Good(s) && s.tracker == RT.NEW.(micActive := true) && s.subs == D.BLANK
    ensures var s' := Handle(f, s, ASR, 7000, true);
            && s'.tracker == RT.NEW && s'.audio == s.audio && s'.loop == s.loop && s'.intReq == s.intReq
            && s'.subs == D.AddUserLine(f, D.BLANK, "x")
  {
    hide Inv, D.AddUserLine;
  }

  lemma StreamOpens(f: Font, s: Sys)
    requires Good(s) && s.tracker == RT.NEW
    ensures var s' := Handle(f, s, AUDIO, 7100, true);
            && s'.tracker == RT.NEW.(receivedAudio := true, voiceAudioOn := true)
            && s'.audio == AudioSpec.BeginStream(s.audio, 16000)
            && s'.loop == s.loop && s'.intReq == s.intReq && s'.subs == s.subs
  {
    hide Inv, AudioSpec.BeginStream;
  }

  lemma SampleArrives(f: Font, s: Sys)
    requires Good(s) && s.tracker == RT.NEW.(receivedAudio := true, voiceAudioOn := true)
    ensures var s' := Handle(f, s, SAMPLE, 7200, true);
            && s'.tracker == s.tracker && s'.audio == FeedBytes(s.audio, Pcm("AAA="))
            && s'.loop == s.loop && s'.intReq == s.intReq && s'.subs == s.subs
  {
    hide Inv, FeedBytes, Pcm;
  }

  lemma SampleIsQueued(cap: nat, tx: Tx, stream: Stream)
    requires cap >= 2 && cap % 2 == 0
    ensures var s := AudioSpec.BeginStream(Initial(cap, tx, stream), 16000);
            var s' := FeedBytes(s, Pcm("AAA="));
            && s'.streaming && !s'.started && !s'.done && s'.xfer.None? && 1 <= |s'.queue| <= 2
  {
    hide Pcm;
    OneSample();
  }

  lemma Speaks(f: Font, cap: nat, tx: Tx, stream: Stream)
    requires cap >= 2 && cap % 2 == 0
    ensures var run := Exec(f, PowerOn(cap, tx, stream), LISTENS + SPEAKS);
            && run.Some? && run.value.pc == Pc(Top, Polling) && Spoken(run.value.s)
            && run.value.s.loop.state.Listening? && run.value.s.loop.listenStarted == 6000
  {
    hide Exec, Inv, Handle, D.AddUserLine, Pcm, AudioSpec.BeginStream, FeedBytes;
    var m := PowerOn(cap, tx, stream);
    Listens(f, cap, tx, stream);
    var m0 := Exec(f, m, LISTENS).value;
    FrameIsHandled(f, m0, ASR, 7000, true);
    Recognised(f, m0.s);
    var m1 := m0.(s := Handle(f, m0.s, ASR, 7000, true));
    FrameIsHandled(f, m1, AUDIO, 7100, true);
    StreamOpens(f, m1.s);
    var m2 := m1.(s := Handle(f, m1.s, AUDIO, 7100, true));
    FrameIsHandled(f, m2, SAMPLE, 7200, true);
    SampleArrives(f, m2.s);
    var m3 := m2.(s := Handle(f, m2.s, SAMPLE, 7200, true));
    GoesOn(f, m0, Frame(ASR, 7000, true), Frame(AUDIO, 7100, true));
    GoesOn(f, m0, Frame(ASR, 7000, true) + Frame(AUDIO, 7100, true), Frame(SAMPLE, 7200, true));
    GoesOn(f, m, LISTENS, SPEAKS);
    UserLineIsLast(f);
    SampleIsQueued(cap, tx, stream);
  }

  /** The interrupt is requested; the voice task has not seen it. */
  predicate Requested(s: Sys) {
    && Good(s) && s.intReq && !s.subs.streamMode && UserLineNewest(s.subs)
    && s.tracker == RT.NEW.(receivedAudio := true, voiceAudioOn := true)
  }

  /** The speech is noticed. */
  lemma Notices(f: Font, m: Machine)
    requires Spoken(m.s) && m.s.loop.state.Listening? && m.s.loop.listenStarted == 6000 && m.pc == Pc(Typed, Receiving)
    ensures var run := Exec(f, m, [PlaybackCheck, TimeoutCheck(8000)]);
            && run.Some? && run.value.pc == Pc(Top, Receiving) && Spoken(run.value.s)
            && run.value.s.loop.state.Playing? && run.value.s.loop.quietSince.None?
  {
    hide Inv, Exec;
    var s := GoPlaying(StopListening(m.s));
    Goes(f, m, PlaybackCheck, [TimeoutCheck(8000)]);
    assert Next(f, m.s, PlaybackCheck) == s;
    Goes(f, Machine(Pc(Checked, Receiving), s), TimeoutCheck(8000), []);
    assert !TimedOut(s, 8000);
    ExecNothing(f, Machine(Pc(Top, Receiving), s));
    assert [PlaybackCheck] + [TimeoutCheck(8000)] == [PlaybackCheck, TimeoutCheck(8000)];
    assert [TimeoutCheck(8000)] + [] == [TimeoutCheck(8000)];
  }

  lemma NothingToTake(f: Font, s: Sys)
    requires Inv(s.audio) && !s.intReq
    ensures Next(f, s, TakeInterrupt) == s
  {
  }

  /** From power-on to the first reply. */
  lemma StartsPlaying(f: Font, cap: nat, tx: Tx, stream: Stream)
    requires cap >= 2 && cap % 2 == 0
    ensures var run := Exec(f, PowerOn(cap, tx, stream), PLAYS);
            && run.Some? && run.value.pc == Pc(Top, Receiving) && Spoken(run.value.s)
            && run.value.s.loop.state.Playing? && run.value.s.loop.quietSince.None?
  {
    hide Exec, Inv, Next;
    var m := PowerOn(cap, tx, stream);
    Speaks(f, cap, tx, stream);
    var m1 := Exec(f, m, LISTENS + SPEAKS).value;
    Goes(f, m1, TakeInterrupt, []);
    NothingToTake(f, m1.s);
    assert [TakeInterrupt] + [] == [TakeInterrupt];
    var m2 := m1.(pc := Pc(Top, Receiving));
    ExecNothing(f, m2);
    GoesOn(f, m, LISTENS + SPEAKS, [TakeInterrupt]);
    PassIsIdle(f, m2, 8000);
    GoesOn(f, m, LISTENS + SPEAKS + [TakeInterrupt], Pass(8000));
    Notices(f, m2.(pc := Pc(Typed, Receiving)));
    GoesOn(f, m, LISTENS + SPEAKS + [TakeInterrupt] + Pass(8000), [PlaybackCheck, TimeoutCheck(8000)]);
  }

  const OVERHEARD: seq<Step> := PLAYS + Frame(M.Error("asr"), 8500, true)

  /** A run from power-on in which speech is queued, the device plays it, and it records as well. */
  lemma ErrorIsOverheard(f: Font, cap: nat, tx: Tx, stream: Stream)
    requires cap >= 2 && cap % 2 == 0
    ensures var run := Exec(f, PowerOn(cap, tx, stream), OVERHEARD);
            run.Some? && Overheard(run.value.s) && Hears(run.value.s) && run.value.s.audio.queue != []
  {
    hide Exec, Inv;
    var m := PowerOn(cap, tx, stream);
    StartsPlaying(f, cap, tx, stream);
    FrameIsHandled(f, Exec(f, m, PLAYS).value, M.Error("asr"), 8500, true);
    GoesOn(f, m, PLAYS, Frame(M.Error("asr"), 8500, true));
  }

  lemma Requests(f: Font, cap: nat, tx: Tx, stream: Stream)
    requires cap >= 2 && cap % 2 == 0
    ensures var run := Exec(f, PowerOn(cap, tx, stream), REQUESTED);
            run.Some? && run.value.pc == Pc(Held, Receiving) && Requested(run.value.s)
  {
    hide Exec, Inv;
    var m := PowerOn(cap, tx, stream);
    StartsPlaying(f, cap, tx, stream);
    var m1 := Exec(f, m, PLAYS).value;
    PassIsIdle(f, m1, 8001);
    GoesOn(f, m, PLAYS, Pass(8001));
    var m2 := m1.(pc := Pc(Typed, Receiving));
    Goes(f, m2, RequestInterrupt, []);
    ExecNothing(f, Machine(Pc(Held, Receiving), Next(f, m2.s, RequestInterrupt)));
    assert [RequestInterrupt] + [] == [RequestInterrupt];
    GoesOn(f, m, PLAYS + Pass(8001), [RequestInterrupt]);
  }

  const INTERRUPTED: seq<Step> := REQUESTED + [TakeInterrupt]

  lemma Interrupts(f: Font, m: Machine)
    requires Requested(m.s) && m.pc == Pc(Held, Receiving)
    ensures var s := Next(f, m.s, TakeInterrupt);
            && Exec(f, m, [TakeInterrupt]) == Some(Machine(m.pc, s)) && Good(s) && Silent(s)
            && !s.intReq && s.subs == m.s.subs
  {
    hide Inv, StopPlayback, D.FlushTyping;
    InterruptSilences(f, m.s);
    Goes(f, m, TakeInterrupt, []);
    ExecNothing(f, Machine(m.pc, Next(f, m.s, TakeInterrupt)));
    assert [TakeInterrupt] + [] == [TakeInterrupt];
  }

  /** Full text where nothing is streamed is typed from its start; what waited is logged. */
  lemma FullTextIsTyped(f: Font, s: Sys, text: string, now: u32)
    requires Good(s) && !s.subs.streamMode
    ensures var s' := Handle(f, s, M.AssistantCompleted(text), now, true);
            && s'.subs.typingRest == text && s'.subs.history == D.FlushTyping(f, s.subs).history
            && !s'.subs.streamMode && s'.subs.curColor == D.AI_COLOR && s'.intReq == s.intReq
            && s'.tracker == RT.Step(s.tracker, RT.Completed) && s'.audio == s.audio
  {
    hide Inv, D.FlushTyping;
  }

  /**
   * A run that shows late text: an interrupt during speech, taken, and then the text of the reply
   * that was interrupted. It is typed out.
   */
  lemma LateTextIsTyped(f: Font, cap: nat, tx: Tx, stream: Stream, text: string)
    requires cap >= 2 && cap % 2 == 0
    ensures var run := Exec(f, PowerOn(cap, tx, stream), INTERRUPTED);
            run.Some? && Silent(run.value.s) && run.value.s.subs.typingRest == ""
    ensures var run := Exec(f, PowerOn(cap, tx, stream), INTERRUPTED + [Server(M.AssistantCompleted(text), 9000, true)]);
            run.Some? && run.value.s.subs.typingRest == text
  {
    hide Exec, Inv, Next, Handle, Silent;
    var m := PowerOn(cap, tx, stream);
    Requests(f, cap, tx, stream);
    var m1 := Exec(f, m, REQUESTED).value;
    Interrupts(f, m1);
    GoesOn(f, m, REQUESTED, [TakeInterrupt]);
    var m2 := Machine(m1.pc, Next(f, m1.s, TakeInterrupt));
    var op := Server(M.AssistantCompleted(text), 9000, true);
    Goes(f, m2, op, []);
    ServerIs(f, m2.s, op);
    FullTextIsTyped(f, m2.s, text, 9000);
    ExecNothing(f, Machine(Pc(Held, Polling), Next(f, m2.s, op)));
    assert [op] + [] == [op];
    GoesOn(f, m, INTERRUPTED, [op]);
  }

  const TYPING: seq<Step> := REQUESTED + [Server(M.AssistantCompleted("a"), 8500, true)] + [TakeInterrupt]

  /** The text comes while the request waits; then the request is taken. */
  lemma Types(f: Font, m: Machine)
    requires Requested(m.s) && m.pc == Pc(Held, Receiving)
    ensures var run := Exec(f, m, [Server(M.AssistantCompleted("a"), 8500, true)] + [TakeInterrupt]);
            && run.Some? && run.value.pc == m.pc && Good(run.value.s) && Silent(run.value.s)
            && var s := run.value.s.subs;
            && s.typingRest == "a" && !s.streamMode && s.curColor == D.AI_COLOR
            && s.history != [] && s.history[|s.history| - 1].color == D.USER_COLOR
  {
    hide Exec, Inv, Next, Handle, Silent, StopPlayback;
    var op := Server(M.AssistantCompleted("a"), 8500, true);
    Goes(f, m, op, [TakeInterrupt]);
    ServerIs(f, m.s, op);
    FullTextIsTyped(f, m.s, "a", 8500);
    var m' := Machine(Pc(Held, Polling), Next(f, m.s, op));
    InterruptSilences(f, m'.s);
    ClosedRoundKeepsText(f, m'.s);
    Goes(f, m', TakeInterrupt, []);
    ExecNothing(f, Machine(m.pc, Next(f, m'.s, TakeInterrupt)));
    assert [TakeInterrupt] + [] == [TakeInterrupt];
  }

  /** An interrupt leaves the subtitles alone once the round is closed. */
  lemma ClosedRoundKeepsText(f: Font, s: Sys)
    requires Good(s) && s.tracker.roundFinalized
    ensures Next(f, s, TakeInterrupt).subs == s.subs
  {
    hide Inv, StopPlayback, D.FlushTyping;
  }

  /** And a run in which empty late text does something: it pushes waiting text out. */
  lemma EmptyLateTextFlushes(f: Font, cap: nat, tx: Tx, stream: Stream)
    requires cap >= 2 && cap % 2 == 0
    ensures var before := Exec(f, PowerOn(cap, tx, stream), TYPING);
            var after := Exec(f, PowerOn(cap, tx, stream), TYPING + [Server(M.AssistantCompleted(""), 9000, true)]);
            && before.Some? && Silent(before.value.s) && before.value.s.subs.typingRest == "a"
            && after.Some? && after.value.s.subs.typingRest == ""
            && after.value.s.subs.history != before.value.s.subs.history
  {
    hide Exec, Inv, Next, Handle, Silent, D.PushLine;
    var m := PowerOn(cap, tx, stream);
    Requests(f, cap, tx, stream);
    var m1 := Exec(f, m, REQUESTED).value;
    var typed := Server(M.AssistantCompleted("a"), 8500, true);
    Types(f, m1);
    GoesOn(f, m, REQUESTED, [typed] + [TakeInterrupt]);
    assert TYPING == REQUESTED + ([typed] + [TakeInterrupt]);
    var m2 := Exec(f, m, TYPING).value;
    var op := Server(M.AssistantCompleted(""), 9000, true);
    Goes(f, m2, op, []);
    ServerIs(f, m2.s, op);
    FullTextIsTyped(f, m2.s, "", 9000);
    ExecNothing(f, Machine(Pc(Held, Polling), Next(f, m2.s, op)));
    assert [op] + [] == [op];
    GoesOn(f, m, TYPING, [op]);
    var s := m2.s.subs;
    PushedLineIsLast(f, s.(curLine := "", typingRest := "", streamQueued := ""), s.curLine + s.typingRest, s.curColor);
  }

  // ---------- back to listening ----------

  /** What a pass of the main loop meets: the DMA, the time, the capture, what the DMA has left. */
  datatype Beat = Beat(env: TickEnv, now: u32, starts: bool, left: nat)

  function PlayingPass(b: Beat): seq<Step> {
    [Pump(b.env), TypeTick(b.now), DrainCheck(b.now, b.starts)]
  }

  /** The state after such a pass. */
  function Passed(f: Font, s: Sys, b: Beat): Sys {
    Drained(s.(audio := Tick(s.audio, b.env).state, subs := D.Tick(f, s.subs, b.now)), b.now, b.starts)
  }

  lemma PassIsTaken(f: Font, m: Machine, b: Beat)
    requires Good(m.s) && m.pc.main.Top? && m.s.loop.state.Playing?
    ensures Exec(f, m, PlayingPass(b)) == Some(m.(s := Passed(f, m.s, b)))
    ensures Good(Passed(f, m.s, b))
  {
    hide Inv, Exec, Tick, D.Tick, Drained;
    Goes(f, m, Pump(b.env), [TypeTick(b.now), DrainCheck(b.now, b.starts)]);
    var m1 := Machine(m.pc.(main := Pumped), Next(f, m.s, Pump(b.env)));
    Goes(f, m1, TypeTick(b.now), [DrainCheck(b.now, b.starts)]);
    var m2 := Machine(m.pc.(main := Typed), Next(f, m1.s, TypeTick(b.now)));
    Goes(f, m2, DrainCheck(b.now, b.starts), []);
    ExecNothing(f, m.(s := Passed(f, m.s, b)));
    assert [Pump(b.env)] + [TypeTick(b.now), DrainCheck(b.now, b.starts)] == PlayingPass(b);
    assert [TypeTick(b.now)] + [DrainCheck(b.now, b.starts)] == [TypeTick(b.now), DrainCheck(b.now, b.starts)];
    assert [DrainCheck(b.now, b.starts)] + [] == [DrainCheck(b.now, b.starts)];
  }

  /** Nothing happened to the audio and to the main loop. */
  predicate Quietly(s: Sys, s': Sys) {
    Good(s') && s'.audio == s.audio && s'.loop == s.loop
  }

  /** The events that leave the audio alone. */
  predicate NoAudioEvent(ev: M.ServerEvent) {
    !ev.AsrResult? && !ev.AudioStart? && !ev.AudioChunk? && !ev.AudioDone?
  }

  lemma EventIsQuiet(f: Font, s: Sys, ev: M.ServerEvent, now: u32, starts: bool)
    requires Good(s) && NoAudioEvent(ev)
    ensures var s' := Handle(f, s, ev, now, starts);
            s'.audio == s.audio && s'.loop == s.loop
  {
    hide Inv, D.SetFullText, D.AppendDelta, D.FlushTyping, RT.Step;
  }

  /** Text, errors, a lost link and a new session come quietly. */
  lemma VoiceIsQuiet(f: Font, s: Sys, op: Step)
    requires Good(s)
    requires op.SessionStart? || op.SessionSent? || op.Disconnect? || (op.Server? && NoAudioEvent(op.ev))
    ensures Quietly(s, Next(f, s, op))
  {
    hide Inv, Good, Handle, RT.Step;
    GoodMeans(s);
    NextKeepsGood(f, s, op);
    if op.Server? {
      ServerIs(f, s, op);
      EventIsQuiet(f, s, op.ev, op.now, op.starts);
    }
  }

  /**
   * Passes of the main loop while speech plays, under a fair DMA, the voice task doing between
   * them whatever leaves the audio alone.
   */
  ghost predicate Plays(f: Font, s: nat -> Sys, beat: nat -> Beat) {
    forall i: nat :: s(i).loop.state.Playing? ==> PlaysAt(f, s, beat, i)
  }

  ghost predicate PlaysAt(f: Font, s: nat -> Sys, beat: nat -> Beat, i: nat) {
    && Good(s(i)) && Quietly(Passed(f, s(i), beat(i)), s(i + 1))
    && AR.Fair(s(i).audio, beat(i).left, beat(i).env, beat(i + 1).left)
  }

  predicate LongAfter(b: Beat, b': Beat) {
    Sub32(b'.now, b.now) > RESUME_LISTEN_SILENCE_MS
  }

  /** Some later pass is more than 400 ms after this one. */
  ghost predicate TimePasses(beat: nat -> Beat, i: nat) {
    exists j: nat :: i < j && LongAfter(beat(i), beat(j))
  }

  /** The stream is finished and the main loop waits for it to play out. */
  ghost predicate PlaysOut(s: Sys) {
    s.loop.state.Playing? && s.loop.quietSince.None? && AR.Draining(s.audio)
  }

  /** Nothing plays any more, since a time the main loop remembers. */
  predicate QuietSince(s: Sys, t: u32) {
    && s.loop.state.Playing? && s.loop.quietSince == Some(t)
    && !s.audio.streaming && s.audio.queue == [] && s.audio.xfer.None?
  }

  /** One pass over a finished stream: it plays on, or the time is noted. */
  lemma PassPlaysOut(f: Font, s: Sys, b: Beat)
    requires Good(s) && PlaysOut(s)
    ensures var s' := Passed(f, s, b);
            && s'.audio == Tick(s.audio, b.env).state
            && if s'.audio.streaming then s'.loop.state.Playing? && s'.loop.quietSince.None? else QuietSince(s', b.now)
  {
    hide Tick, D.Tick;
    TickKeepsInv(s.audio, b.env);
  }

  /** One pass over silence: the loop goes back to listening exactly if 400 ms are over. */
  lemma PassInSilence(f: Font, s: Sys, t: u32, b: Beat)
    requires QuietSince(s, t)
    ensures var s' := Passed(f, s, b);
            if Sub32(b.now, t) > RESUME_LISTEN_SILENCE_MS
            then s'.loop.state.Listening? && s'.micActive && s'.capturing == (s.capturing || b.starts)
            else QuietSince(s', t)
  {
    hide Tick, D.Tick;
    PumpKeepsSilence(s.audio, b.env);
  }

  lemma {:induction false} UntilQuiet(f: Font, s: nat -> Sys, beat: nat -> Beat, i: nat) returns (n: nat)
    requires Plays(f, s, beat) && PlaysOut(s(i)) && |s(i).audio.queue| % 2 == 0
    ensures i <= n && QuietSince(s(n + 1), beat(n).now)
    ensures forall k: nat :: i <= k <= n ==> s(k).audio.streaming
    decreases |s(i).audio.queue|, AR.Stage(s(i).audio), beat(i).left
  {
    hide Inv, Good, Tick, Passed, AR.Fair;
    assert PlaysAt(f, s, beat, i);
    PassPlaysOut(f, s(i), beat(i));
    AR.TickDrains(s(i).audio, beat(i).left, beat(i).env, beat(i + 1).left);
    if s(i + 1).audio.streaming {
      n := UntilQuiet(f, s, beat, i + 1);
    } else {
      n := i;
    }
  }

  lemma {:induction false} UntilListening(f: Font, s: nat -> Sys, beat: nat -> Beat, n: nat, i: nat, j: nat)
    returns (m: nat)
    requires Plays(f, s, beat) && n < i <= j && QuietSince(s(i), beat(n).now) && LongAfter(beat(n), beat(j))
    ensures i <= m && QuietSince(s(m), beat(n).now) && LongAfter(beat(n), beat(m))
    ensures forall k: nat :: i <= k < m ==> !LongAfter(beat(n), beat(k))
    decreases j - i
  {
    hide Good, Passed, AR.Fair;
    assert PlaysAt(f, s, beat, i);
    PassInSilence(f, s(i), beat(n).now, beat(i));
    if LongAfter(beat(n), beat(i)) {
      m := i;
    } else {
      m := UntilListening(f, s, beat, n, i + 1, j);
    }
  }

  /**
   * After the server's end, with whole samples queued, speech plays out and the device listens
   * again: the stream plays through pass n, which is the first to find it over, and the first pass
   * more than 400 ms later, pass m, goes back to Listening with the microphone on.
   */
  lemma ListensAgain(f: Font, s: nat -> Sys, beat: nat -> Beat) returns (n: nat, m: nat)
    requires Plays(f, s, beat) && PlaysOut(s(0)) && |s(0).audio.queue| % 2 == 0
    requires forall i: nat :: TimePasses(beat, i)
    ensures n < m && s(n + 1).loop.quietSince == Some(beat(n).now) && LongAfter(beat(n), beat(m))
    ensures forall k: nat :: k <= n ==> s(k).audio.streaming
    ensures forall k: nat :: n < k < m ==> !LongAfter(beat(n), beat(k))
    ensures var s' := Passed(f, s(m), beat(m));
            s'.loop.state.Listening? && s'.micActive && s'.capturing == (s(m).capturing || beat(m).starts)
    ensures s(m + 1).loop.state.Listening?
  {
    hide Good, Passed, AR.Fair, AR.Draining;
    n := UntilQuiet(f, s, beat, 0);
    assert TimePasses(beat, n);
    var j: nat :| n < j && LongAfter(beat(n), beat(j));
    m := UntilListening(f, s, beat, n, n + 1, j);
    assert PlaysAt(f, s, beat, m);
    PassInSilence(f, s(m), beat(n).now, beat(m));
  }

  lemma {:induction false} OddByteKeepsPlaying(f: Font, s: nat -> Sys, beat: nat -> Beat, n: nat)
    requires Plays(f, s, beat) && PlaysOut(s(0)) && |s(0).audio.queue| % 2 == 1
    ensures PlaysOut(s(n)) && |s(n).audio.queue| % 2 == 1
  {
    hide Inv, Good, Tick, Passed, AR.Fair;
    if n > 0 {
      OddByteKeepsPlaying(f, s, beat, n - 1);
      assert PlaysAt(f, s, beat, n - 1);
      PassPlaysOut(f, s(n - 1), beat(n - 1));
      AR.TickKeepsOddByte(s(n - 1).audio, beat(n - 1).env);
    }
  }

  /** The device listens again by itself exactly if an even number of bytes is queued. */
  lemma ListensAgainExactlyWhenWhole(f: Font, s: nat -> Sys, beat: nat -> Beat)
    requires Plays(f, s, beat) && PlaysOut(s(0))
    requires forall i: nat :: TimePasses(beat, i)
    ensures (exists n: nat :: s(n).loop.state.Listening?) <==> |s(0).audio.queue| % 2 == 0
  {
    hide Plays, AR.Draining, TimePasses;
    if |s(0).audio.queue| % 2 == 0 {
      var n, m := ListensAgain(f, s, beat);
    } else {
      forall n: nat ensures !s(n).loop.state.Listening? {
        OddByteKeepsPlaying(f, s, beat, n);
      }
    }
  }

  /** A pass every second, with a DMA that has played out what it was given. */
  function EverySecond(i: nat): Beat {
    Beat(TickEnv(true, 4096, true), i * 1000 % 0x1_0000_0000, true, 0)
  }

  function AfterPasses(f: Font, s: Sys, n: nat): Sys {
    if n == 0 then s else Passed(f, AfterPasses(f, s, n - 1), EverySecond(n - 1))
  }

  lemma NeverBackToPlaying(f: Font, s: Sys, b: Beat)
    ensures Passed(f, s, b).loop.state.Playing? ==> s.loop.state.Playing?
  {
    hide Tick, D.Tick;
  }

  lemma {:induction false} GoodWhilePlaying(f: Font, s: Sys, n: nat)
    requires Good(s) && AfterPasses(f, s, n).loop.state.Playing?
    ensures Good(AfterPasses(f, s, n))
  {
    hide Good, Passed, EverySecond;
    if n > 0 {
      NeverBackToPlaying(f, AfterPasses(f, s, n - 1), EverySecond(n - 1));
      GoodWhilePlaying(f, s, n - 1);
      PassIsTaken(f, Machine(Pc(Top, Offline), AfterPasses(f, s, n - 1)), EverySecond(n - 1));
    }
  }

  /** There are passes like that from every state in which speech plays out. */
  lemma SuchPasses(f: Font, s: Sys)
    requires Good(s) && PlaysOut(s)
    ensures Plays(f, (n: nat) => AfterPasses(f, s, n), EverySecond)
    ensures forall i: nat :: TimePasses(EverySecond, i)
  {
    hide Good, Passed, AfterPasses, Tick;
    forall i: nat | AfterPasses(f, s, i).loop.state.Playing?
      ensures PlaysAt(f, (n: nat) => AfterPasses(f, s, n), EverySecond, i)
    {
      GoodWhilePlaying(f, s, i);
      PassIsTaken(f, Machine(Pc(Top, Offline), AfterPasses(f, s, i)), EverySecond(i));
      NextAfterPasses(f, s, i);
    }
    forall i: nat ensures TimePasses(EverySecond, i) {
      assert i < i + 1 && LongAfter(EverySecond(i), EverySecond(i + 1));
    }
  }

  lemma NextAfterPasses(f: Font, s: Sys, i: nat)
    ensures AfterPasses(f, s, i + 1) == Passed(f, AfterPasses(f, s, i), EverySecond(i))
  {
  }

  const FINISHED: seq<Step> := PLAYS + Frame(M.AudioDone, 8500, true)

  /** And a run from power-on that reaches such a state: the server's end, with speech queued. */
  lemma PlaysOutIsReached(f: Font, cap: nat, tx: Tx, stream: Stream)
    requires cap >= 2 && cap % 2 == 0
    ensures var run := Exec(f, PowerOn(cap, tx, stream), FINISHED);
            run.Some? && PlaysOut(run.value.s) && run.value.s.audio.queue != []
  {
    hide Exec, Inv;
    var m := PowerOn(cap, tx, stream);
    StartsPlaying(f, cap, tx, stream);
    FrameIsHandled(f, Exec(f, m, PLAYS).value, M.AudioDone, 8500, true);
    GoesOn(f, m, PLAYS, Frame(M.AudioDone, 8500, true));
  }
}
