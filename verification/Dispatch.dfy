/**
 * The two cooperating tasks of src/main.rs as atomic steps over shared state: what one task does
 * between two real yields is one step. Runs interleave the steps in any order, so whatever holds
 * here holds for every schedule.
 */
module Dispatch {
  import opened Bytes
  import opened Options
  import opened Font
  import opened AudioSpec
  import RT = RoundTracker
  import D = Display
  import SR = SubtitleRuns
  import M = Messages
  import Base64
  import Utf8

  const LISTEN_TIMEOUT_MS: nat := 3 * 60 * 1000
  const RESUME_LISTEN_SILENCE_MS: nat := 400
  const LISTEN_COOLDOWN_MS: nat := 8000
  const DEFAULT_STREAM_INPUT_RATE: nat := 24000
  const HALF_RANGE: nat := 0xFFFF_FFFF / 2

  datatype AppState = Idle | Listening | Playing

  /** The main loop's own variables. */
  datatype Loop = Loop(state: AppState, cooldownUntil: u32, listenStarted: u32, quietSince: Option<u32>)

  /** Everything the two tasks share. */
  datatype Sys = Sys(
    audio: AudioState, tracker: RT.TrackerState, subs: D.Subtitles,
    micActive: bool, capturing: bool, wsUp: bool, lastVadMs: u32, intReq: bool, loop: Loop)

  function Sub32(a: u32, b: u32): u32 {
    (a - b) % 0x1_0000_0000
  }

  function Add32(a: u32, b: nat): u32 {
    (a + b) % 0x1_0000_0000
  }

  // ---------- server events ----------

  function OnAsrResult(f: Font, s: Sys, text: string): Sys {
    var action := RT.Action(s.tracker);
    var s := s.(tracker := RT.Step(s.tracker, RT.AsrResult),
                audio := if action.stopPlayback then StopPlayback(s.audio) else s.audio);
    var s := if action.pauseMic then StopListening(s) else s;
    s.(subs := D.AddUserLine(f, s.subs, text))
  }

  function OnDelta(f: Font, s: Sys, text: string, now: u32): Sys {
    s.(tracker := RT.Step(s.tracker, RT.Delta(now)),
       subs := if s.tracker.roundFinalized then s.subs else D.AppendDelta(f, s.subs, text))
  }

  function OnAudioStart(s: Sys, rate: Option<u32>): Sys {
    s.(tracker := RT.Step(s.tracker, RT.AudioStart),
       audio := if s.tracker.roundFinalized then s.audio
                else BeginStream(s.audio, if rate.Some? then rate.value else DEFAULT_STREAM_INPUT_RATE))
  }

  function Pcm(data: string): seq<byte> {
    Base64.Decoded(Utf8.Encode(data))
  }

  function OnAudioChunk(s: Sys, data: string, now: u32): Sys
    requires Inv(s.audio)
  {
    s.(tracker := RT.Step(s.tracker, RT.AudioChunk(now)),
       audio := if s.tracker.roundFinalized then s.audio else FeedBytes(s.audio, Pcm(data)))
  }

  function OnAudioDone(s: Sys): Sys {
    s.(tracker := RT.Step(s.tracker, RT.AudioDone),
       audio := if s.tracker.voiceAudioOn then FinishStream(s.audio) else s.audio)
  }

  function OnCompleted(f: Font, s: Sys, text: string): Sys {
    s.(tracker := RT.Step(s.tracker, RT.Completed), subs := D.SetFullText(f, s.subs, text))
  }

  /** Closing the round early: the text received so far is flushed if a reply was running. */
  function CloseRound(f: Font, s: Sys): Sys {
    s.(tracker := RT.Step(s.tracker, RT.FinalizePartial),
       subs := if RT.NeedsFlush(s.tracker) then D.FlushTyping(f, s.subs) else s.subs)
  }

  /** An error turns the microphone back on, unless the tracker believes it is on already. */
  function ResumeMic(s: Sys, starts: bool): Sys {
    if s.tracker.micActive then s
    else s.(tracker := RT.Step(s.tracker, RT.ResumeMicOnError), capturing := s.capturing || starts, micActive := true)
  }

  /** `starts`: whether the capture starts, should the event ask for it. */
  function Handle(f: Font, s: Sys, ev: M.ServerEvent, now: u32, starts: bool): Sys
    requires Inv(s.audio)
  {
    match ev
    case VadSpeaking(speaking) => if speaking then s.(lastVadMs := now) else s
    case AsrResult(text) => OnAsrResult(f, s, text)
    case AssistantDelta(text) => OnDelta(f, s, text, now)
    case AudioStart(rate) => OnAudioStart(s, rate)
    case AudioChunk(data) => OnAudioChunk(s, data, now)
    case AudioDone => OnAudioDone(s)
    case AssistantCompleted(text) => OnCompleted(f, s, text)
    case AssistantError(_) => ResumeMic(CloseRound(f, s), starts)
    case InterruptAck => CloseRound(f, s)
    case Error(_) => ResumeMic(s, starts)
    case _ => s
  }

  // ---------- steps ----------

  /**
   * `linkSeen`: whether the link was up at the top of the main loop, which the button's branch goes
   * by after its 30 ms wait; the link may have changed meanwhile.
   */
  datatype Step =
    // voice task
    | SessionStart
    | SessionSent(ok: bool)
    | TakeInterrupt
    | Server(ev: M.ServerEvent, now: u32, starts: bool)
    | Disconnect
    // main loop
    | Pump(env: TickEnv)
    | TypeTick(now: u32)
    | IdlePoll(now: u32, starts: bool)
    | TalkWhenIdle(now: u32, linkSeen: bool, starts: bool)
    | RestartCapture(starts: bool)
    | PlaybackCheck
    | ManualExit(now: u32)
    | TimeoutCheck(now: u32)
    | RequestInterrupt
    | ResumeAfterInterrupt(now: u32, starts: bool)
    | DrainCheck(now: u32, starts: bool)
    | Volume(v: int)
    | Beep(left: seq<byte>)

  function StartListening(s: Sys, now: u32, starts: bool): Sys {
    s.(micActive := true, tracker := RT.Step(s.tracker, RT.MicStart), capturing := s.capturing || starts,
       loop := s.loop.(state := Listening, listenStarted := now))
  }

  function StopListening(s: Sys): Sys {
    s.(micActive := false, tracker := RT.Step(s.tracker, RT.MicPause), capturing := false)
  }

  function GoIdle(s: Sys, now: u32): Sys {
    s.(loop := s.loop.(state := Idle, cooldownUntil := Add32(now, LISTEN_COOLDOWN_MS)))
  }

  function GoPlaying(s: Sys): Sys {
    s.(loop := s.loop.(state := Playing, quietSince := None))
  }

  predicate TimedOut(s: Sys, now: u32) {
    && (s.lastVadMs == 0 || Sub32(now, s.lastVadMs) > LISTEN_TIMEOUT_MS)
    && Sub32(now, s.loop.listenStarted) > LISTEN_TIMEOUT_MS
  }

  predicate MayAutoListen(s: Sys, now: u32) {
    s.loop.state.Idle? && s.wsUp && now > 5000 && Sub32(now, s.loop.cooldownUntil) < HALF_RANGE
  }

  function Drained(s: Sys, now: u32, starts: bool): Sys {
    if s.audio.IsActive() then s.(loop := s.loop.(quietSince := None))
    else
      match s.loop.quietSince
      case None => s.(loop := s.loop.(quietSince := Some(now)))
      case Some(t0) => if Sub32(now, t0) > RESUME_LISTEN_SILENCE_MS then StartListening(s, now, starts) else s
  }

  function Next(f: Font, s: Sys, op: Step): Sys
    requires Inv(s.audio)
  {
    match op
    case SessionStart => s.(tracker := RT.Step(s.tracker, RT.Reset))
    case SessionSent(ok) => s.(wsUp := ok)
    case TakeInterrupt =>
      if s.intReq then CloseRound(f, s).(audio := StopPlayback(s.audio), intReq := false) else s
    case Server(ev, now, starts) => Handle(f, s, ev, now, starts)
    case Disconnect => s.(wsUp := false, micActive := false)
    case Pump(env) => s.(audio := Tick(s.audio, env).state)
    case TypeTick(now) => s.(subs := D.Tick(f, s.subs, now))
    case IdlePoll(now, starts) => if MayAutoListen(s, now) then StartListening(s, now, starts) else s
    case TalkWhenIdle(now, linkSeen, starts) => if linkSeen then StartListening(s, now, starts) else s
    case RestartCapture(starts) => if s.micActive then s.(capturing := starts) else s
    case PlaybackCheck =>
      if |s.audio.queue| > 0 then GoPlaying(StopListening(s)) else s
    case ManualExit(now) =>
      GoIdle(StopListening(s).(subs := D.FlushTyping(f, s.subs)), now)
    case TimeoutCheck(now) => if TimedOut(s, now) then GoIdle(StopListening(s), now) else s
    case RequestInterrupt => s.(intReq := true, subs := D.FlushTyping(f, s.subs))
    case ResumeAfterInterrupt(now, starts) => StartListening(s, now, starts)
    case DrainCheck(now, starts) => Drained(s, now, starts)
    case Volume(v) => s.(audio := SetVolume(s.audio, v))
    case Beep(left) => s.(audio := AfterTone(s.audio, left))
  }

  function Boot(cap: nat, tx: Tx, stream: Stream): Sys {
    Sys(Initial(cap, tx, stream), RT.NEW, D.BLANK, false, false, false, 0, false, Loop(Idle, 0, 0, None))
  }

  // ---------- the microphone's share of a step ----------

  /** The uplink flag, the tracker's bit, whether capture runs, and the main loop's state. */
  datatype MicView = MicView(up: bool, tracked: bool, capturing: bool, state: AppState)

  function MicOf(s: Sys): MicView {
    MicView(s.micActive, s.tracker.micActive, s.capturing, s.loop.state)
  }

  function TurnedOff(m: MicView): MicView {
    m.(up := false, tracked := false, capturing := false)
  }

  function TurnedOn(m: MicView, starts: bool): MicView {
    m.(up := true, tracked := true, capturing := m.capturing || starts)
  }

  predicate IsError(ev: M.ServerEvent) {
    ev.Error? || ev.AssistantError?
  }

  predicate TurnsMicOff(s: Sys, op: Step) {
    match op
    case Server(ev, _, _) => ev.AsrResult?
    case PlaybackCheck => |s.audio.queue| > 0
    case ManualExit(_) => true
    case TimeoutCheck(now) => TimedOut(s, now)
    case _ => false
  }

  /** The step goes into Listening. */
  predicate TurnsMicOn(s: Sys, op: Step) {
    match op
    case IdlePoll(now, _) => MayAutoListen(s, now)
    case TalkWhenIdle(_, linkSeen, _) => linkSeen
    case ResumeAfterInterrupt(_, _) => true
    case DrainCheck(now, _) =>
      !s.audio.IsActive() && s.loop.quietSince.Some?
      && Sub32(now, s.loop.quietSince.value) > RESUME_LISTEN_SILENCE_MS
    case _ => false
  }

  function StateAfter(s: Sys, op: Step): AppState {
    if TurnsMicOn(s, op) then Listening
    else if !TurnsMicOff(s, op) || op.Server? then s.loop.state
    else if op.PlaybackCheck? then Playing
    else Idle
  }

  /** The whole effect of a step on the microphone. */
  function MicAfter(s: Sys, op: Step): MicView {
    var m := MicOf(s).(state := StateAfter(s, op));
    if TurnsMicOff(s, op) then TurnedOff(m)
    else if TurnsMicOn(s, op) then TurnedOn(m, op.starts)
    else
      match op
      case Server(ev, _, starts) => if IsError(ev) && !m.tracked then TurnedOn(m, starts) else m
      case Disconnect => m.(up := false)
      case RestartCapture(starts) => if m.up then m.(capturing := starts) else m
      case _ => m
  }

  // ---------- invariants of every run ----------

  predicate MicGood(m: MicView) {
    (m.capturing ==> m.tracked) && (m.up ==> m.tracked)
  }

  /** The audio invariant; and neither uplink nor capture is on behind the tracker's back. */
  predicate Good(s: Sys) {
    Inv(s.audio) && MicGood(MicOf(s))
  }

  lemma SoundEventMic(f: Font, s: Sys, ev: M.ServerEvent, now: u32, starts: bool)
    requires Inv(s.audio) && (ev.AudioStart? || ev.AudioChunk? || ev.AudioDone?)
    ensures MicOf(Handle(f, s, ev, now, starts)) == MicOf(s)
  {
    hide Inv, Pcm, BeginStream, FinishStream, FeedBytes, RT.Latency;
  }

  lemma TextEventMic(f: Font, s: Sys, ev: M.ServerEvent, now: u32, starts: bool)
    requires Inv(s.audio) && (ev.AssistantDelta? || ev.AssistantCompleted? || ev.InterruptAck?)
    ensures MicOf(Handle(f, s, ev, now, starts)) == MicOf(s)
  {
    hide Inv, D.SetFullText, D.AppendDelta, D.FlushTyping;
  }

  lemma AsrResultMic(f: Font, s: Sys, text: string)
    requires MicGood(MicOf(s))
    ensures MicOf(OnAsrResult(f, s, text)) == TurnedOff(MicOf(s))
  {
    hide D.AddUserLine, StopPlayback;
  }

  lemma ErrorMic(f: Font, s: Sys, starts: bool)
    ensures MicOf(CloseRound(f, s)) == MicOf(s)
    ensures MicOf(ResumeMic(s, starts)) == if s.tracker.micActive then MicOf(s) else TurnedOn(MicOf(s), starts)
  {
    hide D.FlushTyping;
  }

  lemma HandleMic(f: Font, s: Sys, op: Step)
    requires Good(s) && op.Server?
    ensures MicOf(Handle(f, s, op.ev, op.now, op.starts)) == MicAfter(s, op)
  {
    hide Inv, OnAsrResult, OnDelta, OnAudioStart, OnAudioChunk, OnAudioDone, OnCompleted, CloseRound, ResumeMic;
    match op.ev
    case AsrResult(text) => AsrResultMic(f, s, text);
    case AudioStart(_) | AudioChunk(_) | AudioDone => SoundEventMic(f, s, op.ev, op.now, op.starts);
    case AssistantDelta(_) | AssistantCompleted(_) | InterruptAck => TextEventMic(f, s, op.ev, op.now, op.starts);
    case AssistantError(_) =>
      ErrorMic(f, s, op.starts);
      ErrorMic(f, CloseRound(f, s), op.starts);
    case Error(_) => ErrorMic(f, s, op.starts);
    case _ =>
  }

  lemma SwitchMic(f: Font, s: Sys, now: u32, starts: bool)
    ensures MicOf(StartListening(s, now, starts)) == TurnedOn(MicOf(s), starts).(state := Listening)
    ensures MicOf(StopListening(s)) == TurnedOff(MicOf(s))
    ensures MicOf(GoIdle(s, now)) == MicOf(s).(state := Idle) && MicOf(GoPlaying(s)) == MicOf(s).(state := Playing)
  {
  }

  lemma DrainMic(s: Sys, now: u32, starts: bool)
    ensures TurnsMicOn(s, DrainCheck(now, starts)) ==> Drained(s, now, starts) == StartListening(s, now, starts)
    ensures !TurnsMicOn(s, DrainCheck(now, starts)) ==> MicOf(Drained(s, now, starts)) == MicOf(s)
  {
    hide StartListening;
  }

  predicate MayListen(op: Step) {
    op.IdlePoll? || op.TalkWhenIdle? || op.ResumeAfterInterrupt? || op.DrainCheck?
  }

  predicate MayStopListening(op: Step) {
    op.PlaybackCheck? || op.TimeoutCheck? || op.ManualExit?
  }

  lemma ListenMic(f: Font, s: Sys, op: Step)
    requires Good(s) && MayListen(op) && !op.DrainCheck?
    ensures MicOf(Next(f, s, op)) == MicAfter(s, op)
  {
    hide Inv, StartListening, MayAutoListen;
    SwitchMic(f, s, op.now, op.starts);
  }

  lemma DrainCheckMic(f: Font, s: Sys, op: Step)
    requires Good(s) && op.DrainCheck?
    ensures MicOf(Next(f, s, op)) == MicAfter(s, op)
  {
    hide Inv, StartListening, Drained;
    SwitchMic(f, s, op.now, op.starts);
    DrainMic(s, op.now, op.starts);
  }

  lemma ExitMic(f: Font, s: Sys, op: Step)
    requires Good(s) && op.ManualExit?
    ensures MicOf(Next(f, s, op)) == MicAfter(s, op)
  {
    hide Inv, StopListening, GoIdle, D.FlushTyping;
    SwitchMic(f, s, 0, true);
    SwitchMic(f, StopListening(s).(subs := D.FlushTyping(f, s.subs)), op.now, true);
  }

  lemma TimeoutMic(f: Font, s: Sys, op: Step)
    requires Good(s) && op.TimeoutCheck?
    ensures MicOf(Next(f, s, op)) == MicAfter(s, op)
  {
    hide Inv, StopListening, GoIdle, TimedOut;
    SwitchMic(f, s, 0, true);
    SwitchMic(f, StopListening(s), op.now, true);
  }

  lemma PlaybackMic(f: Font, s: Sys, op: Step)
    requires Good(s) && op.PlaybackCheck?
    ensures MicOf(Next(f, s, op)) == MicAfter(s, op)
  {
    hide Inv, StopListening, GoPlaying;
    SwitchMic(f, s, 0, true);
    SwitchMic(f, StopListening(s), 0, true);
  }

  lemma OtherMic(f: Font, s: Sys, op: Step)
    requires Good(s) && !op.Server? && !MayListen(op) && !MayStopListening(op)
    ensures MicOf(Next(f, s, op)) == MicAfter(s, op)
  {
    hide Inv, CloseRound, Tick, D.FlushTyping, D.Tick, StopPlayback, SetVolume, AfterTone;
    ErrorMic(f, s, true);
  }

  lemma ServerIs(f: Font, s: Sys, op: Step)
    requires Inv(s.audio) && op.Server?
    ensures Next(f, s, op) == Handle(f, s, op.ev, op.now, op.starts)
  {
    hide Inv, Handle;
  }

  /** A step does to the microphone what MicAfter says, and nothing else. */
  lemma NextMic(f: Font, s: Sys, op: Step)
    requires Good(s)
    ensures MicOf(Next(f, s, op)) == MicAfter(s, op)
  {
    hide Inv, Next, MicAfter;
    if op.Server? {
      HandleMic(f, s, op);
      ServerIs(f, s, op);
    } else if op.DrainCheck? {
      DrainCheckMic(f, s, op);
    } else if MayListen(op) {
      ListenMic(f, s, op);
    } else if op.ManualExit? {
      ExitMic(f, s, op);
    } else if op.TimeoutCheck? {
      TimeoutMic(f, s, op);
    } else if op.PlaybackCheck? {
      PlaybackMic(f, s, op);
    } else {
      OtherMic(f, s, op);
    }
  }

  lemma HandleKeepsInv(f: Font, s: Sys, ev: M.ServerEvent, now: u32, starts: bool)
    requires Inv(s.audio)
    ensures Inv(Handle(f, s, ev, now, starts).audio)
  {
    hide Inv, Pcm, D.SetFullText, D.AppendDelta, D.AddUserLine, D.FlushTyping, BeginStream, StopPlayback, FinishStream,
         FeedBytes, RT.Step;
    match ev
    case AsrResult(_) => ControlsKeepInv(s.audio, 0, 0);
    case AudioStart(rate) =>
      ControlsKeepInv(s.audio, if rate.Some? then rate.value else DEFAULT_STREAM_INPUT_RATE, 0);
    case AudioChunk(data) => FeedKeepsInv(s.audio, Pcm(data));
    case AudioDone => ControlsKeepInv(s.audio, 0, 0);
    case _ =>
  }

  predicate SameSound(s: Sys, s': Sys) {
    s'.audio == s.audio && s'.tracker.roundFinalized == s.tracker.roundFinalized
  }

  lemma SwitchLeavesAudio(s: Sys, now: u32, starts: bool)
    ensures SameSound(s, StartListening(s, now, starts)) && SameSound(s, StopListening(s))
    ensures SameSound(s, GoIdle(s, now)) && SameSound(s, GoPlaying(s))
  {
  }

  lemma DrainLeavesAudio(s: Sys, now: u32, starts: bool)
    ensures SameSound(s, Drained(s, now, starts))
  {
    hide StartListening;
    SwitchLeavesAudio(s, now, starts);
  }

  lemma ExitLeavesAudio(f: Font, s: Sys, now: u32)
    ensures SameSound(s, GoIdle(StopListening(s).(subs := D.FlushTyping(f, s.subs)), now))
    ensures SameSound(s, GoIdle(StopListening(s), now))
    ensures SameSound(s, GoPlaying(StopListening(s)))
  {
    hide StopListening, GoIdle, GoPlaying, D.FlushTyping;
    var off := StopListening(s);
    var flushed := off.(subs := D.FlushTyping(f, s.subs));
    SwitchLeavesAudio(s, now, true);
    SwitchLeavesAudio(off, now, true);
    SwitchLeavesAudio(flushed, now, true);
  }

  /** Listening or not leaves the audio and the round alone. */
  lemma ListeningLeavesAudio(f: Font, s: Sys, op: Step)
    requires Inv(s.audio) && (MayListen(op) || MayStopListening(op))
    ensures SameSound(s, Next(f, s, op))
  {
    hide Inv, StartListening, StopListening, GoIdle, GoPlaying, Drained, D.FlushTyping, TimedOut, MayAutoListen, SameSound;
    SameSoundHere(s);
    if MayListen(op) {
      SwitchLeavesAudio(s, op.now, op.starts);
      DrainLeavesAudio(s, op.now, op.starts);
    } else {
      ExitLeavesAudio(f, s, if op.PlaybackCheck? then 0 else op.now);
    }
  }

  lemma SameSoundHere(s: Sys)
    ensures SameSound(s, s)
  {
  }

  /** As do all but six of the steps. */
  lemma LoopLeavesAudio(f: Font, s: Sys, op: Step)
    requires Inv(s.audio)
    requires !op.Server? && !op.TakeInterrupt? && !op.SessionStart? && !op.Pump? && !op.Volume? && !op.Beep?
    ensures SameSound(s, Next(f, s, op))
  {
    if MayListen(op) || MayStopListening(op) {
      hide Inv, Next;
      ListeningLeavesAudio(f, s, op);
    } else {
      hide Inv, D.FlushTyping, D.Tick;
    }
  }

  lemma NextKeepsInv(f: Font, s: Sys, op: Step)
    requires Inv(s.audio)
    ensures Inv(Next(f, s, op).audio)
  {
    hide Inv, Handle, Tick, D.FlushTyping, D.Tick, StopPlayback, SetVolume, AfterTone, TimedOut, MayAutoListen,
         StartListening, StopListening, GoIdle, GoPlaying, Drained;
    match op
    case Server(ev, now, starts) => HandleKeepsInv(f, s, ev, now, starts);
    case TakeInterrupt => ControlsKeepInv(s.audio, 0, 0);
    case Pump(env) => TickKeepsInv(s.audio, env);
    case Volume(v) => ControlsKeepInv(s.audio, 0, v);
    case Beep(left) => ToneKeepsInv(s.audio, left);
    case SessionStart =>
    case _ => LoopLeavesAudio(f, s, op);
  }

  lemma NextKeepsGood(f: Font, s: Sys, op: Step)
    requires Good(s)
    ensures Good(Next(f, s, op))
  {
    hide Inv, Next;
    NextKeepsInv(f, s, op);
    NextMic(f, s, op);
  }

  lemma BootIsGood(cap: nat, tx: Tx, stream: Stream)
    requires cap >= 2 && cap % 2 == 0
    ensures Good(Boot(cap, tx, stream))
  {
  }

  ghost predicate Follows(f: Font, s: Sys, op: Step, s': Sys) {
    Good(s) && s' == Next(f, s, op)
  }

  /** The states schedules of the two tasks reach from `start`. */
  ghost predicate Reachable(f: Font, start: Sys, ops: seq<Step>, s: Sys)
    decreases |ops|
  {
    if ops == [] then s == start
    else Good(start) && Reachable(f, Next(f, start, ops[0]), ops[1..], s)
  }

  lemma {:induction false} ReachableIsGood(f: Font, start: Sys, ops: seq<Step>, s: Sys)
    requires Good(start) && Reachable(f, start, ops, s)
    ensures Good(s)
    decreases |ops|
  {
    hide Next, Good;
    if ops != [] {
      GoodMeans(start);
      NextKeepsGood(f, start, ops[0]);
      ReachableIsGood(f, Next(f, start, ops[0]), ops[1..], s);
    }
  }

  /** The tracker says the microphone is on, and nothing is captured. */
  predicate Unheard(s: Sys) {
    s.tracker.micActive && !s.capturing
  }

  /** The step asks the capture to start. */
  predicate StartsCapture(s: Sys, op: Step) {
    || TurnsMicOn(s, op)
    || (op.RestartCapture? && s.micActive)
    || (op.Server? && IsError(op.ev) && !s.tracker.micActive)
  }

  /**
   * What leaves the microphone unheard: exactly a refused start of a capture that was not running
   * or had been stopped for the restart, until the next start or switch.
   */
  lemma UnheardExactly(f: Font, s: Sys, op: Step)
    requires Good(s)
    ensures Unheard(Next(f, s, op)) <==>
      if StartsCapture(s, op) then !op.starts && (op.RestartCapture? || !s.capturing)
      else Unheard(s) && !TurnsMicOff(s, op)
  {
    hide Inv, Next, TimedOut, MayAutoListen;
    NextMic(f, s, op);
    assert Unheard(Next(f, s, op)) <==> MicOf(Next(f, s, op)).tracked && !MicOf(Next(f, s, op)).capturing;
  }

  /** The steps that may ask the capture to start. */
  predicate MayStart(op: Step) {
    op.IdlePoll? || op.TalkWhenIdle? || op.RestartCapture? || op.ResumeAfterInterrupt? || op.DrainCheck? || op.Server?
  }

  /** The capture does not refuse to start in this step. */
  predicate StartsIfAsked(op: Step) {
    MayStart(op) ==> op.starts
  }

  lemma StartersMayStart(s: Sys, op: Step)
    ensures StartsCapture(s, op) ==> MayStart(op)
  {
  }

  lemma {:induction false} HeardAlong(f: Font, start: Sys, ops: seq<Step>, s: Sys)
    requires Good(start) && !Unheard(start) && Reachable(f, start, ops, s)
    requires forall i :: 0 <= i < |ops| ==> StartsIfAsked(ops[i])
    ensures !Unheard(s)
    decreases |ops|
  {
    hide Next, Good, Unheard, TurnsMicOff, StartsCapture;
    if ops != [] {
      GoodMeans(start);
      NextKeepsGood(f, start, ops[0]);
      UnheardExactly(f, start, ops[0]);
      StartersMayStart(start, ops[0]);
      assert StartsIfAsked(ops[0]);
      HeardAlong(f, Next(f, start, ops[0]), ops[1..], s);
    }
  }

  /**
   * The microphone invariant. Whatever the interleaving, the uplink flag is up and capture runs
   * only while the tracker says the microphone is on; and if no start was refused, capture runs
   * whenever it says so.
   */
  lemma MicAgreesInEveryRun(f: Font, cap: nat, tx: Tx, stream: Stream, ops: seq<Step>, s: Sys)
    requires cap >= 2 && cap % 2 == 0
    requires Reachable(f, Boot(cap, tx, stream), ops, s)
    ensures s.micActive ==> s.tracker.micActive
    ensures s.capturing ==> s.tracker.micActive
    ensures (forall i :: 0 <= i < |ops| ==> StartsIfAsked(ops[i])) ==> (s.tracker.micActive ==> s.capturing)
  {
    hide Reachable;
    BootIsGood(cap, tx, stream);
    assert !Boot(cap, tx, stream).tracker.micActive;
    ReachableIsGood(f, Boot(cap, tx, stream), ops, s);
    if forall i :: 0 <= i < |ops| ==> StartsIfAsked(ops[i]) {
      HeardAlong(f, Boot(cap, tx, stream), ops, s);
    }
  }

  lemma GoodMeans(s: Sys)
    requires Good(s)
    ensures Inv(s.audio)
    ensures (s.micActive ==> s.tracker.micActive) && (s.capturing ==> s.tracker.micActive)
  {
  }

  /** Arriving in Listening turns everything on; leaving it turns everything off. */
  lemma ListeningTransitions(f: Font, s: Sys, op: Step)
    requires Good(s)
    ensures var s' := Next(f, s, op);
            && (!s.loop.state.Listening? && s'.loop.state.Listening? ==>
                 s'.micActive && TurnsMicOn(s, op) && s'.capturing == (s.capturing || op.starts))
            && (s.loop.state.Listening? && !s'.loop.state.Listening? ==> !s'.micActive && !s'.capturing)
  {
    hide Inv, Next, TimedOut, MayAutoListen;
    NextMic(f, s, op);
    assert Next(f, s, op).loop.state == MicOf(Next(f, s, op)).state && Next(f, s, op).micActive == MicOf(Next(f, s, op)).up;
    assert Next(f, s, op).capturing == MicOf(Next(f, s, op)).capturing;
  }

  // ---------- the clocks ----------

  /** On the wrapping clock the difference is the time that has passed. */
  lemma ElapsedIs(t: u32, ms: nat)
    requires ms < 0x1_0000_0000
    ensures Sub32((t + ms) % 0x1_0000_0000, t) == ms
  {
  }

  /** Listening times out exactly if it has gone on for more than three minutes, and nobody spoke in them. */
  lemma TimesOutExactly(s: Sys, now: u32, sinceVad: nat, sinceListen: nat)
    requires sinceVad < 0x1_0000_0000 && sinceListen < 0x1_0000_0000
    requires now == (s.lastVadMs + sinceVad) % 0x1_0000_0000 == (s.loop.listenStarted + sinceListen) % 0x1_0000_0000
    ensures TimedOut(s, now) <==> (s.lastVadMs == 0 || sinceVad > 180_000) && sinceListen > 180_000
  {
    ElapsedIs(s.lastVadMs, sinceVad);
    ElapsedIs(s.loop.listenStarted, sinceListen);
  }

  /**
   * The device starts listening by itself exactly if it is idle and connected, five seconds after
   * boot, and not before the end of the cooldown, for half the clock's range.
   */
  lemma ListensByItselfExactly(s: Sys, d: int)
    requires -0x8000_0000 <= d < 0x8000_0000
    ensures var now := (s.loop.cooldownUntil + d) % 0x1_0000_0000;
            MayAutoListen(s, now) <==> s.loop.state.Idle? && s.wsUp && now > 5000 && 0 <= d < 0x7FFF_FFFF
  {
    var now := (s.loop.cooldownUntil + d) % 0x1_0000_0000;
    assert Sub32(now, s.loop.cooldownUntil) == d % 0x1_0000_0000;
  }

  /** The cooldown after a manual exit or a timeout lasts eight seconds. */
  lemma CooldownLasts(s: Sys, t: u32, ms: nat)
    requires ms < 0x7FFF_FFFF
    ensures MayAutoListen(GoIdle(s, t), (t + ms) % 0x1_0000_0000) ==> ms >= 8000
  {
    var d := ms - 8000;
    assert (Add32(t, 8000) + d) % 0x1_0000_0000 == (t + ms) % 0x1_0000_0000;
    ListensByItselfExactly(GoIdle(s, t), d);
  }

  predicate LeavesForIdle(s: Sys, op: Step) {
    op.ManualExit? || (op.TimeoutCheck? && TimedOut(s, op.now))
  }

  /**
   * Since when playback has been quiet: from the first check that finds it so, until one that does
   * not, and from nothing on entering Playing.
   */
  function QuietAfter(s: Sys, op: Step): Option<u32> {
    if op.PlaybackCheck? && s.audio.queue != [] then None
    else if !op.DrainCheck? then s.loop.quietSince
    else if s.audio.streaming || s.audio.queue != [] then None
    else if s.loop.quietSince.None? then Some(op.now)
    else s.loop.quietSince
  }

  /** Which step sets which clock, and the link: these and no others. */
  lemma ClocksMove(f: Font, s: Sys, op: Step)
    requires Good(s)
    ensures var s' := Next(f, s, op);
            && s'.lastVadMs == (if op.Server? && op.ev == M.VadSpeaking(true) then op.now else s.lastVadMs)
            && s'.wsUp == (if op.SessionSent? then op.ok else s.wsUp && !op.Disconnect?)
            && s'.loop.listenStarted == (if TurnsMicOn(s, op) then op.now else s.loop.listenStarted)
            && s'.loop.cooldownUntil == (if LeavesForIdle(s, op) then Add32(op.now, 8000) else s.loop.cooldownUntil)
            && s'.loop.quietSince == QuietAfter(s, op)
  {
    hide Inv, Handle, Tick, RT.Step, D.FlushTyping, D.Tick, StopPlayback, SetVolume, AfterTone, TimedOut, MayAutoListen,
         CloseRound;
    if op.Server? {
      EventMovesClocks(f, s, op.ev, op.now, op.starts);
    } else if op.TakeInterrupt? {
      ClosingMovesNoClock(f, s);
    }
  }

  lemma ClosingMovesNoClock(f: Font, s: Sys)
    ensures CloseRound(f, s) == s.(tracker := CloseRound(f, s).tracker, subs := CloseRound(f, s).subs)
  {
    hide RT.Step, D.FlushTyping;
  }

  lemma EventMovesClocks(f: Font, s: Sys, ev: M.ServerEvent, now: u32, starts: bool)
    requires Inv(s.audio)
    ensures var s' := Handle(f, s, ev, now, starts);
            && s'.lastVadMs == (if ev == M.VadSpeaking(true) then now else s.lastVadMs)
            && s'.wsUp == s.wsUp && s'.loop == s.loop
  {
    hide Inv, Pcm, RT.Step, D.AddUserLine, D.SetFullText, D.AppendDelta, D.FlushTyping, BeginStream, StopPlayback,
         FinishStream, FeedBytes, CloseRound;
    ClosingMovesNoClock(f, s);
  }

  // ---------- no stale audio ----------

  /** The round is closed, nothing streams, the ring is empty and nothing is in flight. */
  predicate Silent(s: Sys) {
    s.tracker.roundFinalized && !s.audio.streaming && s.audio.queue == [] && s.audio.xfer.None?
  }

  /** A new round or a new session. */
  predicate Reopens(op: Step) {
    op.SessionStart? || (op.Server? && op.ev.AsrResult?)
  }

  lemma InterruptSilences(f: Font, s: Sys)
    requires Good(s) && s.intReq
    ensures Silent(Next(f, s, TakeInterrupt))
  {
    hide D.FlushTyping;
  }

  lemma HandleKeepsSilence(f: Font, s: Sys, ev: M.ServerEvent, now: u32, starts: bool)
    requires Good(s) && Silent(s) && !ev.AsrResult?
    ensures Silent(Handle(f, s, ev, now, starts))
  {
    hide BeginStream, FeedBytes, D.FlushTyping, D.SetFullText, D.AppendDelta, Pcm;
  }

  lemma PumpKeepsSilence(s: AudioState, env: TickEnv)
    requires !s.streaming && s.queue == [] && s.xfer.None?
    ensures Tick(s, env) == Ticked(s, false, [])
  {
    hide Slice, AfterPop;
  }

  lemma ControlsKeepSilence(s: AudioState, op: Step)
    ensures op.Volume? ==>
      var s' := SetVolume(s, op.v); s'.streaming == s.streaming && s'.queue == s.queue && s'.xfer == s.xfer
    ensures op.Beep? ==>
      var s' := AfterTone(s, op.left); s'.streaming == s.streaming && s'.queue == s.queue && s'.xfer == s.xfer
  {
  }

  lemma SilenceHolds(f: Font, s: Sys, op: Step)
    requires Good(s) && Silent(s) && !Reopens(op)
    ensures Silent(Next(f, s, op))
    ensures op.Pump? ==> Tick(s.audio, op.env) == Ticked(s.audio, false, [])
  {
    hide Inv, Tick, Handle, D.FlushTyping, D.Tick, TimedOut, MayAutoListen, StopPlayback, SetVolume, AfterTone,
         StartListening, StopListening, GoIdle, GoPlaying, Drained, CloseRound;
    ControlsKeepSilence(s.audio, op);
    match op
    case Server(ev, now, starts) => HandleKeepsSilence(f, s, ev, now, starts);
    case Pump(env) => PumpKeepsSilence(s.audio, env);
    case TakeInterrupt =>
      if s.intReq {
        InterruptSilences(f, s);
      }
    case Volume(_) | Beep(_) =>
    case _ => LoopLeavesAudio(f, s, op);
  }

  /** The states a run passes through. */
  ghost predicate Run(f: Font, states: seq<Sys>, ops: seq<Step>) {
    && |states| == |ops| + 1
    && (forall i :: 0 <= i < |states| ==> Good(states[i]))
    && (forall i :: 0 <= i < |ops| ==> Follows(f, states[i], ops[i], states[i + 1]))
  }

  /**
   * No stale audio. After a taken interrupt, until the next recognition result or session, in
   * every run, whatever audio.start, audio.chunk and audio.done still arrive: no byte enters the
   * ring, no stream begins, no slice reaches the DMA and no transfer is in flight.
   */
  lemma {:induction false} NoStaleAudio(f: Font, states: seq<Sys>, ops: seq<Step>, n: nat)
    requires Run(f, states, ops) && 1 <= n <= |ops|
    requires states[0].intReq && ops[0] == TakeInterrupt
    requires forall i :: 1 <= i < n ==> !Reopens(ops[i])
    ensures Silent(states[n])
    ensures n < |ops| && ops[n].Pump? ==> Tick(states[n].audio, ops[n].env).pushed == []
                                          && !Tick(states[n].audio, ops[n].env).started
    decreases n
  {
    hide Next, Good, Tick, Silent;
    assert Follows(f, states[n - 1], ops[n - 1], states[n]);
    if n == 1 {
      InterruptSilences(f, states[0]);
    } else {
      NoStaleAudio(f, states, ops, n - 1);
      SilenceHolds(f, states[n - 1], ops[n - 1]);
    }
    if n < |ops| && ops[n].Pump? {
      SilenceHolds(f, states[n], ops[n]);
    }
  }

  // ---------- where the code falls short of its notes ----------

  /** The tracker says the microphone is on, and the uplink flag is down. */
  predicate Stranded(s: Sys) {
    s.tracker.micActive && !s.micActive
  }

  /** The device is recording and sends what it records. */
  predicate Hears(s: Sys) {
    s.micActive && s.capturing
  }

  /**
   * An error is meant to leave the device hearing. Where the tracker says the microphone is off it
   * does exactly if the capture starts; where the tracker says it is on the error changes nothing,
   * whether the device hears or not. The uplink flag alone is up unless the device was stranded.
   */
  lemma ErrorRestoresHearingExactly(f: Font, s: Sys, ev: M.ServerEvent, now: u32, starts: bool)
    requires Good(s) && IsError(ev)
    ensures Hears(Handle(f, s, ev, now, starts)) <==> if s.tracker.micActive then Hears(s) else starts
    ensures Handle(f, s, ev, now, starts).micActive <==> !Stranded(s)
  {
    hide D.FlushTyping;
  }

  /** Stranding comes from a disconnect with the microphone on, and lasts until it is switched. */
  lemma StrandedExactly(f: Font, s: Sys, op: Step)
    requires Good(s)
    ensures Stranded(Next(f, s, op)) <==>
      (op.Disconnect? && s.tracker.micActive) || (Stranded(s) && !TurnsMicOff(s, op) && !TurnsMicOn(s, op))
  {
    hide Inv, Next, TimedOut, MayAutoListen;
    NextMic(f, s, op);
    assert Stranded(Next(f, s, op)) <==> MicOf(Next(f, s, op)).tracked && !MicOf(Next(f, s, op)).up;
  }

  /** The step switches the microphone, one way or the other. */
  predicate Switches(s: Sys, op: Step) {
    TurnsMicOff(s, op) || TurnsMicOn(s, op)
  }

  /** From step i on, and before step n, nothing switches the microphone. */
  ghost predicate Unswitched(states: seq<Sys>, ops: seq<Step>, i: nat, n: nat)
    requires |states| > |ops| >= n
  {
    forall j :: i <= j < n ==> !Switches(states[j], ops[j])
  }

  /** Step i loses the link with the microphone on, and nothing switches it before step n. */
  ghost predicate LosesLink(states: seq<Sys>, ops: seq<Step>, i: nat, n: nat)
    requires |states| > |ops| >= n
  {
    i < n && ops[i].Disconnect? && states[i].tracker.micActive && Unswitched(states, ops, i + 1, n)
  }

  /**
   * In every run the device is stranded exactly if some disconnect found the microphone on, and
   * nothing has switched it since; or it was stranded to begin with.
   */
  lemma {:induction false} StrandedInRuns(f: Font, states: seq<Sys>, ops: seq<Step>, n: nat)
    requires Run(f, states, ops) && n <= |ops|
    ensures Stranded(states[n]) <==>
      (exists i: nat :: LosesLink(states, ops, i, n)) || (Stranded(states[0]) && Unswitched(states, ops, 0, n))
    decreases n
  {
    hide Next, Good, Stranded, TurnsMicOff, TurnsMicOn;
    if n > 0 {
      var k := n - 1;
      assert Follows(f, states[k], ops[k], states[n]);
      StrandedInRuns(f, states, ops, k);
      StrandedExactly(f, states[k], ops[k]);
      assert Unswitched(states, ops, 0, n) <==> Unswitched(states, ops, 0, k) && !Switches(states[k], ops[k]);
      forall i: nat | i < k
        ensures LosesLink(states, ops, i, n) <==> LosesLink(states, ops, i, k) && !Switches(states[k], ops[k])
      {
        assert Unswitched(states, ops, i + 1, n) <==> Unswitched(states, ops, i + 1, k) && !Switches(states[k], ops[k]);
      }
      assert LosesLink(states, ops, k, n) <==> ops[k].Disconnect? && states[k].tracker.micActive;
    }
  }

  /** The microphone is on while speech plays. */
  predicate Overheard(s: Sys) {
    s.loop.state.Playing? && s.tracker.micActive
  }

  /** An error turns the microphone on whatever the main loop is doing; nothing else does while it plays. */
  lemma OverheardExactly(f: Font, s: Sys, op: Step)
    requires Good(s)
    ensures Overheard(Next(f, s, op)) <==>
      !Switches(s, op) && (Overheard(s) || (s.loop.state.Playing? && op.Server? && IsError(op.ev)))
  {
    hide Inv, Next, TimedOut, MayAutoListen;
    NextMic(f, s, op);
    assert Overheard(Next(f, s, op)) <==> MicOf(Next(f, s, op)).state.Playing? && MicOf(Next(f, s, op)).tracked;
  }

  lemma ErrorSwitchesNothing(s: Sys, op: Step)
    requires op.Server? && IsError(op.ev)
    ensures !Switches(s, op)
  {
  }

  /** Step i is an error while speech plays, and nothing switches the microphone before step n. */
  ghost predicate ErrorPlays(states: seq<Sys>, ops: seq<Step>, i: nat, n: nat)
    requires |states| > |ops| >= n
  {
    && i < n && states[i].loop.state.Playing? && ops[i].Server? && IsError(ops[i].ev)
    && Unswitched(states, ops, i + 1, n)
  }

  /**
   * Recording is meant to pause while speech plays, against the echo. In every run it does, except
   * exactly from an error on that arrives while speech plays, until the next switch.
   */
  lemma {:induction false} OverheardInRuns(f: Font, states: seq<Sys>, ops: seq<Step>, n: nat)
    requires Run(f, states, ops) && n <= |ops|
    ensures Overheard(states[n]) <==>
      (exists i: nat :: ErrorPlays(states, ops, i, n)) || (Overheard(states[0]) && Unswitched(states, ops, 0, n))
    decreases n
  {
    hide Next, Good, Overheard, TurnsMicOff, TurnsMicOn;
    if n > 0 {
      var k := n - 1;
      assert Follows(f, states[k], ops[k], states[n]);
      OverheardInRuns(f, states, ops, k);
      OverheardExactly(f, states[k], ops[k]);
      assert Unswitched(states, ops, 0, n) <==> Unswitched(states, ops, 0, k) && !Switches(states[k], ops[k]);
      forall i: nat | i < k
        ensures ErrorPlays(states, ops, i, n) <==> ErrorPlays(states, ops, i, k) && !Switches(states[k], ops[k])
      {
        assert Unswitched(states, ops, i + 1, n) <==> Unswitched(states, ops, i + 1, k) && !Switches(states[k], ops[k]);
      }
      if ops[k].Server? && IsError(ops[k].ev) {
        ErrorSwitchesNothing(states[k], ops[k]);
      }
      assert ErrorPlays(states, ops, k, n)
        <==> states[k].loop.state.Playing? && ops[k].Server? && IsError(ops[k].ev);
    }
  }

  /**
   * What arrives after an interrupt is meant not to be shown. Deltas never are. A late
   * assistant.completed is typed out all the same, and adds nothing exactly if its text is what
   * was streamed already, or is empty with nothing being typed or waiting.
   */
  lemma LateTextAddsNothingExactly(f: Font, s: Sys, tr: SR.Trace, text: string, now: u32, starts: bool)
    requires Good(s) && Silent(s) && tr.s == s.subs
    ensures Handle(f, s, M.AssistantDelta(text), now, starts).subs == s.subs
    ensures var tr' := SR.Step(f, tr, SR.Full(text));
            && tr'.s == Handle(f, s, M.AssistantCompleted(text), now, starts).subs
            && (SR.NothingAdded(tr, tr') <==> SR.AddsNothing(s.subs, text))
  {
    hide D.SetFullText, D.AppendDelta, SR.LogFlush, SR.Close;
    SR.FullTextAddsNothingExactly(f, tr, text);
  }
}
