/**
 * What the two tasks of src/main.rs do to the round guard, the subtitles and the audio, told from
 * the steps of a run alone: which events of a round they are, and which operations on the
 * subtitles and on the audio output follow from those. Every run of Dispatch is proved to do
 * exactly these, so what holds of every history, of every run of subtitles and of every run of
 * audio holds of the two tasks.
 */
module Histories {
  import opened Bytes
  import opened Options
  import opened Font
  import opened AudioSpec
  import opened Dispatch
  import AR = AudioRuns
  import Base64
  import D = Display
  import M = Messages
  import RT = RoundTracker
  import Resampler
  import SR = SubtitleRuns
  import Utf8
  import opened Wrap

  // ---------- the events of a round ----------

  /** An interrupt is requested and not taken yet. */
  function Pending(ops: seq<Step>): bool {
    if ops == [] then false
    else
      match ops[|ops| - 1]
      case RequestInterrupt => true
      case TakeInterrupt => false
      case _ => Pending(ops[..|ops| - 1])
  }

  /** What a server event is for the round. */
  function EventOf(ev: M.ServerEvent, now: u32): seq<RT.Event> {
    match ev
    case AsrResult(_) => [RT.AsrResult]
    case AssistantDelta(_) => [RT.Delta(now)]
    case AudioStart(_) => [RT.AudioStart]
    case AudioChunk(_) => [RT.AudioChunk(now)]
    case AudioDone => [RT.AudioDone]
    case AssistantCompleted(_) => [RT.Completed]
    case AssistantError(_) | InterruptAck => [RT.FinalizePartial]
    case _ => []
  }

  function RoundEvents(op: Step, pending: bool): seq<RT.Event> {
    match op
    case SessionStart => [RT.Reset]
    case TakeInterrupt => if pending then [RT.FinalizePartial] else []
    case Server(ev, now, _) => EventOf(ev, now)
    case _ => []
  }

  function Round(ops: seq<Step>): seq<RT.Event> {
    if ops == [] then []
    else
      var before := ops[..|ops| - 1];
      Round(before) + RoundEvents(ops[|ops| - 1], Pending(before))
  }

  /** The round is open and a reply has begun. */
  ghost predicate Replying(h: seq<RT.Event>) {
    !RT.Closed(h) && exists i :: RT.FirstDelta(h, i)
  }

  // ---------- the subtitles ----------

  /** What a step does to the subtitles after the events h of the round. */
  ghost function Subtitling(h: seq<RT.Event>, op: Step, pending: bool): seq<SR.Op> {
    match op
    case Server(ev, _, _) =>
      (match ev
       case AsrResult(text) => [SR.UserLine(text)]
       case AssistantDelta(text) => if RT.Closed(h) then [] else [SR.Delta(text)]
       case AssistantCompleted(text) => [SR.Full(text)]
       case AssistantError(_) | InterruptAck => if Replying(h) then [SR.Flush] else []
       case _ => [])
    case TakeInterrupt => if pending && Replying(h) then [SR.Flush] else []
    case ManualExit(_) | RequestInterrupt => [SR.Flush]
    case TypeTick(now) => [SR.TypeTick(now)]
    case _ => []
  }

  ghost function Subtitled(ops: seq<Step>): seq<SR.Op> {
    if ops == [] then []
    else
      var before := ops[..|ops| - 1];
      Subtitled(before) + Subtitling(Round(before), ops[|ops| - 1], Pending(before))
  }

  // ---------- the audio ----------

  /** What a step does to the audio after the events h of the round. */
  ghost function Sounding(h: seq<RT.Event>, op: Step, pending: bool): seq<AR.Op> {
    match op
    case Server(ev, _, _) =>
      (match ev
       case AsrResult(_) => if RT.StreamOpen(h) then [AR.Stop] else []
       case AudioStart(rate) => if RT.Closed(h) then [] else [AR.Begin(if rate.Some? then rate.value else 24000)]
       case AudioChunk(data) => if RT.Closed(h) then [] else [AR.FeedChunk(Base64.Decoded(Utf8.Encode(data)))]
       case AudioDone => if RT.StreamOpen(h) then [AR.Finish] else []
       case _ => [])
    case TakeInterrupt => if pending then [AR.Stop] else []
    case Pump(env) => [AR.Pump(env)]
    case Volume(v) => [AR.Volume(v)]
    case Beep(left) => [AR.Tone(left)]
    case _ => []
  }

  ghost function Sounded(ops: seq<Step>): seq<AR.Op> {
    if ops == [] then []
    else
      var before := ops[..|ops| - 1];
      Sounded(before) + Sounding(Round(before), ops[|ops| - 1], Pending(before))
  }

  // ---------- one step ----------

  /** The tracker without the microphone's bit, which the main loop writes too. */
  function RoundOf(t: RT.TrackerState): RT.TrackerState {
    t.(micActive := false)
  }

  function Marked(t: RT.TrackerState, h: seq<RT.Event>): RT.TrackerState {
    if h == [] then t else RT.Step(t, h[0])
  }

  lemma MicIsNoMatter(t: RT.TrackerState, e: RT.Event)
    requires !e.MicStart? && !e.MicPause? && !e.ResumeMicOnError?
    ensures RoundOf(RT.Step(t, e)) == RT.Step(RoundOf(t), e)
  {
  }

  /** Nothing happened to the round, nor to a request. */
  predicate Unmarked(s: Sys, s': Sys) {
    RoundOf(s'.tracker) == RoundOf(s.tracker) && s'.intReq == s.intReq
  }

  lemma OnIsNoMatter(s: Sys, now: u32, starts: bool)
    ensures Unmarked(s, StartListening(s, now, starts))
  {
  }

  lemma OffIsNoMatter(s: Sys)
    ensures Unmarked(s, StopListening(s))
  {
  }

  lemma ResumeIsNoMatter(s: Sys, starts: bool)
    ensures Unmarked(s, ResumeMic(s, starts))
  {
  }

  lemma ResultMarks(f: Font, s: Sys, text: string)
    ensures RoundOf(OnAsrResult(f, s, text).tracker) == RT.NEW && OnAsrResult(f, s, text).intReq == s.intReq
  {
    hide D.AddUserLine, StopPlayback;
  }

  lemma ClosingMarks(f: Font, s: Sys)
    ensures CloseRound(f, s).tracker == RT.Step(s.tracker, RT.FinalizePartial) && CloseRound(f, s).intReq == s.intReq
  {
    hide D.FlushTyping, RT.Step;
  }

  lemma EventMarks(f: Font, s: Sys, ev: M.ServerEvent, now: u32, starts: bool)
    requires Inv(s.audio)
    ensures RoundOf(Handle(f, s, ev, now, starts).tracker) == Marked(RoundOf(s.tracker), EventOf(ev, now))
    ensures Handle(f, s, ev, now, starts).intReq == s.intReq
  {
    hide Inv, Pcm, D.SetFullText, D.AppendDelta, OnAsrResult, CloseRound, ResumeMic, AudioSpec.BeginStream, FinishStream,
         FeedBytes, RT.Step, RoundOf;
    match ev
    case AsrResult(text) =>
      ResultMarks(f, s, text);
      ResultResets(RoundOf(s.tracker));
    case AssistantDelta(_) => MicIsNoMatter(s.tracker, RT.Delta(now));
    case AudioStart(_) => MicIsNoMatter(s.tracker, RT.AudioStart);
    case AudioChunk(_) => MicIsNoMatter(s.tracker, RT.AudioChunk(now));
    case AudioDone => MicIsNoMatter(s.tracker, RT.AudioDone);
    case AssistantCompleted(_) => MicIsNoMatter(s.tracker, RT.Completed);
    case AssistantError(_) | InterruptAck =>
      ClosingMarks(f, s);
      ResumeIsNoMatter(CloseRound(f, s), starts);
      MicIsNoMatter(s.tracker, RT.FinalizePartial);
    case Error(_) => ResumeIsNoMatter(s, starts);
    case _ =>
  }

  lemma ResultResets(t: RT.TrackerState)
    ensures RT.Step(t, RT.AsrResult) == RT.NEW
  {
  }

  /** Going into Listening or out of it is no event of the round. */
  lemma SwitchMarks(f: Font, s: Sys, op: Step)
    requires Inv(s.audio) && (MayListen(op) || MayStopListening(op))
    ensures Unmarked(s, Next(f, s, op))
  {
    hide Inv, StartListening, StopListening, RoundOf, D.FlushTyping, TimedOut, MayAutoListen;
    if MayListen(op) {
      OnIsNoMatter(s, op.now, op.starts);
    } else {
      OffIsNoMatter(s);
    }
  }

  /** A step marks the round as its event says, and leaves a request exactly as it should. */
  lemma StepMarks(f: Font, s: Sys, op: Step)
    requires Good(s)
    ensures RoundOf(Next(f, s, op).tracker) == Marked(RoundOf(s.tracker), RoundEvents(op, s.intReq))
    ensures Next(f, s, op).intReq == (op.RequestInterrupt? || (s.intReq && !op.TakeInterrupt?))
  {
    hide Inv, Handle, Tick, CloseRound, RT.Step, RoundOf, D.FlushTyping, D.Tick, StopPlayback, SetVolume, AfterTone,
         StartListening, StopListening, TimedOut, MayAutoListen, Drained, EventOf;
    if op.Server? {
      ServerIs(f, s, op);
      EventMarks(f, s, op.ev, op.now, op.starts);
    } else if MayListen(op) || MayStopListening(op) {
      SwitchMarks(f, s, op);
    } else if op.TakeInterrupt? {
      ClosingMarks(f, s);
      MicIsNoMatter(s.tracker, RT.FinalizePartial);
    } else if op.SessionStart? {
      MicIsNoMatter(s.tracker, RT.Reset);
    }
  }

  // ---------- one step on the subtitles ----------

  /** The subtitles after these operations, if any. */
  function Titled(f: Font, tr: SR.Trace, ops: seq<SR.Op>): D.Subtitles {
    if ops == [] then tr.s else SR.Step(f, tr, ops[0]).s
  }

  /** What the operations are to the subtitles of the moment. */
  lemma TitledIs(f: Font, tr: SR.Trace, text: string, now: u32)
    ensures Titled(f, tr, [SR.UserLine(text)]) == D.AddUserLine(f, tr.s, text)
    ensures Titled(f, tr, [SR.Delta(text)]) == D.AppendDelta(f, tr.s, text)
    ensures Titled(f, tr, [SR.Full(text)]) == D.SetFullText(f, tr.s, text)
    ensures Titled(f, tr, [SR.Flush]) == D.FlushTyping(f, tr.s)
    ensures Titled(f, tr, [SR.TypeTick(now)]) == D.Tick(f, tr.s, now)
  {
    hide D.AddUserLine, D.AppendDelta, D.SetFullText, D.Tick;
    SR.FlushKeepsColor(f, tr);
    SR.TickStepIs(f, tr, now);
    EmptyDelta(f, tr.s);
  }

  lemma EmptyDelta(f: Font, s: D.Subtitles)
    ensures D.AppendDelta(f, s, "") == s
  {
  }

  /** The tracker answers as the history of the round says. */
  lemma TrackerKnows(t: RT.TrackerState, h: seq<RT.Event>)
    requires RoundOf(t) == RT.Run(h)
    ensures t.roundFinalized <==> RT.Closed(h)
    ensures t.voiceAudioOn <==> RT.StreamOpen(h)
    ensures RT.NeedsFlush(t) <==> Replying(h)
  {
    hide RT.Run, RT.Closed, RT.StreamOpen, RT.FirstDelta;
    RT.TrackerRefinesHistory(h);
    RT.AnswersMean(h);
    assert RT.NeedsFlush(t) == RT.NeedsFlush(RoundOf(t));
  }

  lemma ResultShows(f: Font, s: Sys, text: string)
    ensures OnAsrResult(f, s, text).subs == D.AddUserLine(f, s.subs, text)
  {
    hide D.AddUserLine, StopPlayback, RT.Step;
  }

  lemma ClosingShows(f: Font, s: Sys)
    ensures CloseRound(f, s).subs == if RT.NeedsFlush(s.tracker) then D.FlushTyping(f, s.subs) else s.subs
  {
    hide D.FlushTyping, RT.Step, RT.NeedsFlush;
  }

  lemma ResumeShows(s: Sys, starts: bool)
    ensures ResumeMic(s, starts).subs == s.subs && ResumeMic(s, starts).audio == s.audio
  {
    hide RT.Step;
  }

  lemma TextEventShows(f: Font, s: Sys, ev: M.ServerEvent, now: u32, starts: bool)
    requires Inv(s.audio)
    ensures Handle(f, s, ev, now, starts).subs ==
      match ev
      case AsrResult(text) => D.AddUserLine(f, s.subs, text)
      case AssistantDelta(text) => if s.tracker.roundFinalized then s.subs else D.AppendDelta(f, s.subs, text)
      case AssistantCompleted(text) => D.SetFullText(f, s.subs, text)
      case AssistantError(_) | InterruptAck => if RT.NeedsFlush(s.tracker) then D.FlushTyping(f, s.subs) else s.subs
      case _ => s.subs
  {
    hide Inv, Pcm, OnAsrResult, CloseRound, ResumeMic, AudioSpec.BeginStream, FinishStream, FeedBytes, RT.Step,
         RT.NeedsFlush, D.AddUserLine, D.AppendDelta, D.SetFullText, D.FlushTyping;
    if ev.AsrResult? {
      ResultShows(f, s, ev.text);
    } else if ev.AssistantError? || ev.InterruptAck? {
      ClosingShows(f, s);
      ResumeShows(CloseRound(f, s), starts);
    } else if ev.Error? {
      ResumeShows(s, starts);
    }
  }

  lemma EventShows(f: Font, s: Sys, op: Step, tr: SR.Trace, h: seq<RT.Event>)
    requires Good(s) && op.Server? && RoundOf(s.tracker) == RT.Run(h) && tr.s == s.subs
    ensures Next(f, s, op).subs == Titled(f, tr, Subtitling(h, op, s.intReq))
  {
    hide Inv, Handle, RT.Run, RT.NeedsFlush, RT.Closed, Replying, RoundOf, D.AddUserLine, D.AppendDelta, D.SetFullText,
         D.FlushTyping, Titled, Next;
    ServerIs(f, s, op);
    TrackerKnows(s.tracker, h);
    NothingTitled(f, tr);
    var text := match op.ev
      case AsrResult(t) => t
      case AssistantDelta(t) => t
      case AssistantCompleted(t) => t
      case _ => "";
    TitledIs(f, tr, text, 0);
    TextEventShows(f, s, op.ev, op.now, op.starts);
  }

  lemma NothingTitled(f: Font, tr: SR.Trace)
    ensures Titled(f, tr, []) == tr.s
  {
  }

  lemma SwitchShows(f: Font, s: Sys, op: Step)
    requires Inv(s.audio) && (MayListen(op) || MayStopListening(op))
    ensures Next(f, s, op).subs == if op.ManualExit? then D.FlushTyping(f, s.subs) else s.subs
  {
    hide Inv, D.FlushTyping, TimedOut, MayAutoListen, RT.Step;
  }

  /** A step does to the subtitles what its events say. */
  lemma StepShows(f: Font, s: Sys, op: Step, tr: SR.Trace, h: seq<RT.Event>)
    requires Good(s) && RoundOf(s.tracker) == RT.Run(h) && tr.s == s.subs
    ensures Next(f, s, op).subs == Titled(f, tr, Subtitling(h, op, s.intReq))
  {
    hide Inv, Tick, CloseRound, RT.Step, RT.Run, RT.NeedsFlush, RoundOf, Replying, D.FlushTyping, D.Tick, StopPlayback,
         SetVolume, AfterTone, StartListening, StopListening, TimedOut, MayAutoListen, Drained, Handle, Titled;
    NothingTitled(f, tr);
    if op.Server? {
      EventShows(f, s, op, tr, h);
    } else {
      TitledIs(f, tr, "", if op.TypeTick? then op.now else 0);
      if MayListen(op) || MayStopListening(op) {
        SwitchShows(f, s, op);
      } else if op.TakeInterrupt? {
        TrackerKnows(s.tracker, h);
        ClosingShows(f, s);
      }
    }
  }

  // ---------- one step on the audio ----------

  function Played(tr: AR.Trace, ops: seq<AR.Op>): AudioState
    requires Inv(tr.s)
  {
    if ops == [] then tr.s else AR.Step(tr, ops[0]).s
  }

  lemma PlayedIs(tr: AR.Trace, rate: nat, mono: seq<byte>, env: TickEnv, v: int, left: seq<byte>)
    requires Inv(tr.s)
    ensures Played(tr, []) == tr.s
    ensures Played(tr, [AR.Stop]) == StopPlayback(tr.s) && Played(tr, [AR.Finish]) == FinishStream(tr.s)
    ensures Played(tr, [AR.Begin(rate)]) == AudioSpec.BeginStream(tr.s, rate)
    ensures Played(tr, [AR.FeedChunk(mono)]) == FeedBytes(tr.s, mono)
    ensures Played(tr, [AR.Pump(env)]) == Tick(tr.s, env).state
    ensures Played(tr, [AR.Volume(v)]) == SetVolume(tr.s, v) && Played(tr, [AR.Tone(left)]) == AfterTone(tr.s, left)
  {
    hide Inv, Tick, AudioSpec.BeginStream, StopPlayback, FinishStream, FeedBytes, SetVolume, AfterTone, AR.FeedStep,
         AR.PumpStep;
    AR.FeedStepState(tr, mono);
    AR.PumpStepState(tr, env);
  }

  lemma ResultSounds(f: Font, s: Sys, text: string)
    ensures OnAsrResult(f, s, text).audio == if s.tracker.voiceAudioOn then StopPlayback(s.audio) else s.audio
  {
    hide D.AddUserLine, StopPlayback, RT.Step;
  }

  lemma ClosingSounds(f: Font, s: Sys)
    ensures CloseRound(f, s).audio == s.audio
  {
    hide D.FlushTyping, RT.Step, RT.NeedsFlush;
  }

  predicate IsSound(ev: M.ServerEvent) {
    ev.AsrResult? || ev.AudioStart? || ev.AudioChunk? || ev.AudioDone?
  }

  lemma QuietEventSounds(f: Font, s: Sys, ev: M.ServerEvent, now: u32, starts: bool)
    requires Inv(s.audio) && !IsSound(ev)
    ensures Handle(f, s, ev, now, starts).audio == s.audio
  {
    hide Inv, CloseRound, ResumeMic, RT.Step, D.AppendDelta, D.SetFullText;
    if ev.AssistantError? || ev.InterruptAck? {
      ClosingSounds(f, s);
      ResumeShows(CloseRound(f, s), starts);
    } else if ev.Error? {
      ResumeShows(s, starts);
    }
  }

  lemma SoundEventSounds(f: Font, s: Sys, ev: M.ServerEvent, now: u32, starts: bool)
    requires Inv(s.audio) && IsSound(ev)
    ensures Handle(f, s, ev, now, starts).audio ==
      match ev
      case AsrResult(_) => if s.tracker.voiceAudioOn then StopPlayback(s.audio) else s.audio
      case AudioStart(rate) =>
        if s.tracker.roundFinalized then s.audio
        else AudioSpec.BeginStream(s.audio, if rate.Some? then rate.value else 24000)
      case AudioChunk(data) =>
        if s.tracker.roundFinalized then s.audio else FeedBytes(s.audio, Base64.Decoded(Utf8.Encode(data)))
      case AudioDone => if s.tracker.voiceAudioOn then FinishStream(s.audio) else s.audio
      case _ => s.audio
  {
    hide Inv, OnAsrResult, RT.Step, Base64.Decoded, Utf8.Encode, AudioSpec.BeginStream, FeedBytes, FinishStream,
         StopPlayback;
    if ev.AsrResult? {
      ResultSounds(f, s, ev.text);
    }
  }

  lemma EventSounds(f: Font, s: Sys, op: Step, tr: AR.Trace, h: seq<RT.Event>)
    requires Good(s) && op.Server? && RoundOf(s.tracker) == RT.Run(h) && tr.s == s.audio
    ensures Next(f, s, op).audio == Played(tr, Sounding(h, op, s.intReq))
  {
    hide Inv, Base64.Decoded, Utf8.Encode, Handle, AudioSpec.BeginStream, FinishStream, StopPlayback, FeedBytes,
         RT.Run, RT.NeedsFlush, RT.Closed,
         RT.StreamOpen, RoundOf, Played, Next, Replying;
    ServerIs(f, s, op);
    TrackerKnows(s.tracker, h);
    var rate := if op.ev.AudioStart? && op.ev.rate.Some? then op.ev.rate.value else 24000;
    var mono := if op.ev.AudioChunk? then Base64.Decoded(Utf8.Encode(op.ev.data)) else [];
    PlayedIs(tr, rate, mono, TickEnv(false, 0, false), 0, []);
    if IsSound(op.ev) {
      SoundEventSounds(f, s, op.ev, op.now, op.starts);
    } else {
      QuietEventSounds(f, s, op.ev, op.now, op.starts);
    }
  }

  lemma LoopSounds(f: Font, s: Sys, op: Step)
    requires Inv(s.audio) && !op.Server?
    ensures Next(f, s, op).audio ==
      match op
      case TakeInterrupt => if s.intReq then StopPlayback(s.audio) else s.audio
      case Pump(env) => Tick(s.audio, env).state
      case Volume(v) => SetVolume(s.audio, v)
      case Beep(left) => AfterTone(s.audio, left)
      case _ => s.audio
  {
    hide Inv, Tick, RT.Step, D.FlushTyping, D.Tick, StopPlayback, SetVolume, AfterTone, StartListening, StopListening,
         TimedOut, MayAutoListen, Drained, CloseRound;
    if MayListen(op) || MayStopListening(op) {
      LoopLeavesAudio(f, s, op);
    }
  }

  /** A step does to the audio what its events say. */
  lemma StepSounds(f: Font, s: Sys, op: Step, tr: AR.Trace, h: seq<RT.Event>)
    requires Good(s) && RoundOf(s.tracker) == RT.Run(h) && tr.s == s.audio
    ensures Next(f, s, op).audio == Played(tr, Sounding(h, op, s.intReq))
  {
    hide Inv, Tick, RT.Run, RoundOf, StopPlayback, SetVolume, AfterTone, Next, Played;
    if op.Server? {
      EventSounds(f, s, op, tr, h);
    } else {
      PlayedIs(tr, 0, [], if op.Pump? then op.env else TickEnv(false, 0, false), if op.Volume? then op.v else 0,
               if op.Beep? then op.left else []);
      LoopSounds(f, s, op);
    }
  }

  // ---------- whole runs ----------

  lemma OneStepMore(ops: seq<Step>, n: nat)
    requires 0 < n <= |ops|
    ensures ops[..n][..|ops[..n]| - 1] == ops[..n - 1] && ops[..n][|ops[..n]| - 1] == ops[n - 1]
  {
  }

  lemma MarkedRun(h: seq<RT.Event>, e: seq<RT.Event>)
    requires |e| <= 1
    ensures RT.Run(h + e) == Marked(RT.Run(h), e)
  {
    hide RT.Step;
    if e == [] {
      assert h + e == h;
    } else {
      RT.Extend(h, e[0]);
      assert h + e == h + [e[0]];
    }
  }

  /**
   * In every run from power-on the tracker, the microphone's bit apart, is what the history of the
   * round makes it, and a request is pending exactly if none was taken since it was made.
   */
  lemma {:induction false} RunsMarkTheRound(
      f: Font, cap: nat, tx: Tx, stream: Stream, states: seq<Sys>, ops: seq<Step>, n: nat)
    requires Run(f, states, ops) && states[0] == Boot(cap, tx, stream) && n <= |ops|
    ensures RoundOf(states[n].tracker) == RT.Run(Round(ops[..n]))
    ensures states[n].intReq == Pending(ops[..n])
    decreases n
  {
    hide Next, Good, RoundOf, RT.Run, RT.Step, RoundEvents, Marked;
    if n == 0 {
      FreshRound(cap, tx, stream);
    } else {
      var s, op, before := states[n - 1], ops[n - 1], ops[..n - 1];
      assert Follows(f, s, op, states[n]);
      RunsMarkTheRound(f, cap, tx, stream, states, ops, n - 1);
      StepMarks(f, s, op);
      OneStepMore(ops, n);
      AtMostOne(op, s.intReq);
      MarkedRun(Round(before), RoundEvents(op, s.intReq));
    }
  }

  lemma FreshRound(cap: nat, tx: Tx, stream: Stream)
    ensures RoundOf(Boot(cap, tx, stream).tracker) == RT.Run([])
  {
  }

  lemma AtMostOne(op: Step, pending: bool)
    ensures |RoundEvents(op, pending)| <= 1
    ensures forall h :: |Subtitling(h, op, pending)| <= 1 && |Sounding(h, op, pending)| <= 1
  {
    hide Replying, RT.Closed, RT.StreamOpen;
  }

  lemma TitledRun(f: Font, a: seq<SR.Op>, b: seq<SR.Op>)
    requires |b| <= 1
    ensures SR.Run(f, a + b).s == Titled(f, SR.Run(f, a), b)
  {
    hide SR.Step;
    if b == [] {
      assert a + b == a;
    } else {
      assert (a + b)[..|a + b| - 1] == a && (a + b)[|a + b| - 1] == b[0];
    }
  }

  /**
   * In every run from power-on the subtitles are those of the run of subtitle operations its events
   * call for: each recognition result is a user line, each delta of an open round a delta, each
   * completed text a full text, each early close of a round with a reply a flush.
   */
  lemma {:induction false} SubtitlesFollowEvents(
      f: Font, cap: nat, tx: Tx, stream: Stream, states: seq<Sys>, ops: seq<Step>, n: nat)
    requires Run(f, states, ops) && states[0] == Boot(cap, tx, stream) && n <= |ops|
    ensures states[n].subs == SR.Run(f, Subtitled(ops[..n])).s
    decreases n
  {
    hide Next, Good, RoundOf, RT.Run, SR.Step, SR.Run, Subtitling, Titled, Round;
    if n == 0 {
      NothingSubtitled(f);
    } else {
      var s, op, before := states[n - 1], ops[n - 1], ops[..n - 1];
      assert Follows(f, s, op, states[n]);
      RunsMarkTheRound(f, cap, tx, stream, states, ops, n - 1);
      SubtitlesFollowEvents(f, cap, tx, stream, states, ops, n - 1);
      StepShows(f, s, op, SR.Run(f, Subtitled(before)), Round(before));
      OneStepMore(ops, n);
      AtMostOne(op, s.intReq);
      TitledRun(f, Subtitled(before), Subtitling(Round(before), op, s.intReq));
    }
  }

  lemma NothingSubtitled(f: Font)
    ensures SR.Run(f, []).s == D.BLANK
  {
  }

  /** The text of the deltas since a stream of them began, in the rounds that were open. */
  ghost function StreamedText(ops: seq<Step>): Option<string> {
    SR.Streamed(Subtitled(ops))
  }

  /**
   * So in every run no text is lost, invented or reordered: what was logged for the reply, is being
   * typed and waits is all that was enqueued for it; the history is the newest of what was logged;
   * and while deltas stream in, what is enqueued is all of them since the stream began.
   */
  lemma RepliesAreConserved(
      f: Font, cap: nat, tx: Tx, stream: Stream, states: seq<Sys>, ops: seq<Step>, n: nat)
    requires Run(f, states, ops) && states[0] == Boot(cap, tx, stream) && n <= |ops|
    ensures var tr, s := SR.Run(f, Subtitled(ops[..n])), states[n].subs;
            && Join(tr.lines) + NoNewlines(s.curLine + s.typingRest) == NoNewlines(tr.enqueued)
            && SR.Newest(s.history, SR.AllLogged(tr))
            && (s.streamMode <==> StreamedText(ops[..n]).Some?)
            && (s.streamMode ==> s.streamQueued == tr.enqueued == StreamedText(ops[..n]).value)
  {
    hide SR.Run, Subtitled, SR.Newest, SR.AllLogged;
    SubtitlesFollowEvents(f, cap, tx, stream, states, ops, n);
    SR.RunConserves(f, Subtitled(ops[..n]));
    SR.HistoryIsNewest(f, Subtitled(ops[..n]));
    SR.StreamIsItsDeltas(f, Subtitled(ops[..n]));
  }

  /**
   * In every run from power-on the audio is that of the run of audio operations its events call
   * for: each start in an open round begins a stream, each chunk in an open round is fed, the end
   * of an open stream finishes it, a new result stops an open stream, a taken interrupt stops all.
   */
  lemma {:induction false} AudioFollowsEvents(
      f: Font, cap: nat, tx: Tx, stream: Stream, states: seq<Sys>, ops: seq<Step>, n: nat) returns (end: AR.Trace)
    requires Run(f, states, ops) && states[0] == Boot(cap, tx, stream) && n <= |ops|
    ensures AR.Reaches(AR.Fresh(Initial(cap, tx, stream)), Sounded(ops[..n]), end) && end.s == states[n].audio
    decreases n
  {
    hide Next, RoundOf, RT.Run, AR.Step, AR.Reaches, Sounding, Round, Inv;
    if n == 0 {
      end := AR.Fresh(Initial(cap, tx, stream));
      AR.ReachesAll(end);
    } else {
      var s, op, before := states[n - 1], ops[n - 1], ops[..n - 1];
      assert Follows(f, s, op, states[n]);
      RunsMarkTheRound(f, cap, tx, stream, states, ops, n - 1);
      var tr := AudioFollowsEvents(f, cap, tx, stream, states, ops, n - 1);
      StepSounds(f, s, op, tr, Round(before));
      OneStepMore(ops, n);
      AtMostOne(op, s.intReq);
      var more := Sounding(Round(before), op, s.intReq);
      if more == [] {
        assert Sounded(before) + more == Sounded(before);
        end := tr;
      } else {
        AR.ReachesNext(AR.Fresh(Initial(cap, tx, stream)), Sounded(before), tr, more[0]);
        assert Sounded(before) + more == Sounded(before) + [more[0]];
        end := AR.Step(tr, more[0]);
      }
    }
  }

  /**
   * Speech from end to end, in every run: while a stream lasts and the ring never overflowed, the
   * slices handed to the DMA since it began carry, in order and from the first, the samples of the
   * decoded audio chunks accepted since: as they are at 16 kHz, resampled by the closed form at any
   * other rate; no slice is padded while a sample is queued; and all the rest is queued.
   */
  lemma SpeechIsDelivered(
      f: Font, cap: nat, tx: Tx, stream: Stream, states: seq<Sys>, ops: seq<Step>, n: nat) returns (end: AR.Trace)
    requires cap >= 2 && cap % 2 == 0
    requires Run(f, states, ops) && states[0] == Boot(cap, tx, stream) && n <= |ops|
    ensures AR.Reaches(AR.Fresh(Initial(cap, tx, stream)), Sounded(ops[..n]), end) && end.s == states[n].audio
    ensures forall i :: 0 <= i < |end.pushes| ==> AR.TakesAll(end.pushes[i])
    ensures states[n].audio.streaming && !end.refused ==>
      var chunks, rate := AR.ChunksAfter([], Sounded(ops[..n])), AR.RateAfter(0, Sounded(ops[..n]));
      && states[n].audio.inRate == (if 8000 <= rate <= 48000 then rate else 24000)
      && (states[n].audio.inRate == 16000 ==>
           2 * end.popped <= |AR.Flat(chunks)|
           && AR.Delivers(end.pushes, BytesSamples(AR.Flat(chunks)[..2 * end.popped]))
           && states[n].audio.queue == AR.Flat(chunks)[2 * end.popped..])
      && (states[n].audio.inRate != 16000 ==>
           states[n].audio.inRate > 0
           && var y := Resampler.ClosedForm(AR.FlatSamples(chunks), states[n].audio.inRate);
           && end.popped <= |y| && AR.Delivers(end.pushes, y[..end.popped])
           && states[n].audio.queue == SampleBytes(y[end.popped..]))
  {
    hide AR.Reaches, AR.Delivers, Resampler.ClosedForm, BytesSamples, SampleBytes, AR.Flat, AR.FlatSamples, Sounded, Run;
    end := AudioFollowsEvents(f, cap, tx, stream, states, ops, n);
    AR.EndToEnd(cap, tx, stream, Sounded(ops[..n]), end);
    if end.s.streaming && !end.refused {
      AR.PlaysWhatWasFed(cap, tx, stream, Sounded(ops[..n]), end);
      AR.RateInRange(end);
    }
  }
}
