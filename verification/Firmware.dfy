/**
 * The shared objects of src/main.rs and the code of its two tasks between real yields, each piece
 * proved to be the step of Dispatch it stands for.
 */
module Firmware {
  import opened Bytes
  import opened Options
  import opened Font
  import opened AudioSpec
  import opened Dispatch
  import RT = RoundTracker
  import D = Display
  import M = Messages
  import AO = AudioOutput
  import AI = AudioInput
  import Base64
  import Utf8

  class Firmware {
    const font: Font
    const tracker: RT.RoundTracker
    const audio: AO.AudioOutput
    const display: D.Display
    const audioIn: AI.AudioInput
    var micActive: bool
    var wsUp: bool
    var lastVadMs: u32
    var intReq: bool
    var state: AppState
    var cooldownUntil: u32
    var listenStarted: u32
    var quietSince: Option<u32>

    ghost predicate Valid()
      reads this, audio, audio.ring, audioIn
    {
      audio.Valid() && audioIn.Valid() && display.font == font
    }

    ghost function Shared(): Sys
      requires Valid()
      reads this, tracker, audio, audio.ring, display, audioIn
    {
      Sys(audio.State(), tracker.State(), display.Subs(), micActive, audioIn.IsRunning(), wsUp, lastVadMs, intReq,
          Loop(state, cooldownUntil, listenStarted, quietSince))
    }

    constructor (font: Font, cap: nat, tx: Tx, stream: Stream)
      requires cap >= 2 && cap % 2 == 0
      ensures Valid() && Shared() == Boot(cap, tx, stream)
      ensures fresh(tracker) && fresh(audio) && fresh(audio.ring) && fresh(display) && fresh(audioIn)
    {
      this.font := font;
      tracker := new RT.RoundTracker();
      audio := new AO.AudioOutput(cap, tx, stream);
      display := new D.Display(font);
      audioIn := new AI.AudioInput(0, 1);
      micActive, wsUp, lastVadMs, intReq := false, false, 0, false;
      state, cooldownUntil, listenStarted, quietSince := Idle, 0, 0, None;
    }

    // ---------- voice task ----------

    /** Sending the session start, the network wait between the two halves, is not modelled. */
    method BeginSession()
      requires Valid()
      modifies tracker
      ensures Valid() && Shared() == Next(font, old(Shared()), SessionStart)
    {
      tracker.ResetRound();
    }

    method SessionStarted(ok: bool)
      requires Valid()
      modifies this`wsUp
      ensures Valid() && Shared() == Next(font, old(Shared()), SessionSent(ok))
    {
      wsUp := ok;
    }

    method EndSession()
      requires Valid()
      modifies this`wsUp, this`micActive
      ensures Valid() && Shared() == Next(font, old(Shared()), Disconnect)
    {
      wsUp := false;
      micActive := false;
    }

    method TakeInterruptRequest()
      requires Valid()
      modifies this`intReq, tracker, audio, display
      ensures Valid() && Shared() == Next(font, old(Shared()), TakeInterrupt)
    {
      hide D.FlushTyping, StopPlayback, Inv;
      if intReq {
        intReq := false;
        var flush := tracker.Finalize();
        if flush {
          display.Flush();
        }
        audio.StopPlayback();
      }
    }

    /** The recognition result starts a round. */
    method HandleAsrResult(text: string)
      requires Valid()
      modifies this`micActive, tracker, audio, display, audioIn
      ensures Valid() && Shared() == OnAsrResult(font, old(Shared()), text)
    {
      hide D.AddUserLine, StopPlayback, StopListening, Inv, RT.Step;
      var action := tracker.OnAsrResult();
      if action.stopPlayback {
        audio.StopPlayback();
      }
      if action.pauseMic {
        MicOff();
      }
      display.AddUser(text);
    }

    method HandleDelta(text: string, now: u32)
      requires Valid()
      modifies tracker, display
      ensures Valid() && Shared() == OnDelta(font, old(Shared()), text, now)
    {
      hide D.AppendDelta, Inv;
      var accept, first := tracker.OnAssistantDelta(now);
      if accept {
        display.AppendReplyDelta(text);
      }
    }

    method HandleAudioStart(rate: Option<u32>)
      requires Valid()
      modifies tracker, audio
      ensures Valid() && Shared() == OnAudioStart(old(Shared()), rate)
    {
      hide BeginStream, Inv;
      var accept := tracker.OnVoiceAudioStart();
      if accept {
        audio.BeginStream(if rate.Some? then rate.value else DEFAULT_STREAM_INPUT_RATE);
      }
    }

    /** Returns the latency to report, if this chunk is the one that reports it. */
    method HandleAudioChunk(data: string, now: u32) returns (report: Option<u32>)
      requires Valid()
      modifies tracker, audio, audio.ring
      ensures Valid() && Shared() == OnAudioChunk(old(Shared()), data, now)
      ensures report == RT.Latency(old(tracker.State()), now)
    {
      hide Resampler.Feed, SampleBytes, BytesSamples, Base64.Decoded, Utf8.Encode, Inv;
      var accept, stat := tracker.OnAudioChunk(now);
      report := stat;
      if accept {
        var pcm := Base64.Decode(Utf8.Encode(data), []);
        assert pcm == Pcm(data);
        if pcm != [] {
          var _ := audio.Feed(pcm);
        }
      }
    }

    method HandleAudioDone()
      requires Valid()
      modifies tracker, audio
      ensures Valid() && Shared() == OnAudioDone(old(Shared()))
    {
      hide FinishStream, Inv;
      var finish := tracker.OnAudioDone();
      if finish {
        audio.FinishStream();
      }
    }

    /** Whatever the tracker says, the full text goes to the subtitles. */
    method HandleCompleted(text: string)
      requires Valid()
      modifies tracker, display
      ensures Valid() && Shared() == OnCompleted(font, old(Shared()), text)
    {
      hide D.SetFullText, Inv;
      var needFallback := tracker.OnCompleted();
      display.SetReplyFullText(text);
    }

    method FinalizeRound()
      requires Valid()
      modifies tracker, display
      ensures Valid() && Shared() == CloseRound(font, old(Shared()))
    {
      hide D.FlushTyping, Inv;
      var flush := tracker.Finalize();
      if flush {
        display.Flush();
      }
    }

    method ResumeMicOnError(starts: bool)
      requires Valid()
      modifies this`micActive, tracker, audioIn
      ensures Valid() && Shared() == ResumeMic(old(Shared()), starts)
    {
      hide Inv;
      var start := tracker.ResumeMic();
      if start {
        var _ := audioIn.Start(starts);
        micActive := true;
      }
    }

    method HandleAssistantError(starts: bool)
      requires Valid()
      modifies this`micActive, tracker, display, audioIn
      ensures Valid() && Shared() == ResumeMic(CloseRound(font, old(Shared())), starts)
    {
      hide Inv, CloseRound, ResumeMic;
      FinalizeRound();
      ResumeMicOnError(starts);
    }

    method HandleAudioEvent(ev: M.ServerEvent, now: u32, sendOk: bool, starts: bool) returns (down: bool)
      requires Valid() && (ev.AudioStart? || ev.AudioChunk? || ev.AudioDone?)
      modifies tracker, audio, audio.ring
      ensures Valid() && Shared() == Handle(font, old(Shared()), ev, now, starts)
      ensures down <==> ev.AudioChunk? && RT.Latency(old(tracker.State()), now).Some? && !sendOk
    {
      hide Inv, OnAudioStart, OnAudioChunk, OnAudioDone, RT.Latency, RT.Step;
      down := false;
      if ev.AudioStart? {
        HandleAudioStart(ev.rate);
      } else if ev.AudioChunk? {
        var report := HandleAudioChunk(ev.data, now);
        down := report.Some? && !sendOk;
      } else {
        HandleAudioDone();
      }
    }

    method HandleTextEvent(ev: M.ServerEvent, now: u32, ghost starts: bool)
      requires Valid() && (ev.AssistantDelta? || ev.AssistantCompleted? || ev.InterruptAck?)
      modifies tracker, display
      ensures Valid() && Shared() == Handle(font, old(Shared()), ev, now, starts)
    {
      hide Inv, OnDelta, OnCompleted, CloseRound, RT.Step;
      if ev.AssistantDelta? {
        HandleDelta(ev.text, now);
      } else if ev.AssistantCompleted? {
        HandleCompleted(ev.text);
      } else {
        FinalizeRound();
      }
    }

    /**
     * `handle_server_event`: true when the connection turned out to be down, which only sending
     * a latency report can find out.
     */
    method HandleServerEvent(ev: M.ServerEvent, now: u32, sendOk: bool, starts: bool) returns (down: bool)
      requires Valid()
      modifies this`micActive, this`lastVadMs, tracker, audio, audio.ring, display, audioIn
      ensures Valid() && Shared() == Handle(font, old(Shared()), ev, now, starts)
      ensures down <==> ev.AudioChunk? && RT.Latency(old(tracker.State()), now).Some? && !sendOk
    {
      hide Inv, OnAsrResult, OnDelta, OnAudioStart, OnAudioChunk, OnAudioDone, OnCompleted, CloseRound, ResumeMic,
           RT.Latency, RT.Step;
      down := false;
      match ev
      case VadSpeaking(speaking) =>
        if speaking {
          lastVadMs := now;
        }
      case AsrResult(text) => HandleAsrResult(text);
      case AudioStart(_) | AudioChunk(_) | AudioDone => down := HandleAudioEvent(ev, now, sendOk, starts);
      case AssistantDelta(_) | AssistantCompleted(_) | InterruptAck => HandleTextEvent(ev, now, starts);
      case AssistantError(_) =>
        HandleAssistantError(starts);
      case Error(_) => ResumeMicOnError(starts);
      case _ =>
    }

    // ---------- main loop ----------

    method PumpAudio(idle: bool, startOk: bool, slot: array<byte>) returns (pumped: bool)
      requires Valid() && slot != audio.ring
      modifies audio, slot
      ensures Valid()
      ensures var env := TickEnv(idle, slot.Length, startOk);
              && Shared() == Next(font, old(Shared()), Pump(env))
              && pumped == Tick(old(audio.State()), env).started
    {
      hide Inv, Tick;
      pumped := audio.Tick(idle, startOk, slot);
    }

    method TypeSubtitles(now: u32)
      requires Valid()
      modifies display
      ensures Valid() && Shared() == Next(font, old(Shared()), TypeTick(now))
    {
      hide Inv, D.Tick;
      display.TypeTick(now);
    }

    method MicOn(now: u32, starts: bool)
      requires Valid()
      modifies this`micActive, this`state, this`listenStarted, tracker, display, audioIn
      ensures Valid() && Shared() == StartListening(old(Shared()), now, starts)
    {
      hide Inv, RT.Step;
      micActive := true;
      tracker.StartMic();
      var _ := audioIn.Start(starts);
      listenStarted := now;
      state := Listening;
      display.SetState(D.Listening);
    }

    method MicOff()
      requires Valid()
      modifies this`micActive, tracker, audioIn
      ensures Valid() && Shared() == StopListening(old(Shared()))
    {
      hide Inv, RT.Step;
      micActive := false;
      tracker.PauseMic();
      audioIn.Stop();
    }

    method ToIdle(now: u32)
      requires Valid()
      modifies this`state, this`cooldownUntil, display
      ensures Valid() && Shared() == GoIdle(old(Shared()), now)
    {
      hide Inv;
      state := Idle;
      cooldownUntil := (now + LISTEN_COOLDOWN_MS) % 0x1_0000_0000;
      display.SetState(D.Idle);
    }

    method ToPlaying()
      requires Valid()
      modifies this`state, this`quietSince, display
      ensures Valid() && Shared() == GoPlaying(old(Shared()))
    {
      hide Inv;
      state := Playing;
      quietSince := None;
      display.SetState(D.Playing);
    }

    method PollIdle(now: u32, starts: bool)
      requires Valid()
      modifies this`micActive, this`state, this`listenStarted, tracker, display, audioIn
      ensures Valid() && Shared() == Next(font, old(Shared()), IdlePoll(now, starts))
    {
      hide Inv, StartListening;
      if state.Idle? && wsUp && now > 5000 && (now - cooldownUntil) % 0x1_0000_0000 < HALF_RANGE {
        MicOn(now, starts);
      }
    }

    /** `linkSeen` was read before the wait for the button to settle. */
    method TalkPressedWhenIdle(now: u32, linkSeen: bool, starts: bool)
      requires Valid()
      modifies this`micActive, this`state, this`listenStarted, tracker, display, audioIn
      ensures Valid() && Shared() == Next(font, old(Shared()), TalkWhenIdle(now, linkSeen, starts))
    {
      hide Inv, StartListening;
      if linkSeen {
        MicOn(now, starts);
      }
    }

    /** Capture that has stopped delivering is restarted while the microphone is on. */
    method RestartDeadCapture(starts: bool)
      requires Valid()
      modifies audioIn
      ensures Valid() && Shared() == Next(font, old(Shared()), RestartCapture(starts))
    {
      hide Inv;
      if micActive {
        audioIn.Stop();
        var _ := audioIn.Start(starts);
      }
    }

    method CheckPlayback()
      requires Valid()
      modifies this`micActive, this`state, this`quietSince, tracker, display, audioIn
      ensures Valid() && Shared() == Next(font, old(Shared()), PlaybackCheck)
    {
      hide Inv, StopListening, GoPlaying;
      var n := audio.Buffered();
      if n > 0 {
        MicOff();
        ToPlaying();
      }
    }

    method ExitListening(now: u32)
      requires Valid()
      modifies this`micActive, this`state, this`cooldownUntil, tracker, display, audioIn
      ensures Valid() && Shared() == Next(font, old(Shared()), ManualExit(now))
    {
      hide Inv, D.FlushTyping, StopListening, GoIdle;
      MicOff();
      display.Flush();
      ToIdle(now);
    }

    method CheckTimeout(now: u32)
      requires Valid()
      modifies this`micActive, this`state, this`cooldownUntil, tracker, display, audioIn
      ensures Valid() && Shared() == Next(font, old(Shared()), TimeoutCheck(now))
    {
      hide Inv, StopListening, GoIdle;
      var sinceVad := if lastVadMs == 0 then 0xFFFF_FFFF else (now - lastVadMs) % 0x1_0000_0000;
      if sinceVad > LISTEN_TIMEOUT_MS && (now - listenStarted) % 0x1_0000_0000 > LISTEN_TIMEOUT_MS {
        MicOff();
        ToIdle(now);
      }
    }

    method AskForInterrupt()
      requires Valid()
      modifies this`intReq, display
      ensures Valid() && Shared() == Next(font, old(Shared()), RequestInterrupt)
    {
      hide Inv, D.FlushTyping;
      intReq := true;
      display.Flush();
    }

    method ListenAfterInterrupt(now: u32, starts: bool)
      requires Valid()
      modifies this`micActive, this`state, this`listenStarted, tracker, display, audioIn
      ensures Valid() && Shared() == Next(font, old(Shared()), ResumeAfterInterrupt(now, starts))
    {
      hide Inv, StartListening;
      MicOn(now, starts);
    }

    method CheckDrained(now: u32, starts: bool)
      requires Valid()
      modifies this`micActive, this`state, this`listenStarted, this`quietSince, tracker, display, audioIn
      ensures Valid() && Shared() == Next(font, old(Shared()), DrainCheck(now, starts))
    {
      hide Inv, StartListening;
      var active := audio.IsActive();
      if active {
        quietSince := None;
      } else if quietSince.None? {
        quietSince := Some(now);
      } else if (now - quietSince.value) % 0x1_0000_0000 > RESUME_LISTEN_SILENCE_MS {
        MicOn(now, starts);
      }
    }

    method ChangeVolume(v: int)
      requires Valid()
      modifies audio`volume
      ensures Valid() && Shared() == Next(font, old(Shared()), Volume(v))
    {
      hide Inv;
      audio.SetVolume(v);
    }

    /** The tone that confirms a volume change, with what was played of it. */
    method ConfirmVolume(n: nat, wave: nat -> i16, slots: seq<nat>, startOk: seq<bool>) returns (played: seq<byte>)
      requires Valid() && |slots| == |startOk| == n
      modifies audio`stream
      ensures Valid()
      ensures Shared() == Next(font, old(Shared()), Beep(if audio.stream.Some? then audio.stream.value.pushed else []))
      ensures old(audio.xfer).Some? ==> played == [] && Shared() == old(Shared())
      ensures exists k :: 0 <= k <= n && played == AO.ToneWords(wave, 0, k, audio.volume)
      ensures old(audio.xfer).None? && (forall r :: 0 <= r < n ==> slots[r] >= SAMPLE_BYTES && startOk[r])
              ==> played == AO.ToneWords(wave, 0, n, audio.volume)
    {
      hide Inv, AO.ToneWords;
      played := audio.PlayTone(n, wave, slots, startOk);
    }
  }
}
