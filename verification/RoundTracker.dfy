/**
 * The round guard of src/voice_client.rs: a handful of flags updated in place, and the history
 * of events they stand for.
 */
module RoundTracker {
  import opened Bytes
  import opened Options

  datatype TrackerState = TrackerState(
    roundActive: bool, roundFinalized: bool, receivedAudio: bool, voiceAudioOn: bool,
    micActive: bool, firstTokenMs: u32, statSent: bool)

  const NEW: TrackerState := TrackerState(false, false, false, false, false, 0, false)

  datatype Event =
    | Reset
    | AsrResult
    | Delta(now: u32)
    | AudioStart
    | AudioChunk(now: u32)
    | AudioDone
    | Completed
    | FinalizePartial
    | MicStart
    | MicPause
    | ResumeMicOnError

  datatype AsrResultAction = AsrResultAction(stopPlayback: bool, pauseMic: bool)

  function SaturatingSub(a: u32, b: u32): u32 {
    if a < b then 0 else a - b
  }

  // ---------- steps and outputs ----------

  function Step(s: TrackerState, e: Event): TrackerState {
    match e
    case Reset => NEW.(micActive := s.micActive)
    case AsrResult => NEW
    case Delta(now) =>
      if s.roundFinalized || s.roundActive then s else s.(roundActive := true, firstTokenMs := now)
    case AudioStart =>
      if s.roundFinalized then s else s.(receivedAudio := true, voiceAudioOn := true)
    case AudioChunk(_) =>
      if Latency(s, 0).Some? then s.(statSent := true) else s
    case AudioDone => s.(voiceAudioOn := false)
    case Completed =>
      if s.roundFinalized then s else s.(roundFinalized := true, roundActive := false)
    case FinalizePartial => s.(roundFinalized := true, roundActive := false)
    case MicStart => s.(micActive := true)
    case MicPause => s.(micActive := false)
    case ResumeMicOnError => s.(micActive := true)
  }

  function Action(s: TrackerState): AsrResultAction {
    AsrResultAction(s.voiceAudioOn, s.micActive)
  }

  predicate IsFirstDelta(s: TrackerState) {
    !s.roundFinalized && !s.roundActive
  }

  /** The latency a chunk at `now` reports, if it reports one. */
  function Latency(s: TrackerState, now: u32): Option<u32> {
    if !s.roundFinalized && !s.statSent && s.firstTokenMs != 0
    then Some(SaturatingSub(now, s.firstTokenMs)) else None
  }

  predicate NeedsFallback(s: TrackerState) {
    !s.roundFinalized && !s.receivedAudio
  }

  predicate NeedsFlush(s: TrackerState) {
    s.roundActive && !s.roundFinalized
  }

  class RoundTracker {
    var roundActive: bool
    var roundFinalized: bool
    var receivedAudio: bool
    var voiceAudioOn: bool
    var micActive: bool
    var llmFirstTokenMs: u32
    var statSent: bool

    ghost function State(): TrackerState
      reads this
    {
      TrackerState(roundActive, roundFinalized, receivedAudio, voiceAudioOn, micActive, llmFirstTokenMs, statSent)
    }

    constructor ()
      ensures State() == NEW
    {
      roundActive, roundFinalized, receivedAudio, voiceAudioOn := false, false, false, false;
      micActive, llmFirstTokenMs, statSent := false, 0, false;
    }

    method ResetRound()
      modifies this
      ensures State() == Step(old(State()), Reset)
    {
      roundActive, roundFinalized, receivedAudio, voiceAudioOn := false, false, false, false;
      llmFirstTokenMs, statSent := 0, false;
    }

    method StartMic()
      modifies this`micActive
      ensures State() == Step(old(State()), MicStart)
    {
      micActive := true;
    }

    method PauseMic()
      modifies this`micActive
      ensures State() == Step(old(State()), MicPause)
    {
      micActive := false;
    }

    method OnAsrResult() returns (action: AsrResultAction)
      modifies this
      ensures State() == Step(old(State()), AsrResult)
      ensures action == Action(old(State()))
    {
      action := AsrResultAction(voiceAudioOn, micActive);
      micActive := false;
      ResetRound();
    }

    method OnAssistantDelta(now: u32) returns (accept: bool, first: bool)
      modifies this
      ensures State() == Step(old(State()), Delta(now))
      ensures accept == !old(roundFinalized) && first == IsFirstDelta(old(State()))
    {
      if roundFinalized {
        return false, false;
      }
      first := false;
      if !roundActive {
        roundActive, llmFirstTokenMs := true, now;
        first := true;
      }
      accept := true;
    }

    method OnVoiceAudioStart() returns (accept: bool)
      modifies this
      ensures State() == Step(old(State()), AudioStart)
      ensures accept == !old(roundFinalized)
    {
      if roundFinalized {
        return false;
      }
      receivedAudio, voiceAudioOn := true, true;
      return true;
    }

    method OnAudioChunk(now: u32) returns (accept: bool, report: Option<u32>)
      modifies this
      ensures State() == Step(old(State()), AudioChunk(now))
      ensures accept == !old(roundFinalized) && report == Latency(old(State()), now)
    {
      if roundFinalized {
        return false, None;
      }
      report := None;
      if !statSent && llmFirstTokenMs != 0 {
        statSent := true;
        report := Some(SaturatingSub(now, llmFirstTokenMs));
      }
      accept := true;
    }

    method OnAudioDone() returns (finish: bool)
      modifies this
      ensures State() == Step(old(State()), AudioDone)
      ensures finish == old(voiceAudioOn)
    {
      finish := voiceAudioOn;
      if voiceAudioOn {
        voiceAudioOn := false;
      }
    }

    method OnCompleted() returns (fallback: bool)
      modifies this
      ensures State() == Step(old(State()), Completed)
      ensures fallback == NeedsFallback(old(State()))
    {
      if roundFinalized {
        return false;
      }
      roundFinalized, roundActive := true, false;
      return !receivedAudio;
    }

    method Finalize() returns (flush: bool)
      modifies this
      ensures State() == Step(old(State()), FinalizePartial)
      ensures flush == NeedsFlush(old(State()))
    {
      flush := roundActive && !roundFinalized;
      roundActive, roundFinalized := false, true;
    }

    method ResumeMic() returns (start: bool)
      modifies this`micActive
      ensures State() == Step(old(State()), ResumeMicOnError)
      ensures start == !old(micActive)
    {
      if micActive {
        return false;
      }
      micActive := true;
      return true;
    }
  }

  // ---------- histories ----------

  predicate IsReset(e: Event) {
    e.Reset? || e.AsrResult?
  }

  predicate Closes(e: Event) {
    e.Completed? || e.FinalizePartial?
  }

  function Run(h: seq<Event>): TrackerState {
    if h == [] then NEW else Step(Run(h[..|h| - 1]), h[|h| - 1])
  }

  /** Where the current round begins: just after the last reset. */
  function RoundStart(h: seq<Event>): (n: nat)
    ensures n <= |h|
  {
    if h == [] then 0 else if IsReset(h[|h| - 1]) then |h| else RoundStart(h[..|h| - 1])
  }

  /** Event i belongs to the current round and came before anything closed it. */
  ghost predicate Live(h: seq<Event>, i: int) {
    && RoundStart(h) <= i < |h|
    && (forall j :: RoundStart(h) <= j < i ==> !Closes(h[j]))
  }

  ghost predicate Closed(h: seq<Event>) {
    exists i :: RoundStart(h) <= i < |h| && Closes(h[i])
  }

  ghost predicate AcceptedStart(h: seq<Event>, i: int) {
    Live(h, i) && h[i].AudioStart?
  }

  /** The voice stream is open: an accepted start with no later done. */
  ghost predicate StreamOpen(h: seq<Event>) {
    exists i :: AcceptedStart(h, i) && forall j :: i < j < |h| ==> !h[j].AudioDone?
  }

  ghost predicate FirstDelta(h: seq<Event>, i: int) {
    && Live(h, i) && h[i].Delta?
    && (forall j :: RoundStart(h) <= j < i ==> !h[j].Delta?)
  }

  /** Chunk k follows the round's first delta, which was stamped with a nonzero time. */
  ghost predicate Reports(h: seq<Event>, i: int, k: int) {
    FirstDelta(h, i) && h[i].now != 0 && i < k && Live(h, k) && h[k].AudioChunk?
  }

  ghost predicate MicOn(h: seq<Event>) {
    exists i :: 0 <= i < |h| && (h[i].MicStart? || h[i].ResumeMicOnError?)
      && forall j :: i < j < |h| ==> !h[j].MicPause? && !h[j].AsrResult?
  }

  /** Each flag says exactly what happened since the last reset. */
  ghost predicate Refines(s: TrackerState, h: seq<Event>) {
    && (s.roundFinalized <==> Closed(h))
    && (s.receivedAudio <==> exists i :: AcceptedStart(h, i))
    && (s.voiceAudioOn <==> StreamOpen(h))
    && (s.micActive <==> MicOn(h))
    && (s.roundActive <==> !Closed(h) && exists i :: FirstDelta(h, i))
    && (forall i :: FirstDelta(h, i) ==> s.firstTokenMs == h[i].now)
    && ((forall i :: !FirstDelta(h, i)) ==> s.firstTokenMs == 0)
    && (s.statSent <==> exists i, k :: Reports(h, i, k))
  }

  lemma Extend(h: seq<Event>, e: Event)
    ensures var h' := h + [e];
            && RoundStart(h') == (if IsReset(e) then |h'| else RoundStart(h))
            && Run(h') == Step(Run(h), e)
  {
    assert (h + [e])[..|h|] == h;
  }

  lemma ExtendLive(h: seq<Event>, e: Event, i: int)
    requires !IsReset(e)
    ensures 0 <= i < |h| ==> (Live(h + [e], i) <==> Live(h, i))
    ensures Live(h + [e], |h|) <==> !Closed(h)
    ensures Live(h + [e], i) ==> 0 <= i <= |h|
  {
    Extend(h, e);
  }

  lemma ExtendFirstDelta(h: seq<Event>, e: Event, i: int)
    requires !IsReset(e)
    ensures 0 <= i < |h| ==> (FirstDelta(h + [e], i) <==> FirstDelta(h, i))
    ensures FirstDelta(h + [e], |h|) <==> e.Delta? && !Closed(h) && forall j :: !FirstDelta(h, j)
    ensures FirstDelta(h + [e], i) ==> 0 <= i <= |h|
  {
    Extend(h, e);
    ExtendLive(h, e, i);
    ExtendLive(h, e, |h|);
    if e.Delta? && !Closed(h) && !FirstDelta(h + [e], |h|) {
      var j :| RoundStart(h) <= j < |h| && h[j].Delta?;
      EarliestDelta(h, j);
    }
  }

  /** In a round nothing has closed, some delta is the first one. */
  lemma {:induction false} EarliestDelta(h: seq<Event>, j: int)
    requires RoundStart(h) <= j < |h| && h[j].Delta? && !Closed(h)
    ensures exists i :: FirstDelta(h, i)
    decreases j
  {
    if k :| RoundStart(h) <= k < j && h[k].Delta? {
      EarliestDelta(h, k);
    } else {
      assert FirstDelta(h, j);
    }
  }

  lemma OneFirstDelta(h: seq<Event>, i: int, j: int)
    requires FirstDelta(h, i) && FirstDelta(h, j)
    ensures i == j
  {
  }

  lemma RefinesAfterReset(h: seq<Event>, e: Event)
    requires Refines(Run(h), h) && IsReset(e)
    ensures Refines(Run(h + [e]), h + [e])
  {
    Extend(h, e);
    MicStep(h, e);
    var h' := h + [e];
    assert forall i :: !Live(h', i);
  }

  lemma MicStep(h: seq<Event>, e: Event)
    ensures MicOn(h + [e]) <==>
      (e.MicStart? || e.ResumeMicOnError? || (MicOn(h) && !e.MicPause? && !e.AsrResult?))
  {
    var h' := h + [e];
    if MicOn(h) && !e.MicPause? && !e.AsrResult? {
      var i :| 0 <= i < |h| && (h[i].MicStart? || h[i].ResumeMicOnError?)
        && forall j :: i < j < |h| ==> !h[j].MicPause? && !h[j].AsrResult?;
      assert h'[i] == h[i];
    }
    if e.MicStart? || e.ResumeMicOnError? {
      assert h'[|h|] == e;
    }
    if MicOn(h') && !e.MicStart? && !e.ResumeMicOnError? {
      var i :| 0 <= i < |h'| && (h'[i].MicStart? || h'[i].ResumeMicOnError?)
        && forall j :: i < j < |h'| ==> !h'[j].MicPause? && !h'[j].AsrResult?;
      assert h'[|h|] == e;
      assert forall j :: i < j < |h| ==> h'[j] == h[j];
    }
  }

  lemma ClosedStep(h: seq<Event>, e: Event)
    requires !IsReset(e)
    ensures Closed(h + [e]) <==> Closed(h) || Closes(e)
  {
    Extend(h, e);
    var h' := h + [e];
    if Closed(h) {
      var i :| RoundStart(h) <= i < |h| && Closes(h[i]);
      assert h'[i] == h[i];
    }
    if Closes(e) {
      assert h'[|h|] == e;
    }
  }

  lemma StartStep(h: seq<Event>, e: Event)
    requires !IsReset(e)
    ensures (exists i :: AcceptedStart(h + [e], i)) <==>
            (exists i :: AcceptedStart(h, i)) || (e.AudioStart? && !Closed(h))
    ensures StreamOpen(h + [e]) <==>
            (StreamOpen(h) && !e.AudioDone?) || (e.AudioStart? && !Closed(h))
  {
    var h' := h + [e];
    forall i ensures AcceptedStart(h', i) <==>
      (AcceptedStart(h, i) || (i == |h| && e.AudioStart? && !Closed(h)))
    {
      Extend(h, e);
      ExtendLive(h, e, i);
      if i == |h| { assert h'[i] == e; }
    }
    if e.AudioStart? && !Closed(h) {
      assert AcceptedStart(h', |h|);
    }
    if StreamOpen(h) && !e.AudioDone? {
      var i :| AcceptedStart(h, i) && forall j :: i < j < |h| ==> !h[j].AudioDone?;
      assert AcceptedStart(h', i);
    }
    if StreamOpen(h') && !(e.AudioStart? && !Closed(h)) {
      var i :| AcceptedStart(h', i) && forall j :: i < j < |h'| ==> !h'[j].AudioDone?;
      assert AcceptedStart(h, i) && h'[|h|] == e;
      assert forall j :: i < j < |h| ==> h'[j] == h[j];
    }
    if i :| AcceptedStart(h, i) {
      assert AcceptedStart(h', i);
    }
  }

  lemma ReportStep(h: seq<Event>, e: Event)
    requires !IsReset(e)
    ensures (exists i, k :: Reports(h + [e], i, k)) <==>
            (exists i, k :: Reports(h, i, k))
            || (e.AudioChunk? && !Closed(h) && exists i :: FirstDelta(h, i) && h[i].now != 0)
  {
    var h' := h + [e];
    forall i, k ensures Reports(h', i, k) <==>
      (Reports(h, i, k) || (k == |h| && e.AudioChunk? && !Closed(h) && FirstDelta(h, i) && h[i].now != 0))
    {
      ExtendFirstDelta(h, e, i);
      ExtendLive(h, e, k);
      if k == |h| { assert h'[k] == e; }
    }
    if e.AudioChunk? && !Closed(h) && exists i :: FirstDelta(h, i) && h[i].now != 0 {
      var i :| FirstDelta(h, i) && h[i].now != 0;
      assert Reports(h', i, |h|);
    }
    if i, k :| Reports(h, i, k) {
      assert Reports(h', i, k);
    }
  }

  lemma FirstDeltaStep(h: seq<Event>, e: Event)
    requires !IsReset(e) && Refines(Run(h), h)
    ensures var h', s' := h + [e], Step(Run(h), e);
            && (s'.roundActive <==> !Closed(h') && exists i :: FirstDelta(h', i))
            && (forall i :: FirstDelta(h', i) ==> s'.firstTokenMs == h'[i].now)
            && ((forall i :: !FirstDelta(h', i)) ==> s'.firstTokenMs == 0)
  {
    var h' := h + [e];
    ClosedStep(h, e);
    forall i ensures FirstDelta(h', i) <==>
      (FirstDelta(h, i) || (i == |h| && e.Delta? && !Closed(h) && forall j :: !FirstDelta(h, j)))
    {
      ExtendFirstDelta(h, e, i);
    }
    if i :| FirstDelta(h, i) {
      assert FirstDelta(h', i);
    } else if e.Delta? && !Closed(h) {
      assert FirstDelta(h', |h|) && h'[|h|] == e;
    }
  }

  lemma NoHistory()
    ensures Refines(Run([]), [])
  {
    assert forall i :: !Live([], i);
    assert !Closed([]) && !StreamOpen([]) && !MicOn([]);
  }

  /** The flags refine the history, whatever the events. */
  lemma {:induction false} TrackerRefinesHistory(h: seq<Event>)
    ensures Refines(Run(h), h)
  {
    hide Refines, Run;
    if h == [] {
      NoHistory();
    } else {
      var g, e := h[..|h| - 1], h[|h| - 1];
      TrackerRefinesHistory(g);
      assert h == g + [e];
      if IsReset(e) {
        RefinesAfterReset(g, e);
      } else {
        RefinesStep(g, e);
      }
    }
  }

  lemma RefinesStep(g: seq<Event>, e: Event)
    requires Refines(Run(g), g) && !IsReset(e)
    ensures Refines(Run(g + [e]), g + [e])
  {
    hide Closed, StreamOpen, MicOn, FirstDelta, AcceptedStart, Reports, Run;
    Extend(g, e);
    MicStep(g, e);
    ClosedStep(g, e);
    StartStep(g, e);
    ReportStep(g, e);
    FirstDeltaStep(g, e);
    if e.AudioChunk? {
      ChunkReport(g);
    }
  }

  ghost predicate NoChunkAfter(h: seq<Event>, i: int)
    requires 0 <= i < |h|
  {
    forall k :: i < k < |h| ==> !h[k].AudioChunk?
  }

  /** A chunk reports exactly when the round is open, has a stamped first delta, and no report yet. */
  lemma ChunkReport(h: seq<Event>)
    requires Refines(Run(h), h)
    ensures Latency(Run(h), 0).Some? <==>
      !Closed(h) && (exists i :: FirstDelta(h, i) && h[i].now != 0) && !exists i, k :: Reports(h, i, k)
  {
    hide Closed, StreamOpen, MicOn, FirstDelta, AcceptedStart, Reports, Run;
  }

  // ---------- what the outputs mean ----------

  /**
   * The reported latency is the chunk's time minus the first delta's, or zero if the clock has
   * wrapped between them; and a chunk reports exactly when it is the first accepted chunk after a
   * first delta stamped with a nonzero time.
   */
  lemma LatencyMeaning(h: seq<Event>, now: u32)
    ensures Latency(Run(h), now).Some? <==>
      !Closed(h) && (exists i :: FirstDelta(h, i) && h[i].now != 0 && NoChunkAfter(h, i))
    ensures forall i :: FirstDelta(h, i) && Latency(Run(h), now).Some? ==>
      var ms := Latency(Run(h), now).value;
      (now >= h[i].now ==> h[i].now + ms == now) && (now < h[i].now ==> ms == 0)
  {
    hide Closed, Reports, Run;
    TrackerRefinesHistory(h);
    ChunkReport(h);
    if !Closed(h) {
      forall i | FirstDelta(h, i) && h[i].now != 0
        ensures (exists j, k :: Reports(h, j, k)) <==> !NoChunkAfter(h, i)
      {
        ReportsMeanChunks(h, i);
      }
    }
  }

  lemma ReportsMeanChunks(h: seq<Event>, i: int)
    requires !Closed(h) && FirstDelta(h, i) && h[i].now != 0
    ensures (exists j, k :: Reports(h, j, k)) <==> !NoChunkAfter(h, i)
  {
    if k :| i < k < |h| && h[k].AudioChunk? {
      assert Reports(h, i, k);
    } else {
      forall j, k ensures !Reports(h, j, k) {
        if FirstDelta(h, j) {
          OneFirstDelta(h, i, j);
        }
      }
    }
  }

  /** No reset among the events numbered from j up to, not including, k. */
  ghost predicate SameRound(h: seq<Event>, j: nat, k: nat) {
    j <= k <= |h| && forall i :: j <= i < k ==> !IsReset(h[i])
  }

  lemma {:induction false} SameRoundStart(h: seq<Event>, j: nat, k: nat)
    requires SameRound(h, j, k)
    ensures RoundStart(h[..j]) == RoundStart(h[..k])
    decreases k
  {
    if j < k {
      SameRoundStart(h, j, k - 1);
      assert h[..k][..k - 1] == h[..k - 1];
    }
  }

  /** Between resets at most one delta is reported as the first. */
  lemma AtMostOneFirst(h: seq<Event>, j: nat, k: nat)
    requires j < k < |h| && SameRound(h, j, k) && h[j].Delta? && h[k].Delta?
    ensures !(IsFirstDelta(Run(h[..j])) && IsFirstDelta(Run(h[..k])))
  {
    TrackerRefinesHistory(h[..j]);
    TrackerRefinesHistory(h[..k]);
    SameRoundStart(h, j, k);
    if !Closed(h[..k]) {
      assert h[..k][j] == h[j];
      EarliestDelta(h[..k], j);
    }
  }

  /** A first delta stays the first as the round goes on. */
  lemma FirstDeltaStays(h: seq<Event>, j: nat, k: nat, i: int)
    requires SameRound(h, j, k) && FirstDelta(h[..j], i)
    ensures FirstDelta(h[..k], i) && h[..k][i] == h[..j][i]
  {
    SameRoundStart(h, j, k);
    assert forall m :: 0 <= m <= i ==> h[..k][m] == h[m] && h[..j][m] == h[m];
  }

  /** Between resets at most one latency is reported. */
  lemma AtMostOneLatency(h: seq<Event>, j: nat, k: nat)
    requires j < k < |h| && SameRound(h, j, k) && h[j].AudioChunk? && h[k].AudioChunk?
    ensures Latency(Run(h[..j]), h[j].now).None? || Latency(Run(h[..k]), h[k].now).None?
  {
    hide Run, Latency, RoundStart, Closed;
    LatencyMeaning(h[..j], h[j].now);
    LatencyMeaning(h[..k], h[k].now);
    assert h[..k][j].AudioChunk?;
    forall i | FirstDelta(h[..j], i)
      ensures FirstDelta(h[..k], i) && h[..k][i] == h[..j][i]
    {
      FirstDeltaStays(h, j, k, i);
    }
    forall i, m | FirstDelta(h[..k], i) && FirstDelta(h[..k], m)
      ensures i == m
    {
      OneFirstDelta(h[..k], i, m);
    }
  }

  /** Between resets at most one fallback is requested, and none once a start was accepted. */
  lemma AtMostOneFallback(h: seq<Event>, j: nat, k: nat)
    requires j < k < |h| && SameRound(h, j, k) && h[j].Completed? && h[k].Completed?
    ensures !NeedsFallback(Run(h[..k]))
    ensures NeedsFallback(Run(h[..j])) ==> forall i :: !AcceptedStart(h[..j], i)
  {
    TrackerRefinesHistory(h[..j]);
    TrackerRefinesHistory(h[..k]);
    SameRoundStart(h, j, k);
    assert h[..k][j] == h[j] && Closes(h[j]);
  }

  /** `asr.result` asks for playback to stop exactly when an accepted start has no later done. */
  lemma StopPlaybackMeaning(h: seq<Event>)
    ensures Action(Run(h)).stopPlayback <==> StreamOpen(h)
    ensures Action(Run(h)).pauseMic <==> MicOn(h)
  {
    TrackerRefinesHistory(h);
  }

  /**
   * What the tracker answers: a delta is the first in an open round without one; closing the round
   * early flushes an open round with one; completion falls back in an open round without speech.
   */
  lemma AnswersMean(h: seq<Event>)
    ensures IsFirstDelta(Run(h)) <==> !Closed(h) && forall i :: !FirstDelta(h, i)
    ensures NeedsFlush(Run(h)) <==> !Closed(h) && exists i :: FirstDelta(h, i)
    ensures NeedsFallback(Run(h)) <==> !Closed(h) && forall i :: !AcceptedStart(h, i)
  {
    hide Closed, FirstDelta, AcceptedStart, Run;
    TrackerRefinesHistory(h);
  }

  /** Once closed, a round accepts no delta, no audio start and no chunk until the next reset. */
  lemma ClosedStaysClosed(s: TrackerState, e: Event)
    requires s.roundFinalized && !IsReset(e)
    ensures Step(s, e).roundFinalized
    ensures Step(s, e).receivedAudio == s.receivedAudio
    ensures Step(s, e).voiceAudioOn ==> s.voiceAudioOn
  {
  }
}
