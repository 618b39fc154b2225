/**
 * The audio output of src/audio_output.rs as a state and pure steps: the ring as a queue of
 * bytes, the stream flags, and the three optional hardware handles.
 */
module AudioSpec {
  import opened Bytes
  import opened Options
  import opened Resampler
  import opened VolumeCurve

  const PLAY_WATERMARK_BYTES: nat := 32 * 1024
  const SAMPLE_BYTES: nat := 4

  /** The I2S transmitter. */
  datatype Tx = Tx(id: nat)

  /** The DMA stream buffer, with the bytes pushed into it since it was last made fresh. */
  datatype Stream = Stream(id: nat, pushed: seq<byte>)

  /** A transfer in flight owns both. */
  datatype Transfer = Transfer(tx: Tx, stream: Stream)

  datatype AudioState = AudioState(
    queue: seq<byte>, cap: nat,
    streaming: bool, started: bool, done: bool,
    inRate: nat, volume: Volume, carry: Carry,
    tx: Option<Tx>, stream: Option<Stream>, xfer: Option<Transfer>)
  {
    function Space(): int {
      cap - 1 - |queue|
    }

    predicate IsActive() {
      streaming || |queue| > 0
    }
  }

  function Initial(cap: nat, tx: Tx, stream: Stream): AudioState {
    AudioState([], cap, false, false, false, 24000, 80, START, Some(tx), Some(stream), None)
  }

  /** What the hardware does during one pump call: DMA ran dry, bytes offered, start accepted. */
  datatype TickEnv = TickEnv(idle: bool, slot: nat, startOk: bool)

  /** State after a pump call, whether a transfer was started, and the slice written, if any. */
  datatype Ticked = Ticked(state: AudioState, started: bool, pushed: seq<byte>)

  function Reclaim(s: AudioState): AudioState {
    match s.xfer
    case None => s
    case Some(t) => s.(tx := Some(t.tx), stream := Some(t.stream), xfer := None)
  }

  function AcceptedRate(rate: nat): (r: nat)
    ensures 8000 <= r <= 48000
  {
    if 8000 <= rate <= 48000 then rate else 24000
  }

  function BeginStream(s: AudioState, rate: nat): AudioState {
    Reclaim(s).(inRate := AcceptedRate(rate), queue := [], carry := START,
                done := false, started := false, streaming := true)
  }

  function FinishStream(s: AudioState): AudioState {
    s.(done := true)
  }

  function StopPlayback(s: AudioState): AudioState {
    Reclaim(s).(streaming := false, started := false, done := false, queue := [], carry := START)
  }

  function SetVolume(s: AudioState, v: int): AudioState {
    s.(volume := if v < 0 then 0 else if v > 100 then 100 else v)
  }

  /** A tone leaves its last slice in the buffer; without the handles at hand it does nothing. */
  function AfterTone(s: AudioState, left: seq<byte>): AudioState {
    if s.tx.None? || s.stream.None? then s else s.(stream := Some(Stream(s.stream.value.id, left)))
  }

  // ---------- feeding ----------

  function Min(a: nat, b: nat): nat {
    if a < b then a else b
  }

  function FeedBytes(s: AudioState, mono: seq<byte>): AudioState
    requires s.inRate > 0 && |s.queue| < s.cap
  {
    if mono == [] || !s.streaming then s
    else if s.inRate == OUT_RATE then
      s.(queue := s.queue + mono[..Min(|mono|, s.Space())])
    else
      var f := Resampler.Feed(BytesSamples(mono), s.carry, s.inRate, s.Space() / 2);
      s.(queue := s.queue + SampleBytes(f.out), carry := f.carry)
  }

  /** The value `feed` reports, which counts consumed input when resampling. */
  function FeedReturn(s: AudioState, mono: seq<byte>): nat
    requires |s.queue| < s.cap
  {
    if mono == [] || !s.streaming then 0
    else if s.inRate == OUT_RATE then Min(|mono|, s.Space())
    else |mono| / 2 * 2
  }

  // ---------- draining ----------

  /** How many samples a slice of `slot` bytes takes from the queue. */
  function Popped(queue: seq<byte>, slot: nat): (n: nat)
    ensures 2 * n <= |queue| && SAMPLE_BYTES * n <= slot
  {
    Min(|queue| / 2, slot / SAMPLE_BYTES)
  }

  /** Samples as volume-scaled 32-bit words. */
  function Words(xs: seq<i16>, volume: Volume): (w: seq<byte>)
    ensures |w| == SAMPLE_BYTES * |xs|
  {
    if xs == [] then [] else I32Bytes(Apply(xs[0], volume)) + Words(xs[1..], volume)
  }

  function Zeros(n: nat): (z: seq<byte>)
    ensures |z| == n
  {
    seq(n, _ => 0)
  }

  /** The slice a push writes: the popped samples in order, then silence. */
  function Slice(queue: seq<byte>, volume: Volume, slot: nat): (p: seq<byte>)
    ensures |p| == slot
  {
    var n := Popped(queue, slot);
    Words(BytesSamples(queue[..2 * n]), volume) + Zeros(slot - SAMPLE_BYTES * n)
  }

  function AfterPop(queue: seq<byte>, slot: nat): seq<byte> {
    queue[2 * Popped(queue, slot)..]
  }

  /** Feeding of a running transfer goes on until the server is done and the ring is empty. */
  predicate KeepsPushing(s: AudioState) {
    s.streaming && !(s.done && s.queue == [])
  }

  function PushInFlight(s: AudioState, slot: nat): (t: Ticked)
    requires s.xfer.Some?
    ensures !t.started
  {
    if KeepsPushing(s) && slot > 0 then
      var p := Slice(s.queue, s.volume, slot);
      var t := s.xfer.value;
      var st := t.stream;
      Ticked(s.(queue := AfterPop(s.queue, slot),
                xfer := Some(t.(stream := st.(pushed := st.pushed + p)))), false, p)
    else
      Ticked(s, false, [])
  }

  /** A fresh buffer filled once and handed to the DMA, or kept if the DMA refuses it. */
  function Launch(s: AudioState, slot: nat, startOk: bool): Ticked
    requires s.tx.Some? && s.stream.Some?
  {
    var p := Slice(s.queue, s.volume, slot);
    var st := Stream(s.stream.value.id, p);
    var s' := s.(queue := AfterPop(s.queue, slot));
    if startOk then
      Ticked(s'.(tx := None, stream := None, xfer := Some(Transfer(s.tx.value, st))), true, p)
    else
      Ticked(s'.(stream := Some(st)), false, p)
  }

  function Start(s: AudioState, slot: nat, startOk: bool): Ticked {
    if !s.streaming then Ticked(s, false, [])
    else
      var s := s.(started := s.started || s.done || |s.queue| >= PLAY_WATERMARK_BYTES);
      if !s.started || s.tx.None? || s.stream.None? then Ticked(s, false, []) else Launch(s, slot, startOk)
  }

  predicate PlayedOut(s: AudioState) {
    s.xfer.Some? && s.streaming && s.done && s.queue == []
  }

  function Tick(s: AudioState, env: TickEnv): Ticked {
    if s.xfer.Some? && !env.idle then PushInFlight(s, env.slot)
    else if PlayedOut(s) then
      Ticked(Reclaim(s).(started := false, streaming := false), false, [])
    else Start(Reclaim(s), env.slot, env.startOk)
  }

  // ---------- the handle and flag invariant ----------

  /**
   * The transmitter and the stream buffer are held together, or by a transfer in flight;
   * a transfer in flight means a started stream; and between streams there is nothing queued.
   */
  predicate Inv(s: AudioState) {
    && s.cap >= 2 && s.cap % 2 == 0 && |s.queue| < s.cap
    && 8000 <= s.inRate <= 48000
    && ((s.tx.Some? && s.stream.Some? && s.xfer.None?) || (s.tx.None? && s.stream.None? && s.xfer.Some?))
    && (s.xfer.Some? ==> s.streaming && s.started)
    && (!s.streaming ==> !s.started && s.queue == [])
    && (s.inRate != OUT_RATE ==> |s.queue| % 2 == 0)
  }

  /** The identities of the two handles, wherever they are. */
  function Handles(s: AudioState): (Tx, nat)
    requires Inv(s)
  {
    match s.xfer
    case Some(t) => (t.tx, t.stream.id)
    case None => (s.tx.value, s.stream.value.id)
  }

  lemma AfterPopSize(queue: seq<byte>, slot: nat)
    ensures |AfterPop(queue, slot)| <= |queue|
    ensures |AfterPop(queue, slot)| % 2 == |queue| % 2
  {
  }

  lemma TickKeepsInv(s: AudioState, env: TickEnv)
    requires Inv(s)
    ensures Inv(Tick(s, env).state)
    ensures Handles(Tick(s, env).state) == Handles(s)
  {
    hide Slice, AfterPop;
    AfterPopSize(s.queue, env.slot);
  }

  lemma FeedKeepsInv(s: AudioState, mono: seq<byte>)
    requires Inv(s)
    ensures Inv(FeedBytes(s, mono))
    ensures Handles(FeedBytes(s, mono)) == Handles(s)
  {
    hide Resampler.Feed, SampleBytes, BytesSamples, AcceptedRate;
    if mono != [] && s.streaming {
      if s.inRate == OUT_RATE {
        DirectKeepsInv(s, mono);
      } else {
        ResampledKeepsInv(s, mono);
      }
    }
  }

  lemma DirectKeepsInv(s: AudioState, mono: seq<byte>)
    requires Inv(s) && mono != [] && s.streaming && s.inRate == OUT_RATE
    ensures Inv(FeedBytes(s, mono))
    ensures Handles(FeedBytes(s, mono)) == Handles(s)
  {
    hide Resampler.Feed;
  }

  lemma ResampledKeepsInv(s: AudioState, mono: seq<byte>)
    requires Inv(s) && mono != [] && s.streaming && s.inRate != OUT_RATE
    ensures Inv(FeedBytes(s, mono))
    ensures Handles(FeedBytes(s, mono)) == Handles(s)
  {
    hide Resampler.Feed, SampleBytes, BytesSamples;
    var room := s.Space() / 2;
    var out := Resampler.Feed(BytesSamples(mono), s.carry, s.inRate, room).out;
    FeedFits(BytesSamples(mono), s.carry, s.inRate, room);
    assert |SampleBytes(out)| == 2 * |out|;
    assert FeedBytes(s, mono).queue == s.queue + SampleBytes(out);
  }

  lemma {:induction false} FeedFits(xs: seq<i16>, c: Carry, rate: nat, room: nat)
    requires rate > 0
    ensures |Resampler.Feed(xs, c, rate, room).out| <= room
    decreases |xs|
  {
    if xs != [] {
      var o := Emit(c.prev, xs[0], c.frac, rate, room);
      FeedFits(xs[1..], Carry(NextFrac(StopPhase(c.frac, rate, room)), xs[0]), rate, room - |o|);
    }
  }

  lemma HandlesTogether(s: AudioState)
    requires Inv(s)
    ensures s.tx.Some? <==> s.stream.Some?
    ensures s.xfer.Some? <==> s.tx.None?
    ensures s.cap % 2 == 0
  {
  }

  lemma ToneKeepsInv(s: AudioState, left: seq<byte>)
    requires Inv(s)
    ensures Inv(AfterTone(s, left)) && Handles(AfterTone(s, left)) == Handles(s)
    ensures s.streaming && s.xfer.Some? ==> AfterTone(s, left) == s
  {
  }

  lemma ControlsKeepInv(s: AudioState, rate: nat, v: int)
    requires Inv(s)
    ensures Inv(BeginStream(s, rate)) && Handles(BeginStream(s, rate)) == Handles(s)
    ensures Inv(FinishStream(s)) && Handles(FinishStream(s)) == Handles(s)
    ensures Inv(StopPlayback(s)) && Handles(StopPlayback(s)) == Handles(s)
    ensures Inv(SetVolume(s, v)) && Handles(SetVolume(s, v)) == Handles(s)
  {
  }
}
