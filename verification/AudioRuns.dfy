/**
 * Whole runs of the audio output: what the DMA is given is, in order and with nothing lost or
 * invented, what the server sent; and a finished stream drains.
 */
module AudioRuns {
  import opened Bytes
  import opened Options
  import opened Resampler
  import opened VolumeCurve
  import opened AudioSpec

  datatype Op =
    | Begin(rate: nat)
    | Finish
    | Stop
    | FeedChunk(mono: seq<byte>)
    | Pump(env: TickEnv)
    | Volume(v: int)
    | Tone(left: seq<byte>)

  /**
   * One slice handed to the DMA: how many bytes were queued, how many samples it carries, at which
   * volume, and its bytes.
   */
  datatype Push = Push(queued: nat, samples: nat, volume: Volume, bytes: seq<byte>)

  /**
   * A state with the history of its current stream: the samples and bytes the server sent,
   * whether the ring ever refused some, the bytes that entered the ring, how many samples left
   * it, and the slices written to the DMA.
   */
  datatype Trace = Trace(
    s: AudioState, input: seq<i16>, sent: seq<byte>, refused: bool,
    accepted: seq<byte>, popped: nat, pushes: seq<Push>)

  function Fresh(s: AudioState): Trace {
    Trace(s, [], [], false, [], 0, [])
  }

  function Step(tr: Trace, op: Op): Trace
    requires Inv(tr.s)
  {
    match op
    case Begin(rate) => Fresh(BeginStream(tr.s, rate))
    case Stop => Fresh(StopPlayback(tr.s))
    case Finish => tr.(s := FinishStream(tr.s))
    case Volume(v) => tr.(s := SetVolume(tr.s, v))
    case Tone(left) => tr.(s := AfterTone(tr.s, left))
    case FeedChunk(mono) => FeedStep(tr, mono)
    case Pump(env) => PumpStep(tr, env)
  }

  function FeedStep(tr: Trace, mono: seq<byte>): Trace
    requires Inv(tr.s)
  {
    var s' := FeedBytes(tr.s, mono);
    if mono == [] || !tr.s.streaming then tr
    else if tr.s.inRate == OUT_RATE then
      var n := FeedReturn(tr.s, mono);
      tr.(s := s', sent := tr.sent + mono, refused := tr.refused || n < |mono|,
          accepted := tr.accepted + mono[..n])
    else
      var xs := BytesSamples(mono);
      var f := Resampler.Feed(xs, tr.s.carry, tr.s.inRate, tr.s.Space() / 2);
      tr.(s := s', input := tr.input + xs, refused := tr.refused || f.full,
          accepted := tr.accepted + SampleBytes(f.out))
  }

  function PumpStep(tr: Trace, env: TickEnv): Trace {
    var t := Tick(tr.s, env);
    var tr' := tr.(s := t.state);
    if t.pushed == [] then tr'
    else
      PumpShrinks(tr.s, env);
      var n := (|tr.s.queue| - |t.state.queue|) / 2;
      tr'.(popped := tr.popped + n, pushes := tr.pushes + [Push(|tr.s.queue|, n, tr.s.volume, t.pushed)])
  }

  lemma PumpShrinks(s: AudioState, env: TickEnv)
    ensures |Tick(s, env).state.queue| <= |s.queue|
  {
    hide Slice;
  }

  /** A slice takes all the whole samples that are queued, or as many as it has whole words. */
  predicate TakesAll(p: Push) {
    p.samples == if p.queued / 2 <= |p.bytes| / SAMPLE_BYTES then p.queued / 2 else |p.bytes| / SAMPLE_BYTES
  }

  ghost predicate AllTakeAll(pushes: seq<Push>) {
    forall i :: 0 <= i < |pushes| ==> TakesAll(pushes[i])
  }

  /** The slices carry exactly these samples, in order, each followed only by silence. */
  ghost predicate Delivers(pushes: seq<Push>, ys: seq<i16>)
    decreases |pushes|
  {
    if pushes == [] then ys == [] else
      var p := pushes[|pushes| - 1];
      && p.samples <= |ys|
      && SAMPLE_BYTES * p.samples <= |p.bytes|
      && p.bytes == Words(ys[|ys| - p.samples..], p.volume) + Zeros(|p.bytes| - SAMPLE_BYTES * p.samples)
      && Delivers(pushes[..|pushes| - 1], ys[..|ys| - p.samples])
  }

  lemma FirstWord(xs: seq<i16>, volume: Volume)
    requires xs != []
    ensures Words(xs, volume) == I32Bytes(Apply(xs[0], volume)) + Words(xs[1..], volume)
  {
  }

  /** A reader of the DMA words gets each sample scaled by the volume curve. */
  lemma {:induction false} WordsReadBack(xs: seq<i16>, volume: Volume, k: nat)
    requires k < |xs|
    ensures var w := Words(xs, volume);
            ToI32(w[4 * k], w[4 * k + 1], w[4 * k + 2], w[4 * k + 3]) == Apply(xs[k], volume)
  {
    hide I32Bytes, Apply, ToI32, Words;
    FirstWord(xs, volume);
    if k == 0 {
      I32RoundTrip(Apply(xs[0], volume));
    } else {
      WordsReadBack(xs[1..], volume, k - 1);
      var w, t := Words(xs, volume), Words(xs[1..], volume);
      var j := 4 * (k - 1);
      assert w[4..][j] == t[j] && w[4..][j + 1] == t[j + 1] && w[4..][j + 2] == t[j + 2] && w[4..][j + 3] == t[j + 3];
    }
  }

  /** Bytes in = bytes out ++ bytes still queued, and the slices are the samples out. */
  ghost predicate Conserved(queue: seq<byte>, accepted: seq<byte>, popped: nat, pushes: seq<Push>) {
    && 2 * popped <= |accepted|
    && queue == accepted[2 * popped..]
    && Delivers(pushes, BytesSamples(accepted[..2 * popped]))
  }

  /** While nothing was refused, what entered the ring is the whole stream, resampled. */
  ghost predicate Complete(tr: Trace)
    requires tr.s.inRate > 0
  {
    !tr.refused ==>
      if tr.s.inRate == OUT_RATE then tr.accepted == tr.sent
      else
        && tr.accepted == SampleBytes(ClosedForm(tr.input, tr.s.inRate))
        && Tracks(tr.input, tr.s.carry, tr.s.inRate, Count(|tr.input|, tr.s.inRate))
  }

  ghost predicate Good(tr: Trace) {
    Inv(tr.s) && Conserved(tr.s.queue, tr.accepted, tr.popped, tr.pushes) && Complete(tr) && AllTakeAll(tr.pushes)
  }

  lemma FreshIsGood(s: AudioState)
    requires Inv(s) && s.queue == [] && s.carry == START
    ensures Good(Fresh(s))
  {
    TracksStart(s.inRate);
    ContinuesFromZero([], START, s.inRate, []);
    TracksCount([], START, s.inRate, 0);
  }

  /** Bytes that enter the ring change nothing about those that left it. */
  lemma MoreAccepted(queue: seq<byte>, accepted: seq<byte>, popped: nat, pushes: seq<Push>, more: seq<byte>)
    requires Conserved(queue, accepted, popped, pushes)
    ensures Conserved(queue + more, accepted + more, popped, pushes)
  {
    hide Delivers, BytesSamples;
    assert (accepted + more)[..2 * popped] == accepted[..2 * popped];
    assert (accepted + more)[2 * popped..] == accepted[2 * popped..] + more;
  }

  /** What a chunk adds to the ring is what the history says it added. */
  lemma FeedAppends(tr: Trace, mono: seq<byte>) returns (more: seq<byte>)
    requires Inv(tr.s)
    ensures var tr' := FeedStep(tr, mono);
            && tr'.s.queue == tr.s.queue + more && tr'.accepted == tr.accepted + more
            && tr'.popped == tr.popped && tr'.pushes == tr.pushes && tr'.s.inRate == tr.s.inRate
  {
    hide BytesSamples, SampleBytes, Resampler.Feed;
    if mono == [] || !tr.s.streaming {
      more := [];
      assert tr.s.queue + more == tr.s.queue && tr.accepted + more == tr.accepted;
    } else if tr.s.inRate == OUT_RATE {
      more := mono[..FeedReturn(tr.s, mono)];
    } else {
      more := SampleBytes(Resampler.Feed(BytesSamples(mono), tr.s.carry, tr.s.inRate, tr.s.Space() / 2).out);
    }
  }

  lemma FeedStaysComplete(tr: Trace, mono: seq<byte>)
    requires Good(tr)
    ensures FeedStep(tr, mono).s.inRate > 0 && Complete(FeedStep(tr, mono))
  {
    hide BytesSamples, SampleBytes, Tracks, ClosedForm, Count, Conserved, AllTakeAll, Resampler.Feed;
    if mono != [] && tr.s.streaming && tr.s.inRate != OUT_RATE && !FeedStep(tr, mono).refused {
      FeedCompletes(tr, mono);
    }
  }

  lemma FeedIsGood(tr: Trace, mono: seq<byte>)
    requires Good(tr)
    ensures Good(FeedStep(tr, mono))
  {
    hide Inv, Conserved, Complete, FeedStep, FeedBytes;
    GoodInv(tr);
    FeedKeepsInv(tr.s, mono);
    FeedStepState(tr, mono);
    var more := FeedAppends(tr, mono);
    MoreAccepted(tr.s.queue, tr.accepted, tr.popped, tr.pushes, more);
    FeedStaysComplete(tr, mono);
  }

  lemma FeedCompletes(tr: Trace, mono: seq<byte>)
    requires Good(tr) && !tr.refused && tr.s.inRate != OUT_RATE
    requires !Resampler.Feed(BytesSamples(mono), tr.s.carry, tr.s.inRate, tr.s.Space() / 2).full
    ensures var xs := BytesSamples(mono);
            var f := Resampler.Feed(xs, tr.s.carry, tr.s.inRate, tr.s.Space() / 2);
            var all := tr.input + xs;
            && tr.accepted + SampleBytes(f.out) == SampleBytes(ClosedForm(all, tr.s.inRate))
            && Tracks(all, f.carry, tr.s.inRate, Count(|all|, tr.s.inRate))
  {
    hide SampleBytes, BytesSamples, Conserved, Tracks, Resampler.Feed;
    var rate := tr.s.inRate;
    var xs := BytesSamples(mono);
    var room := tr.s.Space() / 2;
    var f := Resampler.Feed(xs, tr.s.carry, rate, room);
    var m := Count(|tr.input|, rate);
    var all := tr.input + xs;
    var before := ClosedForm(tr.input, rate);
    FeedIsClosedForm(tr.input, xs, tr.s.carry, rate, room, m);
    TracksCount(all, f.carry, rate, m + |f.out|);
    ClosedFormContinues(tr.input, rate);
    ContinuesExtends(tr.input, xs, rate, 0, before);
    ContinuesConcat(all, rate, 0, before, f.out);
    ContinuesFromZero(all, f.carry, rate, before + f.out);
    SampleBytesConcat(before, f.out);
  }

  lemma ClosedFormContinues(x: seq<i16>, rate: nat)
    requires rate > 0
    ensures Continues(x, rate, 0, ClosedForm(x, rate))
  {
    forall j | 0 <= j < Count(|x|, rate)
      ensures IsSample(x, rate, 0 + j, ClosedForm(x, rate)[j])
    {
      CountBefore(j, |x|, rate);
    }
  }

  /** A pump call writes a slice of the queue and removes exactly that. */
  lemma PumpTakesASlice(s: AudioState, env: TickEnv)
    requires Inv(s)
    ensures var t := Tick(s, env);
            if t.pushed == [] then t.state.queue == s.queue
            else t.pushed == Slice(s.queue, s.volume, env.slot) && t.state.queue == AfterPop(s.queue, env.slot)
  {
    hide Slice;
    if env.slot == 0 {
      assert AfterPop(s.queue, env.slot) == s.queue;
    }
  }

  lemma PumpIsGood(tr: Trace, env: TickEnv)
    requires Good(tr)
    ensures Good(PumpStep(tr, env))
  {
    hide Tick, Slice, AfterPop, Popped, Conserved, Inv, Tracks, ClosedForm, Count, SampleBytes;
    TickKeepsInv(tr.s, env);
    PumpTakesASlice(tr.s, env);
    TickKeepsRate(tr.s, env);
    PoppedAre(tr.s.queue, env.slot);
    PopConserves(tr.s, tr.accepted, tr.popped, tr.pushes, env.slot);
  }

  lemma PoppedAre(queue: seq<byte>, slot: nat)
    ensures |queue| - |AfterPop(queue, slot)| == 2 * Popped(queue, slot)
    ensures forall volume, bytes :: |bytes| == slot ==> TakesAll(Push(|queue|, Popped(queue, slot), volume, bytes))
  {
  }

  /** Moving one slice from the ring to the DMA conserves the bytes and extends the delivery. */
  lemma PopConserves(s: AudioState, a: seq<byte>, popped: nat, pushes: seq<Push>, slot: nat)
    requires Conserved(s.queue, a, popped, pushes)
    ensures var n := Popped(s.queue, slot);
            Conserved(AfterPop(s.queue, slot), a, popped + n,
                      pushes + [Push(|s.queue|, n, s.volume, Slice(s.queue, s.volume, slot))])
  {
    hide Slice, BytesSamples, Delivers;
    var p, n := 2 * popped, Popped(s.queue, slot);
    assert a[p..][..2 * n] == a[p..p + 2 * n];
    assert a[p..][2 * n..] == a[p + 2 * n..];
    assert a[..p + 2 * n] == a[..p] + a[p..p + 2 * n];
    BytesSamplesConcat(a[..p], a[p..p + 2 * n]);
    DeliversMore(pushes, BytesSamples(a[..p]), s, slot);
  }

  lemma TickKeepsRate(s: AudioState, env: TickEnv)
    ensures Tick(s, env).state.inRate == s.inRate && Tick(s, env).state.carry == s.carry
  {
    hide Slice, AfterPop;
  }

  lemma DeliversMore(pushes: seq<Push>, ys: seq<i16>, s: AudioState, slot: nat)
    requires Delivers(pushes, ys)
    ensures var n := Popped(s.queue, slot);
            Delivers(pushes + [Push(|s.queue|, n, s.volume, Slice(s.queue, s.volume, slot))],
                     ys + BytesSamples(s.queue[..2 * n]))
  {
    hide Words;
    var n := Popped(s.queue, slot);
    var more := BytesSamples(s.queue[..2 * n]);
    var all := ys + more;
    var ps := pushes + [Push(|s.queue|, n, s.volume, Slice(s.queue, s.volume, slot))];
    assert all[|all| - n..] == more && all[..|all| - n] == ys;
    assert ps[..|ps| - 1] == pushes;
  }

  lemma StepIsGood(tr: Trace, op: Op)
    requires Good(tr)
    ensures Good(Step(tr, op))
    ensures Handles(Step(tr, op).s) == Handles(tr.s)
  {
    hide Tracks, ClosedForm, Count, Delivers, BytesSamples, SampleBytes, Tick, FeedStep, PumpStep;
    match op
    case Begin(rate) =>
      ControlsKeepInv(tr.s, rate, 0);
      FreshIsGood(BeginStream(tr.s, rate));
    case Stop =>
      ControlsKeepInv(tr.s, 0, 0);
      FreshIsGood(StopPlayback(tr.s));
    case Finish => ControlsKeepInv(tr.s, 0, 0);
    case Volume(v) => ControlsKeepInv(tr.s, 0, v);
    case Tone(left) => ToneKeepsInv(tr.s, left);
    case FeedChunk(mono) =>
      FeedKeepsInv(tr.s, mono);
      FeedIsGood(tr, mono);
      FeedStepState(tr, mono);
    case Pump(env) =>
      TickKeepsInv(tr.s, env);
      PumpIsGood(tr, env);
      PumpStepState(tr, env);
  }

  lemma FeedStepState(tr: Trace, mono: seq<byte>)
    requires Inv(tr.s)
    ensures FeedStep(tr, mono).s == FeedBytes(tr.s, mono)
  {
  }

  lemma PumpStepState(tr: Trace, env: TickEnv)
    ensures PumpStep(tr, env).s == Tick(tr.s, env).state
  {
  }

  /** The traces a run of operations can reach. */
  ghost predicate Reaches(tr: Trace, ops: seq<Op>, end: Trace)
    decreases |ops|
  {
    if ops == [] then end == tr
    else Inv(tr.s) && Reaches(Step(tr, ops[0]), ops[1..], end)
  }

  lemma {:induction false} RunIsGood(tr: Trace, ops: seq<Op>, end: Trace)
    requires Good(tr) && Reaches(tr, ops, end)
    ensures Good(end) && Handles(end.s) == Handles(tr.s)
    decreases |ops|
  {
    hide Good, Step;
    if ops != [] {
      StepIsGood(tr, ops[0]);
      RunIsGood(Step(tr, ops[0]), ops[1..], end);
    } else {
      GoodInv(tr);
    }
  }

  lemma GoodInv(tr: Trace)
    requires Good(tr)
    ensures Inv(tr.s)
  {
  }

  /**
   * The main result, for every run from power-on. The same two handles are held throughout.
   * The bytes that entered the ring since the last reset are the ones that left it followed by
   * the ones in it. The DMA slices are exactly the samples that left, in order, scaled and
   * padded with silence, and no slice is padded while a sample is queued. And unless the ring overflowed, these samples are a prefix of the
   * closed-form resampling of everything the server sent, the queue being the rest of it.
   */
  lemma EndToEnd(cap: nat, tx: Tx, stream: Stream, ops: seq<Op>, end: Trace)
    requires cap >= 2 && cap % 2 == 0
    requires Reaches(Fresh(Initial(cap, tx, stream)), ops, end)
    ensures Inv(end.s) && Handles(end.s) == (tx, stream.id)
    ensures 2 * end.popped <= |end.accepted|
    ensures end.accepted == end.accepted[..2 * end.popped] + end.s.queue
    ensures Delivers(end.pushes, BytesSamples(end.accepted[..2 * end.popped]))
    ensures forall i :: 0 <= i < |end.pushes| ==> TakesAll(end.pushes[i])
    ensures !end.refused && end.s.inRate != OUT_RATE ==>
              var y := ClosedForm(end.input, end.s.inRate);
              && end.popped <= |y|
              && Delivers(end.pushes, y[..end.popped])
              && end.s.queue == SampleBytes(y[end.popped..])
    ensures !end.refused && end.s.inRate == OUT_RATE ==>
              end.sent == end.accepted
  {
    hide Delivers, ClosedForm, Count, Tracks, BytesSamples, SampleBytes, Step;
    FreshIsGood(Initial(cap, tx, stream));
    RunIsGood(Fresh(Initial(cap, tx, stream)), ops, end);
    if !end.refused && end.s.inRate != OUT_RATE {
      var y := ClosedForm(end.input, end.s.inRate);
      SplitSamples(y, end.popped);
    }
  }

  lemma SplitSamples(y: seq<i16>, n: nat)
    requires 2 * n <= |SampleBytes(y)|
    ensures n <= |y|
    ensures SampleBytes(y)[2 * n..] == SampleBytes(y[n..])
    ensures BytesSamples(SampleBytes(y)[..2 * n]) == y[..n]
  {
    hide SampleBytes, BytesSamples;
    assert y == y[..n] + y[n..];
    SampleBytesConcat(y[..n], y[n..]);
    SamplesRoundTrip(y[..n]);
  }

  // ---------- what was sent ----------

  /** The chunks fed since the stream began, after `chunks` and these operations. */
  function ChunksAfter(chunks: seq<seq<byte>>, ops: seq<Op>): seq<seq<byte>>
    decreases |ops|
  {
    if ops == [] then chunks
    else
      match ops[0]
      case Begin(_) => ChunksAfter([], ops[1..])
      case FeedChunk(mono) => ChunksAfter(chunks + [mono], ops[1..])
      case _ => ChunksAfter(chunks, ops[1..])
  }

  /** The rate the stream began with. */
  function RateAfter(rate: nat, ops: seq<Op>): nat
    decreases |ops|
  {
    if ops == [] then rate
    else RateAfter(if ops[0].Begin? then ops[0].rate else rate, ops[1..])
  }

  function Flat(chunks: seq<seq<byte>>): seq<byte> {
    if chunks == [] then [] else Flat(chunks[..|chunks| - 1]) + chunks[|chunks| - 1]
  }

  /** The samples of the chunks; an odd last byte of a chunk is no sample. */
  function FlatSamples(chunks: seq<seq<byte>>): seq<i16> {
    if chunks == [] then [] else FlatSamples(chunks[..|chunks| - 1]) + BytesSamples(chunks[|chunks| - 1])
  }

  lemma OneMoreChunk(chunks: seq<seq<byte>>, mono: seq<byte>)
    ensures Flat(chunks + [mono]) == Flat(chunks) + mono
    ensures FlatSamples(chunks + [mono]) == FlatSamples(chunks) + BytesSamples(mono)
    ensures mono == [] ==> Flat(chunks + [mono]) == Flat(chunks) && FlatSamples(chunks + [mono]) == FlatSamples(chunks)
  {
    assert (chunks + [mono])[..|chunks|] == chunks;
  }

  /** While a stream lasts, its history holds these chunks, at the rate asked for if it is one of 8 to 48 kHz. */
  predicate Holds(tr: Trace, chunks: seq<seq<byte>>, rate: nat) {
    tr.s.streaming ==>
      && tr.s.inRate == (if 8000 <= rate <= 48000 then rate else 24000)
      && if tr.s.inRate == OUT_RATE then tr.sent == Flat(chunks) else tr.input == FlatSamples(chunks)
  }

  lemma StepHolds(tr: Trace, op: Op, chunks: seq<seq<byte>>, rate: nat)
    requires Inv(tr.s) && Holds(tr, chunks, rate)
    ensures Holds(Step(tr, op), ChunksAfter(chunks, [op]), RateAfter(rate, [op]))
  {
    hide Slice, AfterPop, Resampler.Feed, SampleBytes, BytesSamples, Flat, FlatSamples, Inv;
    match op
    case FeedChunk(mono) =>
      OneMoreChunk(chunks, mono);
      assert Flat([]) == [] && FlatSamples([]) == [] by { NoChunks(); }
    case Pump(env) =>
      TickKeepsRate(tr.s, env);
      PumpStepState(tr, env);
      PumpNeverBegins(tr.s, env);
    case Begin(_) => NoChunks();
    case _ =>
  }

  lemma NoChunks()
    ensures Flat([]) == [] && FlatSamples([]) == []
  {
  }

  lemma PumpNeverBegins(s: AudioState, env: TickEnv)
    ensures Tick(s, env).state.streaming ==> s.streaming
  {
    hide Slice, AfterPop;
  }

  lemma {:induction false} RunHolds(tr: Trace, ops: seq<Op>, end: Trace, chunks: seq<seq<byte>>, rate: nat)
    requires Good(tr) && Holds(tr, chunks, rate) && Reaches(tr, ops, end)
    ensures Holds(end, ChunksAfter(chunks, ops), RateAfter(rate, ops))
    decreases |ops|
  {
    hide Good, Step, Holds;
    if ops != [] {
      GoodInv(tr);
      StepIsGood(tr, ops[0]);
      StepHolds(tr, ops[0], chunks, rate);
      RunHolds(Step(tr, ops[0]), ops[1..], end, ChunksAfter(chunks, [ops[0]]), RateAfter(rate, [ops[0]]));
    }
  }

  /**
   * The whole way of a stream, from what was fed: at 16 kHz the slices carry the samples of its
   * chunks joined together, at any other rate the closed-form resampling of the samples of each;
   * in order, from the first, as long as nothing was refused. What they do not carry yet is queued.
   */
  lemma PlaysWhatWasFed(cap: nat, tx: Tx, stream: Stream, ops: seq<Op>, end: Trace)
    requires cap >= 2 && cap % 2 == 0
    requires Reaches(Fresh(Initial(cap, tx, stream)), ops, end) && end.s.streaming && !end.refused
    ensures var chunks, rate := ChunksAfter([], ops), RateAfter(0, ops);
            && end.s.inRate == (if 8000 <= rate <= 48000 then rate else 24000)
            && (end.s.inRate == 16000 ==>
                 2 * end.popped <= |Flat(chunks)|
                 && Delivers(end.pushes, BytesSamples(Flat(chunks)[..2 * end.popped]))
                 && end.s.queue == Flat(chunks)[2 * end.popped..])
            && (end.s.inRate != 16000 ==>
                 var y := ClosedForm(FlatSamples(chunks), end.s.inRate);
                 && end.popped <= |y| && Delivers(end.pushes, y[..end.popped])
                 && end.s.queue == SampleBytes(y[end.popped..]))
  {
    hide Delivers, ClosedForm, BytesSamples, SampleBytes, Flat, FlatSamples, Reaches, Good;
    var start := Fresh(Initial(cap, tx, stream));
    FreshIsGood(Initial(cap, tx, stream));
    RunHolds(start, ops, end, [], 0);
    EndToEnd(cap, tx, stream, ops, end);
    RateInRange(end);
    assert end.accepted == end.accepted[..2 * end.popped] + end.s.queue;
  }

  lemma RateInRange(tr: Trace)
    requires Inv(tr.s)
    ensures tr.s.inRate > 0
  {
  }

  // ---------- when a pump call does what ----------

  /** The branch that looks after a transfer in flight: it is refilled, whatever else. */
  predicate Refills(s: AudioState, env: TickEnv) {
    s.xfer.Some? && !env.idle
  }

  /** A stream with something to play, or more to come: it is over once done and empty. */
  predicate HasMore(s: AudioState) {
    s.streaming && !(s.done && s.queue == [])
  }

  /**
   * When a pump call hands the DMA anything: exactly if there is room and, with a transfer in
   * flight, the stream has more; or without one, or with one that ran dry, playback has started or
   * starts now, because the server has finished or 32 KiB are queued.
   */
  lemma PumpWritesExactly(s: AudioState, env: TickEnv)
    requires Inv(s)
    ensures var t := Tick(s, env);
            t.pushed != [] <==>
              (env.slot > 0
               && (if Refills(s, env) then HasMore(s)
                   else s.streaming && (s.xfer.Some? ==> HasMore(s)) && (s.started || s.done || |s.queue| >= 32 * 1024)))
  {
    hide AfterPop;
  }

  /** And when it starts a transfer: without one that still runs, likewise, and if the DMA accepts. */
  lemma PumpStartsExactly(s: AudioState, env: TickEnv)
    requires Inv(s)
    ensures Tick(s, env).started <==>
      (!Refills(s, env) && env.startOk && s.streaming && (s.xfer.Some? ==> HasMore(s))
       && (s.started || s.done || |s.queue| >= 32 * 1024))
  {
    hide Slice, AfterPop;
  }

  lemma SliceWord(queue: seq<byte>, volume: Volume, slot: nat, k: nat)
    requires k < Popped(queue, slot)
    ensures WordIs(Slice(queue, volume, slot), k, Apply(ToI16(queue[2 * k], queue[2 * k + 1]), volume))
  {
    hide Words, BytesSamples, Apply, ToI32, ToI16;
    var n := Popped(queue, slot);
    WordsReadBack(BytesSamples(queue[..2 * n]), volume, k);
    BytesSamplesAt(queue[..2 * n], k);
  }

  /**
   * And when it ends the stream: exactly when all of it has been handed over and has run dry. Then
   * nothing else changes but that the handles come back.
   */
  lemma PumpStopsExactly(s: AudioState, env: TickEnv)
    requires Inv(s) && s.streaming
    ensures !Tick(s, env).state.streaming <==> s.xfer.Some? && env.idle && s.done && s.queue == []
    ensures var s' := Tick(s, env).state;
            !s'.streaming ==>
              s' == s.(streaming := false, started := false, xfer := None,
                       tx := Some(s.xfer.value.tx), stream := Some(s.xfer.value.stream))
  {
    hide Slice, AfterPop;
  }

  /**
   * Where a slice goes: behind what the transfer in flight has been given, or into an emptied
   * buffer, which the transfer takes or, if it is refused, stays at hand with the slice in it.
   */
  lemma SliceIsHandedOver(s: AudioState, env: TickEnv)
    requires Inv(s) && Tick(s, env).pushed != []
    ensures var t := Tick(s, env);
            && (t.state.xfer.Some? <==> Refills(s, env) || env.startOk)
            && (t.state.xfer.None? ==> t.state.stream.Some?)
            && (if t.state.xfer.Some? then t.state.xfer.value.stream.pushed else t.state.stream.value.pushed)
            == (if Refills(s, env) then s.xfer.value.stream.pushed else []) + t.pushed
  {
    hide Slice, AfterPop;
  }

  /** Word k of a slice, low byte first. */
  predicate WordIs(p: seq<byte>, k: nat, value: i32) {
    4 * k + 4 <= |p| && ToI32(p[4 * k], p[4 * k + 1], p[4 * k + 2], p[4 * k + 3]) == value
  }

  lemma SliceEndsSilent(queue: seq<byte>, volume: Volume, slot: nat)
    ensures forall j :: 4 * Popped(queue, slot) <= j < slot ==> Slice(queue, volume, slot)[j] == 0
  {
    hide Words, BytesSamples, Popped;
  }

  /**
   * What it hands over, in full. Of a slice of n bytes, written while b are queued, the first
   * min(b / 2, n / 4) words are the samples at the front of the queue, scaled, in order; all the
   * rest is silence; and exactly those samples leave the queue. So no word of silence is written
   * while a sample is queued.
   */
  lemma PumpFillsTheSlice(s: AudioState, env: TickEnv)
    requires Inv(s) && Tick(s, env).pushed != []
    ensures var p, b, n := Tick(s, env).pushed, |s.queue|, env.slot;
            var m := if b / 2 <= n / 4 then b / 2 else n / 4;
            && |p| == n && Tick(s, env).state.queue == s.queue[2 * m..]
            && (forall k :: 0 <= k < m ==> WordIs(p, k, Apply(ToI16(s.queue[2 * k], s.queue[2 * k + 1]), s.volume)))
            && (forall j :: 4 * m <= j < n ==> p[j] == 0)
  {
    hide Apply, ToI16, Tick, Slice, WordIs, Inv;
    PumpTakesASlice(s, env);
    SliceEndsSilent(s.queue, s.volume, env.slot);
    forall k | 0 <= k < Popped(s.queue, env.slot)
      ensures WordIs(Slice(s.queue, s.volume, env.slot), k, Apply(ToI16(s.queue[2 * k], s.queue[2 * k + 1]), s.volume))
    {
      SliceWord(s.queue, s.volume, env.slot, k);
    }
  }

  /** No operation but a pump call marks the stream started, and it does so exactly then. */
  lemma StartsExactlyAtWatermark(tr: Trace, op: Op)
    requires Inv(tr.s) && !tr.s.started
    ensures Step(tr, op).s.started <==>
      op.Pump? && tr.s.streaming && (tr.s.done || |tr.s.queue| >= 32 * 1024)
  {
    hide Slice, AfterPop, Resampler.Feed, SampleBytes, BytesSamples;
  }

  /** A transfer is put in flight only by a pump call, on a started stream, in a fresh buffer. */
  lemma TransfersStartFresh(s: AudioState, env: TickEnv)
    requires Inv(s) && Tick(s, env).started
    ensures var t := Tick(s, env);
            && t.state.started && t.state.xfer.Some?
            && t.state.xfer.value.stream.pushed == t.pushed && |t.pushed| == env.slot
    ensures s.started || s.done || |s.queue| >= PLAY_WATERMARK_BYTES
  {
    hide Slice, AfterPop;
  }

  // ---------- the controls ----------

  /**
   * A stream begins with nothing queued, nothing in flight and nothing over, at the rate asked for
   * if that is from 8 to 48 kHz and at 24 kHz otherwise, whatever was played before.
   */
  lemma StreamBegins(s: AudioState, rate: nat)
    requires Inv(s)
    ensures var s' := BeginStream(s, rate);
            && s'.inRate == (if rate < 8000 || rate > 48000 then 24000 else rate)
            && s'.streaming && !s'.started && !s'.done && s'.queue == [] && s'.xfer.None?
            && s'.carry == Carry(0, 0) && s'.volume == s.volume && s'.cap == s.cap
  {
  }

  /** Stopping leaves nothing of it; the end only marks it. */
  lemma StreamEnds(s: AudioState)
    requires Inv(s)
    ensures var s' := StopPlayback(s);
            && !s'.streaming && !s'.started && !s'.done && s'.queue == [] && s'.xfer.None?
            && s'.carry == Carry(0, 0) && s'.volume == s.volume && s'.cap == s.cap
    ensures FinishStream(s).done && FinishStream(s).(done := s.done) == s
  {
  }

  /** The volume set is the one asked for, or the nearest end of 0..100; nothing else changes. */
  lemma VolumeIsSet(s: AudioState, v: int)
    ensures var s' := SetVolume(s, v);
            && s'.(volume := s.volume) == s
            && (0 <= v <= 100 ==> s'.volume == v) && (v < 0 ==> s'.volume == 0) && (v > 100 ==> s'.volume == 100)
  {
  }

  // ---------- what enters the ring ----------

  /**
   * At 16 kHz the ring takes the bytes as they come, up to the last free one; between streams
   * nothing.
   */
  lemma PassesThrough(s: AudioState, mono: seq<byte>)
    requires Inv(s)
    ensures !s.streaming ==> FeedBytes(s, mono) == s
    ensures s.streaming && s.inRate == 16000 ==>
      var q := FeedBytes(s, mono).queue;
      && q <= s.queue + mono
      && |q| == (if |s.queue| + |mono| < s.cap then |s.queue| + |mono| else s.cap - 1)
      && FeedBytes(s, mono).(queue := s.queue) == s
  {
  }

  /** A chunk is refused a part only when the ring has no room left for a sample, or a byte at 16 kHz. */
  lemma RefusedOnlyWhenFull(tr: Trace, mono: seq<byte>)
    requires Inv(tr.s) && !tr.refused && FeedStep(tr, mono).refused
    ensures var free := tr.s.cap - 1 - |FeedStep(tr, mono).s.queue|;
            free < (if tr.s.inRate == 16000 then 1 else 2)
  {
    hide Resampler.Feed, SampleBytes, BytesSamples;
    FeedCarries(BytesSamples(mono), tr.s.carry, tr.s.inRate, tr.s.Space() / 2);
  }

  // ---------- what feed returns ----------

  /**
   * `feed` is documented to return the bytes written. It does exactly if the input is ignored, is
   * passed through, or becomes as many samples as it has, which depends on the phase carried over
   * and the room left.
   */
  lemma ReturnsBytesWrittenExactly(s: AudioState, mono: seq<byte>)
    requires Inv(s)
    ensures FeedReturn(s, mono) == |FeedBytes(s, mono).queue| - |s.queue| <==>
      || mono == [] || !s.streaming || s.inRate == OUT_RATE
      || AtMost(Due(s.carry.frac, |mono| / 2, s.inRate), s.Space() / 2) == |mono| / 2
  {
    hide Due, SampleBytes, BytesSamples, Resampler.Feed;
    FeedCount(BytesSamples(mono), s.carry, s.inRate, s.Space() / 2);
  }

  /** Three samples at 24 kHz become two: six bytes are reported, four are written. */
  lemma ReturnsMoreThanWritten(cap: nat, tx: Tx, stream: Stream, mono: seq<byte>)
    requires cap >= 8 && cap % 2 == 0 && |mono| == 6
    ensures var s := BeginStream(Initial(cap, tx, stream), 24000);
            FeedReturn(s, mono) == 6 && |FeedBytes(s, mono).queue| == 4
  {
    hide SampleBytes, BytesSamples, Resampler.Feed;
    var s := BeginStream(Initial(cap, tx, stream), 24000);
    assert Due(0, 3, 24000) == 2;
    FeedCount(BytesSamples(mono), s.carry, 24000, s.Space() / 2);
  }

  // ---------- a transfer in flight ----------

  /**
   * How a transfer gets in flight: one sample, the server's end, and a pump call. From then on a
   * tone does nothing at all.
   */
  lemma ToneDuringSpeechIsLost(cap: nat, tx: Tx, stream: Stream, b: byte, c: byte, left: seq<byte>)
    requires cap >= 4 && cap % 2 == 0
    ensures var ops := [Begin(16000), FeedChunk([b, c]), Finish, Pump(TickEnv(false, 4, true))];
            exists end :: Reaches(Fresh(Initial(cap, tx, stream)), ops, end) && end.s.xfer.Some? && end.s.streaming
                          && Inv(end.s) && Step(end, Tone(left)) == end
  {
    hide Slice;
    var t0 := Fresh(Initial(cap, tx, stream));
    var t1 := Step(t0, Begin(16000));
    var t2 := Step(t1, FeedChunk([b, c]));
    assert [b, c][..2] == [b, c] && [] + [b, c] == [b, c];
    var t3 := Step(t2, Finish);
    var t4 := Step(t3, Pump(TickEnv(false, 4, true)));
    ReachesAll(t4);
    ReachesFirst(t3, Pump(TickEnv(false, 4, true)), [], t4);
    ReachesFirst(t2, Finish, [Pump(TickEnv(false, 4, true))], t4);
    ReachesFirst(t1, FeedChunk([b, c]), [Finish, Pump(TickEnv(false, 4, true))], t4);
    ReachesFirst(t0, Begin(16000), [FeedChunk([b, c]), Finish, Pump(TickEnv(false, 4, true))], t4);
  }

  lemma ReachesAll(tr: Trace)
    ensures Reaches(tr, [], tr)
  {
  }

  lemma ReachesFirst(tr: Trace, op: Op, ops: seq<Op>, end: Trace)
    requires Inv(tr.s) && Reaches(Step(tr, op), ops, end)
    ensures Reaches(tr, [op] + ops, end)
  {
    hide Step;
    assert ([op] + ops)[1..] == ops;
  }

  /** One operation more. */
  lemma {:induction false} ReachesNext(tr: Trace, ops: seq<Op>, end: Trace, op: Op)
    requires Reaches(tr, ops, end) && Inv(end.s)
    ensures Reaches(tr, ops + [op], Step(end, op))
    decreases |ops|
  {
    hide Step, Inv;
    if ops == [] {
      assert ([op])[1..] == [] && ops + [op] == [op];
    } else {
      ReachesNext(Step(tr, ops[0]), ops[1..], end, op);
      assert (ops + [op])[1..] == ops[1..] + [op];
    }
  }

  // ---------- draining ----------

  /**
   * A fair DMA. A start that is tried succeeds, and its fresh buffer holds a sample. While it runs it may offer
   * nothing, or too little for a sample, but then what it has left to play runs down, as it does
   * once the ring is empty; so it offers a sample again or goes idle.
   */
  ghost predicate Fair(s: AudioState, left: nat, env: TickEnv, left': nat) {
    if s.xfer.None? || env.idle then PlayedOut(s) || (env.startOk && env.slot >= SAMPLE_BYTES)
    else s.queue == [] || env.slot < SAMPLE_BYTES ==> left' < left
  }

  ghost function Stage(s: AudioState): nat {
    if !s.streaming then 0 else if s.xfer.Some? then 1 else 2
  }

  /** The lexicographic measure of a finished stream. */
  ghost predicate Smaller(s': AudioState, left': nat, s: AudioState, left: nat) {
    || |s'.queue| < |s.queue|
    || (|s'.queue| == |s.queue| && Stage(s') < Stage(s))
    || (|s'.queue| == |s.queue| && Stage(s') == Stage(s) && left' < left)
  }

  ghost predicate Draining(s: AudioState) {
    Inv(s) && s.streaming && s.done
  }

  lemma TickDrains(s: AudioState, left: nat, env: TickEnv, left': nat)
    requires Draining(s) && |s.queue| % 2 == 0 && Fair(s, left, env, left')
    ensures var s' := Tick(s, env).state;
            && Smaller(s', left', s, left)
            && (s'.streaming ==> Draining(s') && |s'.queue| % 2 == 0)
  {
    hide Slice;
    TickKeepsInv(s, env);
    AfterPopSize(s.queue, env.slot);
  }

  ghost function After(s: AudioState, env: nat -> TickEnv, n: nat): AudioState {
    if n == 0 then s else Tick(After(s, env, n - 1), env(n - 1)).state
  }

  lemma AfterNext(s: AudioState, env: nat -> TickEnv, i: nat)
    ensures After(s, env, i + 1) == Tick(After(s, env, i), env(i)).state
  {
  }

  lemma {:induction false} DrainFrom(s: AudioState, env: nat -> TickEnv, left: nat -> nat, i: nat) returns (n: nat)
    requires forall k: nat :: Fair(After(s, env, k), left(k), env(k), left(k + 1))
    requires Draining(After(s, env, i)) && |After(s, env, i).queue| % 2 == 0
    ensures !After(s, env, n).streaming
    decreases |After(s, env, i).queue|, Stage(After(s, env, i)), left(i)
  {
    hide Tick, Inv, After;
    AfterNext(s, env, i);
    var now := After(s, env, i);
    assert Fair(now, left(i), env(i), left(i + 1));
    TickDrains(now, left(i), env(i), left(i + 1));
    if After(s, env, i + 1).streaming {
      n := DrainFrom(s, env, left, i + 1);
    } else {
      n := i + 1;
    }
  }

  /**
   * How the odd byte gets there: one byte fed to a 16 kHz stream, which passes it through, and the
   * server's end.
   */
  lemma OddByteIsReached(cap: nat, tx: Tx, stream: Stream, b: byte)
    requires cap >= 4 && cap % 2 == 0
    ensures var start := Fresh(Initial(cap, tx, stream));
            var fed := Step(Step(start, Begin(16000)), FeedChunk([b]));
            && Reaches(start, [Begin(16000), FeedChunk([b]), Finish], Step(fed, Finish))
            && Draining(Step(fed, Finish).s) && Step(fed, Finish).s.queue == [b]
  {
    var t0 := Fresh(Initial(cap, tx, stream));
    var t1 := Step(t0, Begin(16000));
    var t2 := Step(t1, FeedChunk([b]));
    var t3 := Step(t2, Finish);
    assert [b][..1] == [b] && [] + [b] == [b];
    ReachesAll(t3);
    ReachesFirst(t2, Finish, [], t3);
    ReachesFirst(t1, FeedChunk([b]), [Finish], t3);
    ReachesFirst(t0, Begin(16000), [FeedChunk([b]), Finish], t3);
  }

  lemma TickKeepsOddByte(s: AudioState, env: TickEnv)
    requires Draining(s) && |s.queue| % 2 == 1
    ensures var s' := Tick(s, env).state;
            Draining(s') && |s'.queue| % 2 == 1
  {
    hide Slice, AfterPop;
    TickKeepsInv(s, env);
    AfterPopSize(s.queue, env.slot);
  }

  /** With an odd byte left over the stream never ends, whatever the DMA does. */
  lemma {:induction false} OddByteNeverDrains(s: AudioState, env: nat -> TickEnv, n: nat)
    requires Draining(s) && |s.queue| % 2 == 1
    ensures var s' := After(s, env, n);
            Draining(s') && |s'.queue| % 2 == 1
  {
    hide Tick, Inv;
    if n > 0 {
      OddByteNeverDrains(s, env, n - 1);
      TickKeepsOddByte(After(s, env, n - 1), env(n - 1));
    }
  }

  /** A finished stream under a fair DMA stops by itself exactly when whole samples are queued. */
  lemma DrainsExactlyWhenWhole(s: AudioState, env: nat -> TickEnv, left: nat -> nat)
    requires Draining(s)
    requires forall k: nat :: Fair(After(s, env, k), left(k), env(k), left(k + 1))
    ensures (exists n: nat :: !After(s, env, n).streaming) <==> |s.queue| % 2 == 0
  {
    hide Tick, Inv, Fair;
    assert After(s, env, 0) == s;
    if |s.queue| % 2 == 0 {
      var n := DrainFrom(s, env, left, 0);
    } else {
      forall n: nat ensures After(s, env, n).streaming {
        OddByteNeverDrains(s, env, n);
      }
    }
  }
}
