/**
 * The audio output object of src/audio_output.rs, updated in place, proved against the steps
 * of AudioSpec. The DMA is the caller's: each pump call says whether it ran dry, offers a slice
 * to write into, and accepts or refuses a start.
 */
module AudioOutput {
  import opened Arithmetic
  import opened Bytes
  import opened Resampler
  import opened VolumeCurve
  import opened AudioSpec
  import opened Options
  import opened Ring

  class AudioOutput {
    const ring: array<byte>
    var head: nat
    var tail: nat
    var streaming: bool
    var started: bool
    var doneFlag: bool
    var inRate: nat
    var volume: Volume
    var rFrac: nat
    var rPrev: i16
    var tx: Option<Tx>
    var stream: Option<Stream>
    var xfer: Option<Transfer>

    ghost predicate Shape()
      reads this
    {
      head < ring.Length && tail < ring.Length
    }

    ghost function Contents(): seq<byte>
      reads this, ring
      requires Shape()
    {
      Unread(ring[..], head, tail)
    }

    ghost function State(): AudioState
      reads this, ring
      requires Shape()
    {
      AudioState(Contents(), ring.Length, streaming, started, doneFlag, inRate, volume,
                 Carry(rFrac, rPrev), tx, stream, xfer)
    }

    /** The ring positions are sample-aligned whenever the resampler writes the ring. */
    ghost predicate Valid()
      reads this, ring
    {
      && Shape()
      && Inv(State())
      && (inRate != OUT_RATE ==> head % 2 == 0 && tail % 2 == 0)
    }

    constructor (cap: nat, txHandle: Tx, streamBuf: Stream)
      requires cap >= 2 && cap % 2 == 0
      ensures Valid() && fresh(ring)
      ensures State() == Initial(cap, txHandle, streamBuf)
    {
      ring := new byte[cap](_ => 0);
      head, tail := 0, 0;
      streaming, started, doneFlag := false, false, false;
      inRate, volume := 24000, 80;
      rFrac, rPrev := 0, 0;
      tx, stream, xfer := Some(txHandle), Some(streamBuf), None;
    }

    // ---------- the ring ----------

    method Buffered() returns (n: nat)
      requires Shape()
      ensures n == |Contents()|
    {
      BufferedIsUnread(ring[..], head, tail);
      n := (head + ring.Length - tail) % ring.Length;
    }

    method Space() returns (n: nat)
      requires Shape()
      ensures n == ring.Length - 1 - |Contents()|
    {
      SpaceIsTheRest(ring[..], head, tail);
      n := (tail + 2 * ring.Length - head - 1) % ring.Length;
    }

    method PushByte(b: byte)
      requires Shape() && |Contents()| < ring.Length - 1
      modifies this`head, ring
      ensures Shape() && Contents() == old(Contents()) + [b]
      ensures head == (old(head) + 1) % ring.Length
    {
      PushAppends(ring[..], head, tail, b);
      ring[head] := b;
      head := (head + 1) % ring.Length;
    }

    method PushSample(v: i16)
      requires Shape() && |Contents()| + 2 < ring.Length
      modifies this`head, ring
      ensures Shape() && Contents() == old(Contents()) + I16Bytes(v)
      ensures head == (old(head) + 2) % ring.Length
    {
      hide Unread, I16Bytes;
      var b := I16Bytes(v);
      ghost var r := ring[..];
      PushTwo(r, head, tail, b);
      ghost var r1 := r[head := b[0]];
      NextTwice(head, (head + 1) % ring.Length, ring.Length);
      ring[head] := b[0];
      assert ring[..] == r1;
      ring[(head + 1) % ring.Length] := b[1];
      head := (head + 2) % ring.Length;
    }

    /** The two bytes at the tail, without removing anything else. */
    method PopSample() returns (v: i16)
      requires Shape() && |Contents()| >= 2
      modifies this`tail
      ensures Shape() && Contents() == old(Contents())[2..]
      ensures v == ToI16(old(Contents())[0], old(Contents())[1])
      ensures tail == (old(tail) + 2) % ring.Length
    {
      hide Unread, ToI16;
      ghost var r := ring[..];
      PopTwo(r, head, tail);
      NextTwice(tail, (tail + 1) % ring.Length, ring.Length);
      v := ToI16(ring[tail], ring[(tail + 1) % ring.Length]);
      tail := (tail + 2) % ring.Length;
    }

    // ---------- volume ----------

    method SetVolume(v: int)
      requires Valid()
      modifies this`volume
      ensures Valid() && State() == AudioSpec.SetVolume(old(State()), v)
    {
      volume := if v < 0 then 0 else if v > 100 then 100 else v;
    }

    // ---------- the streaming interface ----------

    method Reclaim()
      requires Valid()
      modifies this`tx, this`stream, this`xfer
      ensures Valid() && State() == AudioSpec.Reclaim(old(State())) && xfer == None
    {
      if xfer.Some? {
        tx, stream, xfer := Some(xfer.value.tx), Some(xfer.value.stream), None;
      }
    }

    /** Nothing queued, and the resampler starting over. */
    method EmptyRing()
      requires Shape()
      modifies this`head, this`tail, this`rFrac, this`rPrev
      ensures Shape() && State() == old(State()).(queue := [], carry := START)
      ensures head == 0 && tail == 0
    {
      hide Unread;
      EmptyAtStart(ring[..]);
      head, tail := 0, 0;
      rFrac, rPrev := 0, 0;
    }

    method BeginStream(rate: nat)
      requires Valid()
      modifies this
      ensures Valid() && State() == AudioSpec.BeginStream(old(State()), rate)
    {
      hide Unread, Inv;
      ControlsKeepInv(State(), rate, 0);
      Reclaim();
      EmptyRing();
      inRate := if 8000 <= rate <= 48000 then rate else 24000;
      doneFlag, started, streaming := false, false, true;
    }

    method FinishStream()
      requires Valid()
      modifies this`doneFlag
      ensures Valid() && State() == AudioSpec.FinishStream(old(State()))
    {
      doneFlag := true;
    }

    method StopPlayback()
      requires Valid()
      modifies this
      ensures Valid() && State() == AudioSpec.StopPlayback(old(State()))
    {
      hide Unread, Inv;
      ControlsKeepInv(State(), 0, 0);
      Reclaim();
      streaming, started, doneFlag := false, false, false;
      EmptyRing();
    }

    method IsActive() returns (active: bool)
      requires Valid()
      ensures active == State().IsActive() == streaming
    {
      var n := Buffered();
      active := streaming || n > 0;
    }

    /** The inner loop of the resampler: outputs between the previous sample and `cur`. */
    method EmitInto(cur: i16) returns (t: nat, full: bool)
      requires Shape() && ring.Length % 2 == 0 && head % 2 == 0 && inRate > 0
      modifies this`head, ring
      ensures Shape() && head % 2 == 0
      ensures var room := (ring.Length - 1 - |old(Contents())|) / 2;
              && Contents() == old(Contents()) + SampleBytes(Emit(rPrev, cur, rFrac, inRate, room))
              && t == StopPhase(rFrac, inRate, room)
              && full == (t < OUT_RATE)
    {
      hide Unread, Interpolate, SampleBytes, I16Bytes, Emit, StopPhase;
      ghost var room := (ring.Length - 1 - |Contents()|) / 2;
      ghost var goal := Contents() + SampleBytes(Emit(rPrev, cur, rFrac, inRate, room));
      ghost var stop := StopPhase(rFrac, inRate, room);
      t, full := rFrac, false;
      while t < OUT_RATE
        invariant Shape() && head % 2 == 0
        invariant room == (ring.Length - 1 - |Contents()|) / 2
        invariant room >= 0
        invariant goal == Contents() + SampleBytes(Emit(rPrev, cur, t, inRate, room))
        invariant stop == StopPhase(t, inRate, room)
        decreases OUT_RATE - t
      {
        var out := Interpolate(rPrev, cur, t);
        var space := Space();
        if space < 2 {
          full := true;
          break;
        }
        NextTwice(head, (head + 1) % ring.Length, ring.Length);
        EmitUnfolds(Contents(), rPrev, cur, t, inRate, room);
        PushSample(out);
        t, room := t + inRate, room - 1;
      }
      EmitStops(Contents(), rPrev, cur, t, inRate, room);
    }

    /** Take a chunk of the server's 16-bit mono stream into the ring. */
    method Feed(mono: seq<byte>) returns (n: nat)
      requires Valid()
      modifies this`head, this`rFrac, this`rPrev, ring
      ensures Valid()
      ensures State() == FeedBytes(old(State()), mono)
      ensures n == FeedReturn(old(State()), mono)
    {
      hide Unread, SampleBytes, BytesSamples, Resampler.Feed;
      if mono == [] || !streaming {
        return 0;
      }
      if inRate == OUT_RATE {
        n := FeedDirect(mono);
      } else {
        FeedResampled(mono);
        n := |mono| / 2 * 2;
      }
    }

    method FeedResampled(mono: seq<byte>)
      requires Shape() && ring.Length % 2 == 0 && head % 2 == 0 && inRate > 0
      modifies this`head, this`rFrac, this`rPrev, ring
      ensures Shape() && head % 2 == 0
      ensures var f := Resampler.Feed(BytesSamples(mono), old(Carry(rFrac, rPrev)), inRate,
                                      (ring.Length - 1 - |old(Contents())|) / 2);
              Contents() == old(Contents()) + SampleBytes(f.out) && Carry(rFrac, rPrev) == f.carry
    {
      hide Unread, SampleBytes, BytesSamples, ToI16, Emit, StopPhase, Resampler.Feed;
      ghost var xs := BytesSamples(mono);
      ghost var room := (ring.Length - 1 - |Contents()|) / 2;
      ghost var all := Resampler.Feed(xs, Carry(rFrac, rPrev), inRate, room);
      ghost var goal := Contents() + SampleBytes(all.out);
      var count := |mono| / 2;
      var i := 0;
      while i < count
        invariant 0 <= i <= count == |xs|
        invariant Shape() && head % 2 == 0
        invariant room == (ring.Length - 1 - |Contents()|) / 2
        invariant var rest := Resampler.Feed(xs[i..], Carry(rFrac, rPrev), inRate, room);
                  goal == Contents() + SampleBytes(rest.out) && all.carry == rest.carry
      {
        BytesSamplesAt(mono, i);
        var cur := ToI16(mono[2 * i], mono[2 * i + 1]);
        assert xs[i..][0] == cur && xs[i..][1..] == xs[i + 1..];
        FeedUnfolds(Contents(), xs[i..], Carry(rFrac, rPrev), inRate, room);
        ghost var q := Contents();
        ghost var o := Emit(rPrev, cur, rFrac, inRate, room);
        var t, full := EmitInto(cur);
        assert Contents() == q + SampleBytes(o);
        rFrac := if t >= OUT_RATE then t - OUT_RATE else t;
        rPrev := cur;
        room := room - |o|;
        if full {
          return;
        }
        i := i + 1;
      }
      assert xs[count..] == [];
      FeedStops(Contents(), Carry(rFrac, rPrev), inRate, room);
    }

    method FeedDirect(mono: seq<byte>) returns (n: nat)
      requires Valid() && streaming && inRate == OUT_RATE && mono != []
      modifies this`head, ring
      ensures Valid()
      ensures State() == FeedBytes(old(State()), mono)
      ensures n == FeedReturn(old(State()), mono)
    {
      hide Unread;
      var space := Space();
      n := if |mono| < space then |mono| else space;
      var i := 0;
      while i < n
        invariant 0 <= i <= n
        invariant Shape()
        invariant Contents() == old(Contents()) + mono[..i]
      {
        PushByte(mono[i]);
        assert mono[..i] + [mono[i]] == mono[..i + 1];
        i := i + 1;
      }
    }

    // ---------- the pump ----------

    /** Pop samples into `dst` as volume-scaled words, as many whole samples as fit and exist. */
    method FillFromRing(dst: array<byte>) returns (n: nat)
      requires Shape() && dst != ring
      modifies this`tail, dst
      ensures Shape() && Contents() == AfterPop(old(Contents()), dst.Length)
      ensures ring.Length % 2 == 0 && old(tail) % 2 == 0 ==> tail % 2 == 0
      ensures n == SAMPLE_BYTES * Popped(old(Contents()), dst.Length) <= dst.Length
      ensures dst[..n] == Words(BytesSamples(old(Contents())[..n / 2]), volume)
    {
      hide Unread, Words, BytesSamples, I32Bytes, Apply, ToI16;
      ghost var q := Contents();
      var buffered := Buffered();
      var avail := buffered / 2;
      var want := dst.Length / SAMPLE_BYTES;
      var k := if avail < want then avail else want;
      var i := 0;
      while i < k
        invariant 0 <= i <= k
        invariant Shape()
        invariant ring.Length % 2 == 0 && old(tail) % 2 == 0 ==> tail % 2 == 0
        invariant Contents() == q[2 * i..]
        invariant dst[..4 * i] == Words(BytesSamples(q[..2 * i]), volume)
      {
        NextWord(q, i, volume);
        MoveSample(dst, 4 * i);
        i := i + 1;
      }
      n := k * SAMPLE_BYTES;
    }

    /** One sample from the tail of the ring to a word at `dst[at..]`. */
    method MoveSample(dst: array<byte>, at: nat)
      requires Shape() && |Contents()| >= 2 && dst != ring && at + 4 <= dst.Length
      modifies this`tail, dst
      ensures Shape() && Contents() == old(Contents())[2..]
      ensures ring.Length % 2 == 0 && old(tail) % 2 == 0 ==> tail % 2 == 0
      ensures dst[..at + 4] == old(dst[..at])
              + I32Bytes(Apply(ToI16(old(Contents())[0], old(Contents())[1]), volume))
    {
      hide Unread, I32Bytes, Apply, ToI16;
      NextTwice(tail, (tail + 1) % ring.Length, ring.Length);
      var v := PopSample();
      ghost var q := Contents();
      ghost var bytes := ring[..];
      WriteWord(dst, at, I32Bytes(Apply(v, volume)));
      assert ring[..] == bytes;
      assert Contents() == q;
    }

    /** Fill a whole offered slice: audio, then silence. */
    method WriteSlice(dst: array<byte>) returns (audio: nat)
      requires Shape() && dst != ring
      modifies this`tail, dst
      ensures Shape() && Contents() == AfterPop(old(Contents()), dst.Length)
      ensures ring.Length % 2 == 0 && old(tail) % 2 == 0 ==> tail % 2 == 0
      ensures dst[..] == Slice(old(Contents()), volume, dst.Length)
    {
      hide Unread, Words, BytesSamples;
      audio := FillFromRing(dst);
      ghost var words := dst[..audio];
      forall i | audio <= i < dst.Length {
        dst[i] := 0;
      }
      assert dst[..audio] == words;
      assert dst[audio..] == Zeros(dst.Length - audio);
      assert dst[..] == dst[..audio] + dst[audio..];
    }

    /**
     * One pump call. `idle`: the DMA has run out of descriptors; `slot`: the slice it offers;
     * `startOk`: whether starting a transfer succeeds. Returns whether one was started.
     */
    method Tick(idle: bool, startOk: bool, slot: array<byte>) returns (pumped: bool)
      requires Valid() && slot != ring
      modifies this`tail, this`streaming, this`started, this`tx, this`stream, this`xfer, slot
      ensures Valid()
      ensures var t := AudioSpec.Tick(old(State()), TickEnv(idle, slot.Length, startOk));
              && State() == t.state
              && pumped == t.started
              && (t.pushed != [] ==> slot[..] == t.pushed)
    {
      hide Unread, Slice, AfterPop, Words, BytesSamples, PushInFlight, Start, Inv;
      HandlesTogether(State());
      TickKeepsInv(State(), TickEnv(idle, slot.Length, startOk));
      if xfer.Some? {
        if !idle {
          PushIfNeeded(slot);
          return false;
        }
        var over := TransferEnded();
        if over {
          return false;
        }
      }
      pumped := StartIfReady(startOk, slot);
    }

    /** The DMA ran dry: both handles come back, and the stream is over if all of it was played. */
    method TransferEnded() returns (over: bool)
      requires Shape() && xfer.Some?
      modifies this`streaming, this`started, this`tx, this`stream, this`xfer
      ensures Shape() && over == PlayedOut(old(State()))
      ensures var s := AudioSpec.Reclaim(old(State()));
              State() == if over then s.(started := false, streaming := false) else s
    {
      hide Unread;
      var t := xfer.value;
      tx, stream, xfer := Some(t.tx), Some(t.stream), None;
      var n := Buffered();
      over := streaming && doneFlag && n == 0;
      if over {
        started, streaming := false, false;
      }
    }

    method PushIfNeeded(slot: array<byte>)
      requires Shape() && slot != ring && xfer.Some?
      modifies this`tail, this`xfer, slot
      ensures Shape()
      ensures ring.Length % 2 == 0 && old(tail) % 2 == 0 ==> tail % 2 == 0
      ensures var t := PushInFlight(old(State()), slot.Length);
              State() == t.state && (t.pushed != [] ==> slot[..] == t.pushed)
    {
      hide Unread, Slice, AfterPop, Words, BytesSamples;
      var n := Buffered();
      var keep := streaming && !(doneFlag && n == 0);
      if keep && slot.Length > 0 {
        var t := xfer.value;
        var _ := WriteSlice(slot);
        xfer := Some(t.(stream := t.stream.(pushed := t.stream.pushed + slot[..])));
      }
    }

    method StartIfReady(startOk: bool, slot: array<byte>) returns (pumped: bool)
      requires Shape() && slot != ring && xfer.None? && tx.Some? && stream.Some?
      modifies this`tail, this`started, this`tx, this`stream, this`xfer, slot
      ensures Shape()
      ensures ring.Length % 2 == 0 && old(tail) % 2 == 0 ==> tail % 2 == 0
      ensures var t := Start(old(State()), slot.Length, startOk);
              && State() == t.state
              && pumped == t.started
              && (t.pushed != [] ==> slot[..] == t.pushed)
    {
      hide Unread, Slice, AfterPop, Words, BytesSamples, Launch;
      if !streaming {
        return false;
      }
      var n := Buffered();
      if !started && (doneFlag || n >= PLAY_WATERMARK_BYTES) {
        started := true;
      }
      if !started {
        return false;
      }
      pumped := LaunchFresh(startOk, slot);
    }

    method LaunchFresh(startOk: bool, slot: array<byte>) returns (pumped: bool)
      requires Shape() && slot != ring && tx.Some? && stream.Some?
      modifies this`tail, this`tx, this`stream, this`xfer, slot
      ensures Shape()
      ensures ring.Length % 2 == 0 && old(tail) % 2 == 0 ==> tail % 2 == 0
      ensures var t := Launch(old(State()), slot.Length, startOk);
              && State() == t.state
              && pumped == t.started
              && slot[..] == t.pushed
    {
      hide Unread, Slice, AfterPop, Words, BytesSamples;
      var buf := FreshStream(stream.value);
      var _ := WriteSlice(slot);
      buf := buf.(pushed := buf.pushed + slot[..]);
      assert [] + slot[..] == slot[..];
      if startOk {
        xfer := Some(Transfer(tx.value, buf));
        tx, stream := None, None;
        return true;
      }
      stream := Some(buf);
      return false;
    }

    /** A used stream buffer rebuilt from the same slices: empty again, same buffer. */
    static function FreshStream(s: Stream): (f: Stream)
      ensures f.id == s.id && f.pushed == []
    {
      Stream(s.id, [])
    }

    // ---------- tones ----------

    /**
     * A tone of `n` samples given by `wave`. `slots` are the sizes the fresh buffer offers round
     * by round and `startOk` whether each start succeeds; the call waits for every round to end.
     * While a transfer is in flight the handles are away and the call does nothing at all.
     */
    method PlayTone(n: nat, wave: nat -> i16, slots: seq<nat>, startOk: seq<bool>) returns (played: seq<byte>)
      requires Valid() && |slots| == |startOk| == n
      modifies this`stream
      ensures Valid()
      ensures State() == AfterTone(old(State()), if stream.Some? then stream.value.pushed else [])
      ensures old(xfer).Some? ==> played == [] && State() == old(State())
      ensures exists k :: 0 <= k <= n && played == ToneWords(wave, 0, k, volume)
      ensures old(xfer).None? && (forall r :: 0 <= r < n ==> slots[r] >= SAMPLE_BYTES && startOk[r])
              ==> played == ToneWords(wave, 0, n, volume)
    {
      hide Unread, Inv, ToneWords;
      ghost var s0 := State();
      HandlesTogether(s0);
      forall left ensures Inv(AfterTone(s0, left)) {
        ToneKeepsInv(s0, left);
      }
      played := [];
      NoTone(wave, volume);
      if tx.None? || stream.None? {
        return;
      }
      var i, round := 0, 0;
      while i < n
        invariant 0 <= i <= n && 0 <= round <= i
        invariant Shape() && stream.Some? && tx.Some? && xfer == old(xfer)
        invariant State() == AfterTone(s0, stream.value.pushed)
        invariant played == ToneWords(wave, 0, i, volume)
        decreases n - i
      {
        var fit := slots[round] / SAMPLE_BYTES;
        var made := if fit < n - i then fit else n - i;
        ToneWordsConcat(wave, 0, i, i + made, volume);
        var words := ToneWords(wave, i, i + made, volume);
        stream := Some(Stream(stream.value.id, words));
        assert State() == AfterTone(s0, words);
        if made == 0 || !startOk[round] {
          return;
        }
        played := played + words;
        i, round := i + made, round + 1;
      }
    }
  }

  lemma EmitUnfolds(q: seq<byte>, prev: i16, cur: i16, t: nat, rate: nat, room: nat)
    requires rate > 0 && t < OUT_RATE && room > 0
    ensures StopPhase(t, rate, room) == StopPhase(t + rate, rate, room - 1)
    ensures q + SampleBytes(Emit(prev, cur, t, rate, room))
         == q + I16Bytes(Interpolate(prev, cur, t)) + SampleBytes(Emit(prev, cur, t + rate, rate, room - 1))
  {
    hide I16Bytes, Interpolate;
    var out := Interpolate(prev, cur, t);
    var tail := Emit(prev, cur, t + rate, rate, room - 1);
    assert ([out] + tail)[1..] == tail;
  }

  lemma EmitStops(q: seq<byte>, prev: i16, cur: i16, t: nat, rate: nat, room: nat)
    requires rate > 0 && (t >= OUT_RATE || room == 0)
    ensures StopPhase(t, rate, room) == t
    ensures q + SampleBytes(Emit(prev, cur, t, rate, room)) == q
  {
  }

  lemma FeedUnfolds(q: seq<byte>, xs: seq<i16>, c: Carry, rate: nat, room: nat)
    requires rate > 0 && xs != []
    ensures var o := Emit(c.prev, xs[0], c.frac, rate, room);
            var t := StopPhase(c.frac, rate, room);
            var c' := Carry(NextFrac(t), xs[0]);
            var f := Resampler.Feed(xs, c, rate, room);
            var rest := Resampler.Feed(xs[1..], c', rate, room - |o|);
            && |SampleBytes(o)| == 2 * |o|
            && (t < OUT_RATE ==> q + SampleBytes(f.out) == q + SampleBytes(o) && f.carry == c')
            && (t >= OUT_RATE ==> q + SampleBytes(f.out) == q + SampleBytes(o) + SampleBytes(rest.out)
                                  && f.carry == rest.carry)
  {
    hide SampleBytes;
    var o := Emit(c.prev, xs[0], c.frac, rate, room);
    var t := StopPhase(c.frac, rate, room);
    var rest := Resampler.Feed(xs[1..], Carry(NextFrac(t), xs[0]), rate, room - |o|);
    SampleBytesConcat(o, rest.out);
  }

  lemma FeedStops(q: seq<byte>, c: Carry, rate: nat, room: nat)
    requires rate > 0
    ensures Resampler.Feed([], c, rate, room).carry == c
    ensures q + SampleBytes(Resampler.Feed([], c, rate, room).out) == q
  {
  }

  function ToneWords(wave: nat -> i16, lo: nat, hi: nat, volume: Volume): seq<byte>
    requires lo <= hi
    decreases hi - lo
  {
    if lo == hi then [] else I32Bytes(Apply(wave(lo), volume)) + ToneWords(wave, lo + 1, hi, volume)
  }

  lemma NoTone(wave: nat -> i16, volume: Volume)
    ensures ToneWords(wave, 0, 0, volume) == []
  {
  }

  lemma {:induction false} ToneWordsConcat(wave: nat -> i16, lo: nat, mid: nat, hi: nat, volume: Volume)
    requires lo <= mid <= hi
    ensures ToneWords(wave, lo, mid, volume) + ToneWords(wave, mid, hi, volume) == ToneWords(wave, lo, hi, volume)
    decreases mid - lo
  {
    hide I32Bytes, Apply;
    if lo < mid {
      ToneWordsConcat(wave, lo + 1, mid, hi, volume);
      Assoc(I32Bytes(Apply(wave(lo), volume)), ToneWords(wave, lo + 1, mid, volume), ToneWords(wave, mid, hi, volume));
    }
  }

  lemma ToneUnfolds(wave: nat -> i16, lo: nat, hi: nat, volume: Volume)
    requires lo < hi
    ensures ToneWords(wave, lo, hi, volume) == I32Bytes(Apply(wave(lo), volume)) + ToneWords(wave, lo + 1, hi, volume)
  {
    hide I32Bytes, Apply;
  }

  lemma {:induction false} ToneSize(wave: nat -> i16, lo: nat, hi: nat, volume: Volume)
    requires lo <= hi
    ensures |ToneWords(wave, lo, hi, volume)| == 4 * (hi - lo)
    decreases hi - lo
  {
    hide I32Bytes, Apply;
    if lo < hi {
      ToneSize(wave, lo + 1, hi, volume);
    }
  }

  /** A reader of a tone's words gets each of its samples scaled by the volume curve. */
  lemma {:induction false} ToneReadsBack(wave: nat -> i16, lo: nat, hi: nat, volume: Volume, k: nat)
    requires lo + k < hi
    ensures var w := ToneWords(wave, lo, hi, volume);
            && |w| == 4 * (hi - lo)
            && ToI32(w[4 * k], w[4 * k + 1], w[4 * k + 2], w[4 * k + 3]) == Apply(wave(lo + k), volume)
    decreases hi - lo
  {
    hide I32Bytes, Apply, ToI32, ToneWords;
    ToneSize(wave, lo, hi, volume);
    ToneUnfolds(wave, lo, hi, volume);
    if k == 0 {
      I32RoundTrip(Apply(wave(lo), volume));
    } else {
      ToneReadsBack(wave, lo + 1, hi, volume, k - 1);
      var w, t := ToneWords(wave, lo, hi, volume), ToneWords(wave, lo + 1, hi, volume);
      var j := 4 * (k - 1);
      assert w[4..] == t;
      assert w[4..][j] == t[j] && w[4..][j + 1] == t[j + 1] && w[4..][j + 2] == t[j + 2] && w[4..][j + 3] == t[j + 3];
    }
  }

  lemma WordsUnfold(xs: seq<i16>, volume: Volume)
    requires xs != []
    ensures Words(xs, volume) == I32Bytes(Apply(xs[0], volume)) + Words(xs[1..], volume)
  {
    hide I32Bytes, Apply;
  }

  lemma {:induction false} WordsConcat(xs: seq<i16>, ys: seq<i16>, volume: Volume)
    ensures Words(xs + ys, volume) == Words(xs, volume) + Words(ys, volume)
  {
    if xs == [] {
      assert xs + ys == ys;
    } else {
      hide I32Bytes, Apply, Words;
      WordsConcat(xs[1..], ys, volume);
      DropOfConcat(xs, ys, 1);
      WordsUnfold(xs, volume);
      WordsUnfold(xs + ys, volume);
      Assoc(I32Bytes(Apply(xs[0], volume)), Words(xs[1..], volume), Words(ys, volume));
    }
  }

  /** One more sample of q as a word, and what is left of q. */
  lemma NextWord(q: seq<byte>, i: nat, volume: Volume)
    requires 2 * i + 2 <= |q|
    ensures q[2 * i..][0] == q[2 * i] && q[2 * i..][1] == q[2 * i + 1] && q[2 * i..][2..] == q[2 * (i + 1)..]
    ensures Words(BytesSamples(q[..2 * (i + 1)]), volume)
         == Words(BytesSamples(q[..2 * i]), volume) + I32Bytes(Apply(ToI16(q[2 * i], q[2 * i + 1]), volume))
  {
    hide Words, BytesSamples, I32Bytes, Apply, ToI16;
    WordsSnoc(q[..2 * i], q[2 * i], q[2 * i + 1], volume);
    assert q[..2 * i] + [q[2 * i], q[2 * i + 1]] == q[..2 * (i + 1)];
  }

  lemma WordsSnoc(q: seq<byte>, lo: byte, hi: byte, volume: Volume)
    requires |q| % 2 == 0
    ensures Words(BytesSamples(q + [lo, hi]), volume)
         == Words(BytesSamples(q), volume) + I32Bytes(Apply(ToI16(lo, hi), volume))
  {
    hide I32Bytes, Apply, ToI16;
    BytesSamplesConcat(q, [lo, hi]);
    assert BytesSamples([lo, hi]) == [ToI16(lo, hi)];
    WordsConcat(BytesSamples(q), [ToI16(lo, hi)], volume);
    assert Words([ToI16(lo, hi)], volume) == I32Bytes(Apply(ToI16(lo, hi), volume));
  }

  method WriteWord(dst: array<byte>, at: nat, word: seq<byte>)
    requires |word| == 4 && at + 4 <= dst.Length
    modifies dst
    ensures dst[..at + 4] == old(dst[..at]) + word
  {
    dst[at], dst[at + 1], dst[at + 2], dst[at + 3] := word[0], word[1], word[2], word[3];
  }
}
