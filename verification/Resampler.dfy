/**
 * The stateful linear resampler of `feed` (src/audio_output.rs), and its closed form.
 * The phase is kept in units of 1/16000 of an input sample, so a phase of OUT_RATE is 1.0.
 */
module Resampler {
  import opened Arithmetic
  import opened Bytes

  const OUT_RATE: nat := 16000

  /** What survives between chunks: the phase of the next output and the last input sample. */
  datatype Carry = Carry(frac: nat, prev: i16)

  const START: Carry := Carry(0, 0)

  /** Outputs of one chunk, the carry after it, and whether the ring refused a sample. */
  datatype Fed = Fed(out: seq<i16>, carry: Carry, full: bool)

  /** Integer division by OUT_RATE truncating toward zero, as a float-to-integer cast does. */
  function TruncateScaled(n: int): int {
    if n < 0 then -(-n / OUT_RATE) else n / OUT_RATE
  }

  function Interpolate(prev: i16, cur: i16, t: nat): (s: i16)
    requires t < OUT_RATE
    ensures prev <= s <= cur || cur <= s <= prev
  {
    var n: int := prev as int * OUT_RATE + (cur as int - prev as int) * t;
    BetweenNeighbours(prev, cur, t);
    TruncateScaled(n)
  }

  lemma BetweenNeighbours(prev: int, cur: int, t: nat)
    requires t < OUT_RATE
    ensures var s := TruncateScaled(prev * OUT_RATE + (cur - prev) * t);
            prev <= s <= cur || cur <= s <= prev
  {
    var n := prev * OUT_RATE + (cur - prev) * t;
    if prev <= cur {
      ProductBetween(cur - prev, t);
      TruncateBetween(prev, n, cur);
    } else {
      ProductBetween(prev - cur, t);
      assert (cur - prev) * t == -((prev - cur) * t);
      TruncateBetween(cur, n, prev);
    }
  }

  lemma ProductBetween(d: nat, t: nat)
    requires t < OUT_RATE
    ensures 0 <= d * t <= d * OUT_RATE
  {
  }

  /** Truncation respects integer bounds. */
  lemma TruncateBetween(lo: int, n: int, hi: int)
    requires lo * OUT_RATE <= n <= hi * OUT_RATE
    ensures lo <= TruncateScaled(n) <= hi
  {
  }

  /** The interpolated value is the exact one truncated toward zero. */
  lemma InterpolationTruncates(prev: i16, cur: i16, t: nat)
    requires t < OUT_RATE
    ensures var exact := prev as int * OUT_RATE + (cur as int - prev as int) * t;
            var s := Interpolate(prev, cur, t) as int;
            && (exact >= 0 ==> s * OUT_RATE <= exact < s * OUT_RATE + OUT_RATE)
            && (exact < 0 ==> s * OUT_RATE - OUT_RATE < exact <= s * OUT_RATE)
  {
  }

  /** The inner loop: outputs taken between `prev` and `cur` from phase `t`, at most `room`. */
  function Emit(prev: i16, cur: i16, t: nat, rate: nat, room: nat): (out: seq<i16>)
    requires rate > 0
    ensures |out| <= room
    decreases OUT_RATE - t
  {
    if t >= OUT_RATE || room == 0 then []
    else [Interpolate(prev, cur, t)] + Emit(prev, cur, t + rate, rate, room - 1)
  }

  /** The phase at which the inner loop stops; below OUT_RATE exactly when the ring was full. */
  function StopPhase(t: nat, rate: nat, room: nat): nat
    requires rate > 0
    decreases OUT_RATE - t
  {
    if t >= OUT_RATE || room == 0 then t else StopPhase(t + rate, rate, room - 1)
  }

  function NextFrac(t: nat): nat {
    if t >= OUT_RATE then t - OUT_RATE else t
  }

  /** The outer loop over one chunk; a full ring abandons the rest of the chunk. */
  function Feed(xs: seq<i16>, c: Carry, rate: nat, room: nat): Fed
    requires rate > 0
    decreases |xs|
  {
    if xs == [] then Fed([], c, false) else
      var o := Emit(c.prev, xs[0], c.frac, rate, room);
      var t := StopPhase(c.frac, rate, room);
      var c' := Carry(NextFrac(t), xs[0]);
      if t < OUT_RATE then Fed(o, c', true) else
        var rest := Feed(xs[1..], c', rate, room - |o|);
        Fed(o + rest.out, rest.carry, rest.full)
  }

  // ---------- the closed form ----------

  /** Input sample i, with silence before the first. */
  function At(x: seq<i16>, i: int): i16
    requires -1 <= i < |x|
  {
    if i < 0 then 0 else x[i]
  }

  /** Output k: the input interpolated at position k * rate / OUT_RATE. */
  function Sample(x: seq<i16>, rate: nat, k: nat): i16
    requires k * rate / OUT_RATE < |x|
  {
    var i := k * rate / OUT_RATE;
    Interpolate(At(x, i - 1), At(x, i), k * rate % OUT_RATE)
  }

  /** How many outputs lie at positions before input n: the ceiling of n * OUT_RATE / rate. */
  function Count(n: nat, rate: nat): nat
    requires rate > 0
  {
    (n * OUT_RATE + rate - 1) / rate
  }

  lemma CountExact(n: nat, rate: nat, m: nat)
    requires rate > 0
    requires n * OUT_RATE <= m * rate < n * OUT_RATE + rate
    ensures Count(n, rate) == m
  {
    var a := n * OUT_RATE + rate - 1;
    assert a == m * rate + (a - m * rate) && 0 <= a - m * rate < rate;
    DivUnique(a, rate, m);
  }

  lemma CountBefore(k: nat, n: nat, rate: nat)
    requires rate > 0 && k < Count(n, rate)
    ensures k * rate / OUT_RATE < n
  {
    var a := n * OUT_RATE + rate - 1;
    assert Count(n, rate) * rate <= a;
    assert (k + 1) * rate <= Count(n, rate) * rate;
    assert k * rate < n * OUT_RATE;
  }

  /** The first `Count` samples of the closed form. */
  function ClosedForm(x: seq<i16>, rate: nat): (out: seq<i16>)
    requires rate > 0
    ensures |out| == Count(|x|, rate)
  {
    seq(Count(|x|, rate), k requires 0 <= k < Count(|x|, rate) =>
      CountBefore(k, |x|, rate); Sample(x, rate, k))
  }

  /** The carry that belongs after the inputs `x` when `m` outputs were produced. */
  ghost predicate Tracks(x: seq<i16>, c: Carry, rate: nat, m: nat) {
    && m * rate == |x| * OUT_RATE + c.frac
    && c.frac < rate
    && c.prev == At(x, |x| - 1)
  }

  lemma TracksStart(rate: nat)
    requires rate > 0
    ensures Tracks([], START, rate, 0)
  {
  }

  lemma TracksCount(x: seq<i16>, c: Carry, rate: nat, m: nat)
    requires rate > 0 && Tracks(x, c, rate, m)
    ensures m == Count(|x|, rate)
  {
    CountExact(|x|, rate, m);
  }

  /** `out` is the run of closed-form samples numbered from `m`. */
  ghost predicate Continues(x: seq<i16>, rate: nat, m: nat, out: seq<i16>) {
    forall j :: 0 <= j < |out| ==> IsSample(x, rate, m + j, out[j])
  }

  ghost predicate IsSample(x: seq<i16>, rate: nat, k: nat, s: i16) {
    k * rate / OUT_RATE < |x| && s == Sample(x, rate, k)
  }

  /** Samples numbered by inputs already seen do not change when more input arrives. */
  lemma SampleStable(x: seq<i16>, y: seq<i16>, rate: nat, k: nat)
    requires k * rate / OUT_RATE < |x|
    ensures k * rate / OUT_RATE < |x + y| && Sample(x + y, rate, k) == Sample(x, rate, k)
  {
  }

  /** The inner loop produces the samples whose position falls inside the current input. */
  lemma {:induction false} EmitIsClosedForm(x: seq<i16>, cur: i16, t: nat, rate: nat, room: nat, m: nat)
    requires rate > 0
    requires m * rate == |x| * OUT_RATE + t
    ensures Continues(x + [cur], rate, m, Emit(At(x, |x| - 1), cur, t, rate, room))
    ensures (m + |Emit(At(x, |x| - 1), cur, t, rate, room)|) * rate
            == |x| * OUT_RATE + StopPhase(t, rate, room)
    ensures StopPhase(t, rate, room) >= OUT_RATE && t < OUT_RATE
            ==> StopPhase(t, rate, room) - OUT_RATE < rate
    ensures StopPhase(t, rate, room) < OUT_RATE
            ==> |Emit(At(x, |x| - 1), cur, t, rate, room)| == room
    decreases OUT_RATE - t
  {
    if t < OUT_RATE && room > 0 {
      assert (m + 1) * rate == |x| * OUT_RATE + (t + rate);
      EmitIsClosedForm(x, cur, t + rate, rate, room - 1, m + 1);
      DivUnique(m * rate, OUT_RATE, |x|);
      var y := x + [cur];
      var out := Emit(At(x, |x| - 1), cur, t, rate, room);
      var tail := Emit(At(x, |x| - 1), cur, t + rate, rate, room - 1);
      assert m * rate % OUT_RATE == t;
      assert IsSample(y, rate, m, out[0]);
      forall j | 0 <= j < |out|
        ensures IsSample(y, rate, m + j, out[j])
      {
        if j > 0 {
          assert out[j] == tail[j - 1];
          assert m + j == (m + 1) + (j - 1);
        }
      }
    }
  }

  /**
   * One chunk: whatever came before, the outputs continue the closed form of all the input,
   * and if nothing was refused the carry again tracks the input.
   */
  lemma {:induction false} FeedIsClosedForm(x: seq<i16>, xs: seq<i16>, c: Carry, rate: nat, room: nat, m: nat)
    requires rate > 0 && Tracks(x, c, rate, m)
    ensures var f := Feed(xs, c, rate, room);
            && Continues(x + xs, rate, m, f.out)
            && |f.out| <= room
            && (f.full ==> |f.out| == room && (m + room) * rate < |x + xs| * OUT_RATE)
            && (!f.full ==> Tracks(x + xs, f.carry, rate, m + |f.out|))
    decreases |xs|
  {
    if xs == [] {
      assert x + xs == x;
    } else {
      var o := Emit(c.prev, xs[0], c.frac, rate, room);
      var t := StopPhase(c.frac, rate, room);
      EmitIsClosedForm(x, xs[0], c.frac, rate, room, m);
      var y := x + [xs[0]];
      assert x + xs == y + xs[1..];
      ContinuesExtends(y, xs[1..], rate, m, o);
      if t >= OUT_RATE {
        if c.frac >= OUT_RATE {
          assert t == c.frac && o == [];
        }
        var c' := Carry(NextFrac(t), xs[0]);
        assert Tracks(y, c', rate, m + |o|);
        FeedIsClosedForm(y, xs[1..], c', rate, room - |o|, m + |o|);
        ContinuesConcat(x + xs, rate, m, o, Feed(xs[1..], c', rate, room - |o|).out);
      }
    }
  }

  /** A chunk is refused exactly when the closed form needs more new samples than the ring has room for. */
  lemma RefusedExactlyWhenTooLong(x: seq<i16>, xs: seq<i16>, c: Carry, rate: nat, room: nat)
    requires rate > 0 && Tracks(x, c, rate, Count(|x|, rate))
    ensures Feed(xs, c, rate, room).full <==> Count(|x + xs|, rate) - Count(|x|, rate) > room
  {
    var m := Count(|x|, rate);
    FeedIsClosedForm(x, xs, c, rate, room, m);
    var f := Feed(xs, c, rate, room);
    if f.full {
      CountBeyond(m + room, |x + xs|, rate);
    } else {
      TracksCount(x + xs, f.carry, rate, m + |f.out|);
    }
  }

  lemma CountBeyond(k: nat, n: nat, rate: nat)
    requires rate > 0 && k * rate < n * OUT_RATE
    ensures k < Count(n, rate)
  {
    var a := n * OUT_RATE + rate - 1;
    assert (k + 1) * rate <= a;
    assert k + 1 <= a / rate;
  }

  lemma ContinuesExtends(x: seq<i16>, y: seq<i16>, rate: nat, m: nat, out: seq<i16>)
    requires Continues(x, rate, m, out)
    ensures Continues(x + y, rate, m, out)
  {
    forall j | 0 <= j < |out|
      ensures IsSample(x + y, rate, m + j, out[j])
    {
      assert IsSample(x, rate, m + j, out[j]);
      SampleStable(x, y, rate, m + j);
    }
  }

  lemma ContinuesConcat(x: seq<i16>, rate: nat, m: nat, a: seq<i16>, b: seq<i16>)
    requires Continues(x, rate, m, a) && Continues(x, rate, m + |a|, b)
    ensures Continues(x, rate, m, a + b)
  {
    forall j | 0 <= j < |a + b|
      ensures IsSample(x, rate, m + j, (a + b)[j])
    {
      if j < |a| {
        assert (a + b)[j] == a[j];
      } else {
        assert (a + b)[j] == b[j - |a|];
        assert m + j == (m + |a|) + (j - |a|);
      }
    }
  }

  /** A continuation from zero that tracks its input is the closed form, whole. */
  lemma ContinuesFromZero(x: seq<i16>, c: Carry, rate: nat, out: seq<i16>)
    requires rate > 0 && Tracks(x, c, rate, |out|) && Continues(x, rate, 0, out)
    ensures out == ClosedForm(x, rate)
  {
    TracksCount(x, c, rate, |out|);
    forall k | 0 <= k < |out|
      ensures out[k] == ClosedForm(x, rate)[k]
    {
      CountBefore(k, |x|, rate);
      assert IsSample(x, rate, 0 + k, out[k]);
    }
  }

  // ---------- how many outputs, from any carry ----------

  /** How many outputs n more inputs call for when the next one is due at phase `frac`. */
  function Due(frac: nat, n: nat, rate: nat): nat
    requires rate > 0
  {
    if frac >= n * OUT_RATE then 0 else (n * OUT_RATE - frac + rate - 1) / rate
  }

  function AtMost(n: nat, room: nat): (m: nat)
    ensures m <= room && m <= n
  {
    if n > room then room else n
  }

  lemma DueIs(frac: nat, n: nat, rate: nat, k: nat)
    requires rate > 0
    requires k == 0 ==> frac >= n * OUT_RATE
    requires k > 0 ==> frac + (k - 1) * rate < n * OUT_RATE <= frac + k * rate
    ensures Due(frac, n, rate) == k
  {
    if k > 0 {
      var a := n * OUT_RATE - frac + rate - 1;
      assert (k - 1) * rate == k * rate - rate;
      DivUnique(a, rate, k);
    }
  }

  lemma DueMeans(frac: nat, n: nat, rate: nat)
    requires rate > 0
    ensures var k := Due(frac, n, rate);
            && (k == 0 <==> frac >= n * OUT_RATE)
            && (k > 0 ==> frac + (k - 1) * rate < n * OUT_RATE <= frac + k * rate)
  {
    if frac < n * OUT_RATE {
      var a := n * OUT_RATE - frac + rate - 1;
      var k := a / rate;
      assert k * rate <= a < k * rate + rate;
      assert (k - 1) * rate == k * rate - rate;
    }
  }

  /** The inner loop emits what one input calls for, as far as there is room. */
  lemma {:induction false} EmitCount(prev: i16, cur: i16, t: nat, rate: nat, room: nat)
    requires rate > 0
    ensures |Emit(prev, cur, t, rate, room)| == AtMost(Due(t, 1, rate), room)
    ensures StopPhase(t, rate, room) == t + |Emit(prev, cur, t, rate, room)| * rate
    ensures StopPhase(t, rate, room) >= OUT_RATE <==> Due(t, 1, rate) <= room
    decreases OUT_RATE - t
  {
    hide Due;
    DueMeans(t, 1, rate);
    if t < OUT_RATE && room > 0 {
      EmitCount(prev, cur, t + rate, rate, room - 1);
      DueNext(t, rate);
    }
  }

  lemma DueNext(t: nat, rate: nat)
    requires rate > 0 && t < OUT_RATE
    ensures Due(t, 1, rate) == 1 + Due(t + rate, 1, rate)
  {
    hide Due;
    var k := Due(t + rate, 1, rate);
    DueMeans(t + rate, 1, rate);
    if k > 0 {
      assert (k - 1) * rate + rate == k * rate && k * rate + rate == (k + 1) * rate;
    }
    DueIs(t, 1, rate, k + 1);
  }

  /** What n inputs call for is what the first calls for and what the others do from there. */
  lemma DueSplits(frac: nat, n: nat, rate: nat)
    requires rate > 0 && n > 0
    ensures var k := Due(frac, 1, rate);
            frac + k * rate >= OUT_RATE && Due(frac, n, rate) == k + Due(frac + k * rate - OUT_RATE, n - 1, rate)
  {
    hide Due;
    var k := Due(frac, 1, rate);
    DueMeans(frac, 1, rate);
    var next := frac + k * rate - OUT_RATE;
    var j := Due(next, n - 1, rate);
    DueMeans(next, n - 1, rate);
    assert k * rate + j * rate == (k + j) * rate;
    assert k > 0 ==> k * rate - rate == (k - 1) * rate;
    assert k + j > 0 ==> (k + j) * rate - rate == (k + j - 1) * rate;
    assert j > 0 ==> j * rate - rate == (j - 1) * rate;
    DueIs(frac, n, rate, k + j);
  }

  /** A chunk adds the outputs it calls for, as far as there is room, whatever was refused before. */
  lemma {:induction false} FeedCount(xs: seq<i16>, c: Carry, rate: nat, room: nat)
    requires rate > 0
    ensures |Feed(xs, c, rate, room).out| == AtMost(Due(c.frac, |xs|, rate), room)
    decreases |xs|
  {
    hide Due, Emit, StopPhase;
    if xs == [] {
      DueMeans(c.frac, 0, rate);
    } else {
      EmitCount(c.prev, xs[0], c.frac, rate, room);
      DueSplits(c.frac, |xs|, rate);
      var k := Due(c.frac, 1, rate);
      if k <= room {
        FeedCount(xs[1..], Carry(NextFrac(StopPhase(c.frac, rate, room)), xs[0]), rate, room - k);
      }
    }
  }

  /** Output k of the inner loop. */
  lemma {:induction false} EmitAt(prev: i16, cur: i16, t: nat, rate: nat, room: nat, k: nat)
    requires rate > 0 && k < |Emit(prev, cur, t, rate, room)|
    ensures t + k * rate < OUT_RATE && Emit(prev, cur, t, rate, room)[k] == Interpolate(prev, cur, t + k * rate)
    decreases k
  {
    hide Interpolate;
    if k > 0 {
      EmitAt(prev, cur, t + rate, rate, room - 1, k - 1);
      assert rate + (k - 1) * rate == k * rate;
    }
  }

  /** The sample before input i of a chunk: the one carried over, or the chunk's own. */
  function Before(xs: seq<i16>, c: Carry, i: nat): i16
    requires i <= |xs|
  {
    if i == 0 then c.prev else xs[i - 1]
  }

  /** Position q of a chunk as the input sample it falls in front of, and the phase there. */
  lemma Position(q: nat, n: nat)
    requires OUT_RATE <= q
    ensures (q - OUT_RATE) / OUT_RATE == q / OUT_RATE - 1 && (q - OUT_RATE) % OUT_RATE == q % OUT_RATE
    ensures q - OUT_RATE < n * OUT_RATE <==> q < (n + 1) * OUT_RATE
  {
  }

  lemma PositionsAdd(frac: nat, a: nat, b: nat, rate: nat)
    ensures frac + a * rate + b * rate == frac + (a + b) * rate
  {
  }

  /** The first input of a chunk, and the others from the phase it leaves. */
  lemma FeedSplits(xs: seq<i16>, c: Carry, rate: nat, room: nat)
    requires rate > 0 && xs != []
    ensures var o, f := Emit(c.prev, xs[0], c.frac, rate, room), Feed(xs, c, rate, room);
            var t := c.frac + |o| * rate;
            if t < OUT_RATE then |o| == room && f == Fed(o, Carry(t, xs[0]), true)
            else
              var rest := Feed(xs[1..], Carry(t - OUT_RATE, xs[0]), rate, room - |o|);
              f == Fed(o + rest.out, rest.carry, rest.full)
  {
    hide Emit, StopPhase;
    EmitCount(c.prev, xs[0], c.frac, rate, room);
    DueMeans(c.frac, 1, rate);
  }

  /**
   * Whatever was carried over, even from a chunk that was refused: output k of a chunk is the
   * interpolation at position carried phase + k * rate, in sixteen-thousandths of an input.
   */
  lemma {:induction false} FeedAt(xs: seq<i16>, c: Carry, rate: nat, room: nat, k: nat)
    requires rate > 0 && k < |Feed(xs, c, rate, room).out|
    ensures var q := c.frac + k * rate;
            && q / OUT_RATE < |xs|
            && Feed(xs, c, rate, room).out[k]
            == Interpolate(Before(xs, c, q / OUT_RATE), xs[q / OUT_RATE], q % OUT_RATE)
    decreases |xs|
  {
    hide Emit, StopPhase, Interpolate, Feed;
    if xs == [] {
      FeedNothing(c, rate, room);
    } else {
      var o := Emit(c.prev, xs[0], c.frac, rate, room);
      FeedSplits(xs, c, rate, room);
      if k < |o| {
        EmitAt(c.prev, xs[0], c.frac, rate, room, k);
      } else {
        var c' := Carry(c.frac + |o| * rate - OUT_RATE, xs[0]);
        FeedAt(xs[1..], c', rate, room - |o|, k - |o|);
        PositionsAdd(c.frac, |o|, k - |o|, rate);
        Position(c.frac + k * rate, |xs| - 1);
      }
    }
  }

  lemma FeedNothing(c: Carry, rate: nat, room: nat)
    requires rate > 0
    ensures Feed([], c, rate, room) == Fed([], c, false)
  {
  }

  /**
   * And what a chunk carries over: its last sample and the phase after it, or, if the ring was
   * full, the sample and the phase at which the first output found no room.
   */
  lemma {:induction false} FeedCarries(xs: seq<i16>, c: Carry, rate: nat, room: nat)
    requires rate > 0
    ensures var f := Feed(xs, c, rate, room);
            var q := c.frac + |f.out| * rate;
            if f.full then
              q / OUT_RATE < |xs| && |f.out| == room && f.carry == Carry(q % OUT_RATE, xs[q / OUT_RATE])
            else
              q >= |xs| * OUT_RATE && f.carry == Carry(q - |xs| * OUT_RATE, Before(xs, c, |xs|))
    decreases |xs|
  {
    hide Emit, StopPhase, Feed;
    if xs == [] {
      FeedNothing(c, rate, room);
    } else {
      var o := Emit(c.prev, xs[0], c.frac, rate, room);
      FeedSplits(xs, c, rate, room);
      if c.frac + |o| * rate >= OUT_RATE {
        var c' := Carry(c.frac + |o| * rate - OUT_RATE, xs[0]);
        var rest := Feed(xs[1..], c', rate, room - |o|);
        FeedCarries(xs[1..], c', rate, room - |o|);
        PositionsAdd(c.frac, |o|, |rest.out|, rate);
        Position(c.frac + (|o| + |rest.out|) * rate, |xs| - 1);
      }
    }
  }

  // ---------- chunking ----------

  /** One chunk of a stream and the room the ring has, in samples, when it arrives. */
  datatype Chunk = Chunk(samples: seq<i16>, room: nat)

  /** The chunks of one stream fed one after the other, up to the first refusal. */
  function FeedChunks(chunks: seq<Chunk>, c: Carry, rate: nat): Fed
    requires rate > 0
    decreases |chunks|
  {
    if chunks == [] then Fed([], c, false) else
      var f := Feed(chunks[0].samples, c, rate, chunks[0].room);
      if f.full then f else
        var rest := FeedChunks(chunks[1..], f.carry, rate);
        Fed(f.out + rest.out, rest.carry, rest.full)
  }

  function Join(chunks: seq<Chunk>): seq<i16> {
    if chunks == [] then [] else chunks[0].samples + Join(chunks[1..])
  }

  lemma {:induction false} ChunksFrom(x: seq<i16>, chunks: seq<Chunk>, c: Carry, rate: nat, m: nat)
    requires rate > 0 && Tracks(x, c, rate, m)
    ensures var f := FeedChunks(chunks, c, rate);
            && Continues(x + Join(chunks), rate, m, f.out)
            && (!f.full ==> Tracks(x + Join(chunks), f.carry, rate, m + |f.out|))
    decreases |chunks|
  {
    if chunks == [] {
      assert x + Join(chunks) == x;
    } else {
      var f := Feed(chunks[0].samples, c, rate, chunks[0].room);
      FeedIsClosedForm(x, chunks[0].samples, c, rate, chunks[0].room, m);
      var y := x + chunks[0].samples;
      assert x + Join(chunks) == y + Join(chunks[1..]);
      ContinuesExtends(y, Join(chunks[1..]), rate, m, f.out);
      if !f.full {
        ChunksFrom(y, chunks[1..], f.carry, rate, m + |f.out|);
        ContinuesConcat(x + Join(chunks), rate, m, f.out, FeedChunks(chunks[1..], f.carry, rate).out);
      }
    }
  }

  /**
   * The main result. However a stream is cut into chunks and however full the ring is at each
   * of them, if nothing is refused the output is the closed form of the whole stream and the
   * final phase is what the count leaves over; up to a refusal it is a prefix of that form.
   */
  lemma ResamplingIsClosedForm(chunks: seq<Chunk>, rate: nat)
    requires rate > 0
    ensures var f := FeedChunks(chunks, START, rate);
            var x := Join(chunks);
            && (!f.full ==> f.out == ClosedForm(x, rate))
            && (!f.full ==> Count(|x|, rate) * rate == |x| * OUT_RATE + f.carry.frac && f.carry.frac < rate)
            && (f.full ==> f.out <= ClosedForm(x, rate))
  {
    TracksStart(rate);
    ChunksFrom([], chunks, START, rate, 0);
    var f := FeedChunks(chunks, START, rate);
    var x := Join(chunks);
    assert [] + x == x;
    if !f.full {
      ContinuesFromZero(x, f.carry, rate, f.out);
      TracksCount(x, f.carry, rate, |f.out|);
    } else {
      PrefixOfClosedForm(x, rate, f.out);
    }
  }

  /** A run of samples numbered from zero, all within the input, is a prefix of the closed form. */
  lemma PrefixOfClosedForm(x: seq<i16>, rate: nat, out: seq<i16>)
    requires rate > 0 && Continues(x, rate, 0, out)
    ensures out <= ClosedForm(x, rate)
  {
    if out != [] {
      var k := |out| - 1;
      assert IsSample(x, rate, 0 + k, out[k]);
      assert k * rate < |x| * OUT_RATE;
      var a := |x| * OUT_RATE + rate - 1;
      assert (k + 1) * rate <= a;
      assert k + 1 <= a / rate;
      forall j | 0 <= j < |out|
        ensures out[j] == ClosedForm(x, rate)[j]
      {
        CountBefore(j, |x|, rate);
        assert IsSample(x, rate, 0 + j, out[j]);
      }
    }
  }
}
