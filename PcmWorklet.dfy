/** The audio-worklet processor that turns microphone samples at the audio
    context's native rate into 16 kHz mono PCM16 frames of 160 samples
    (10 ms), `public/pcm-worklet.js`.

    Samples are exact reals. The source keeps `_acc` as a float and compares
    it with `_ratio = inRate / outRate`; here the accumulator is multiplied by
    `outRate`, so it is an exact integer: one input sample adds `outRate`, one
    emission subtracts `inRate`. */
module PcmWorklet {

  const OUT_RATE: nat := 16000
  /** `_frameSamples`: 10 ms at 16 kHz. */
  const FRAME_SAMPLES: nat := 160
  /** Initial `Int16Array` capacity, `_frameSamples * 4`. */
  const INITIAL_CAPACITY: nat := 640

  const INT16_MIN: int := -32768
  const INT16_MAX: int := 32767

  // ----- quantisation -----

  /** Truncation toward zero, as the conversion to an integer type does. */
  function Trunc(x: real): (r: int)
    ensures x >= 0.0 ==> r as real <= x < r as real + 1.0
    ensures x < 0.0 ==> r as real - 1.0 < x <= r as real
  {
    if x >= 0.0 then x.Floor else -((-x).Floor)
  }

  /** ECMAScript ToInt16 (what a store into an `Int16Array` does to a
      finite number): truncate, then wrap modulo 2^16 into [-32768, 32767]. */
  function ToInt16(x: real): (r: int)
    ensures INT16_MIN <= r <= INT16_MAX
    ensures INT16_MIN <= Trunc(x) <= INT16_MAX ==> r == Trunc(x)
  {
    var m := Trunc(x) % 0x1_0000;
    if m >= 0x8000 then m - 0x1_0000 else m
  }

  /** `_floatToInt16`: clamp to [-1, 1], then scale negatives by 0x8000 and
      the rest by 0x7fff. The result is still a float. */
  function FloatToInt16(f: real): (r: real)
    ensures -32768.0 <= r <= 32767.0
    ensures f < 0.0 ==> r <= 0.0
    ensures f >= 0.0 ==> r >= 0.0
  {
    var s := if f < -1.0 then -1.0 else if f > 1.0 then 1.0 else f;
    if s < 0.0 then s * 32768.0 else s * 32767.0
  }

  /** What one output sample becomes in the buffer: `_buf[i] = _floatToInt16(avg)`. */
  function Quantise(f: real): (r: int)
    ensures INT16_MIN <= r <= INT16_MAX
  {
    ToInt16(FloatToInt16(f))
  }

  /** A stored sample is the truncated scaled value: full scale at 1 and
      -1 and beyond, 0 at 0, and of the sign of the input. */
  lemma QuantiseSpec(f: real)
    ensures Quantise(f) == Trunc(FloatToInt16(f))
    ensures f >= 1.0 ==> Quantise(f) == INT16_MAX
    ensures f <= -1.0 ==> Quantise(f) == INT16_MIN
    ensures f == 0.0 ==> Quantise(f) == 0
    ensures f < 0.0 ==> Quantise(f) <= 0
    ensures f >= 0.0 ==> Quantise(f) >= 0
  {
  }

  /** Quantisation never reorders samples. */
  lemma QuantiseMonotonic(f: real, g: real)
    requires f <= g
    ensures Quantise(f) <= Quantise(g)
  {
    var a, b := FloatToInt16(f), FloatToInt16(g);
    assert a <= b;
    if a >= 0.0 {
      assert a.Floor <= b.Floor;
    } else if b < 0.0 {
      assert (-b).Floor <= (-a).Floor;
    }
  }

  // ----- the decimation loop as a function -----

  function Sum(w: seq<real>): real
  {
    if w == [] then 0.0 else Sum(w[..|w| - 1]) + w[|w| - 1]
  }

  lemma SumSnoc(w: seq<real>, x: real)
    ensures Sum(w + [x]) == Sum(w) + x
  {
    assert (w + [x])[..|w|] == w;
  }

  /** `sum / count` over one averaging window. */
  function Mean(w: seq<real>): real
  {
    if w == [] then 0.0 else Sum(w) / (|w| as real)
  }

  /** The samples a run of `process` emits, one per window. */
  function Quantised(ws: seq<seq<real>>): (r: seq<int>)
    ensures |r| == |ws|
  {
    if ws == [] then [] else Quantised(ws[..|ws| - 1]) + [Quantise(Mean(ws[|ws| - 1]))]
  }

  /** Emitting one more window appends its sample after what was pending. */
  lemma QuantisedSnoc(pending: seq<int>, ws: seq<seq<real>>, w: seq<real>)
    ensures pending + Quantised(ws + [w]) == (pending + Quantised(ws)) + [Quantise(Mean(w))]
  {
    assert (ws + [w])[..|ws|] == ws;
  }

  /** The locals of the per-sample loop that matter: the scaled
      accumulator, the open averaging window (`sum` and `count` are its sum
      and length) and the windows emitted so far in this call. */
  datatype LoopState = LoopState(acc: int, window: seq<real>, windows: seq<seq<real>>)

  /** One iteration of the `for` loop of `process` on the sample `x`. */
  function StepSample(inRate: nat, outRate: nat, s: LoopState, x: real): LoopState
  {
    var w := s.window + [x];
    var a := s.acc + outRate;
    if a >= inRate then LoopState(a - inRate, [], s.windows + [w])
    else LoopState(a, w, s.windows)
  }

  /** The `for` loop of `process` over the samples `ch`. A call starts from
      `LoopState(acc, [], [])`; what is left in `window` at the end is
      dropped, because `sum` and `count` are local to one call. */
  function Run(inRate: nat, outRate: nat, s: LoopState, ch: seq<real>): LoopState
    decreases |ch|
  {
    if ch == [] then s
    else StepSample(inRate, outRate, Run(inRate, outRate, s, ch[..|ch| - 1]), ch[|ch| - 1])
  }

  lemma RunSnoc(inRate: nat, outRate: nat, s: LoopState, ch: seq<real>, i: nat)
    requires i < |ch|
    ensures Run(inRate, outRate, s, ch[..i + 1]) == StepSample(inRate, outRate, Run(inRate, outRate, s, ch[..i]), ch[i])
  {
    assert ch[..i + 1][..i] == ch[..i];
  }

  /** All windows concatenated with the open window give back exactly the
      samples that went in: none is skipped, repeated or reordered. Windows
      are only ever added, and none of them is empty. */
  lemma {:induction false} RunPartition(inRate: nat, outRate: nat, s: LoopState, ch: seq<real>)
    ensures var r := Run(inRate, outRate, s, ch);
      Concat(r.windows) + r.window == Concat(s.windows) + s.window + ch
    ensures var r := Run(inRate, outRate, s, ch);
      s.windows <= r.windows && forall k :: |s.windows| <= k < |r.windows| ==> r.windows[k] != []
    decreases |ch|
  {
    if ch != [] {
      var init := ch[..|ch| - 1];
      var x := ch[|ch| - 1];
      RunPartition(inRate, outRate, s, init);
      var p := Run(inRate, outRate, s, init);
      var w := p.window + [x];
      assert ch == init + [x];
      if p.acc + outRate >= inRate {
        ConcatSnoc(p.windows, w);
        calc {
          Concat(p.windows + [w]) + [];
          Concat(p.windows) + w;
          (Concat(p.windows) + p.window) + [x];
          (Concat(s.windows) + s.window + init) + [x];
          Concat(s.windows) + s.window + ch;
        }
      } else {
        calc {
          Concat(p.windows) + w;
          (Concat(p.windows) + p.window) + [x];
          (Concat(s.windows) + s.window + init) + [x];
          Concat(s.windows) + s.window + ch;
        }
      }
    }
  }

  /** Exact bookkeeping of the accumulator: every input adds `outRate`, every
      emission subtracts `inRate`, and it never becomes negative. With a ratio
      of at least one it also stays below `inRate`. */
  lemma {:induction false} RunAcc(inRate: nat, outRate: nat, s: LoopState, ch: seq<real>)
    requires s.acc >= 0
    ensures var r := Run(inRate, outRate, s, ch);
      r.acc == s.acc + |ch| * outRate - (|r.windows| - |s.windows|) * inRate && r.acc >= 0
    ensures outRate <= inRate && s.acc < inRate ==> Run(inRate, outRate, s, ch).acc < inRate
    decreases |ch|
  {
    if ch != [] {
      var init := ch[..|ch| - 1];
      RunAcc(inRate, outRate, s, init);
      var p := Run(inRate, outRate, s, init);
      Distribute(|init|, 1, outRate);
      if p.acc + outRate >= inRate {
        Distribute(|p.windows| - |s.windows|, 1, inRate);
      }
    }
  }

  /** With a whole-number ratio `k` (48 kHz to 16 kHz gives 3) and an open
      window that is in step with the accumulator, every emitted output
      averages exactly `k` samples. */
  lemma {:induction false} RunWholeRatio(k: nat, outRate: nat, s: LoopState, ch: seq<real>)
    requires k >= 1 && outRate >= 1 && |s.window| < k && s.acc == |s.window| * outRate
    ensures var r := Run(k * outRate, outRate, s, ch);
      && |s.windows| <= |r.windows|
      && (forall j :: |s.windows| <= j < |r.windows| ==> |r.windows[j]| == k)
      && r.acc == |r.window| * outRate && |r.window| < k
    decreases |ch|
  {
    if ch != [] {
      var init := ch[..|ch| - 1];
      RunWholeRatio(k, outRate, s, init);
      var p := Run(k * outRate, outRate, s, init);
      var w := p.window + [ch[|ch| - 1]];
      Distribute(|p.window|, 1, outRate);
      if |w| == k {
        assert (p.windows + [w])[|p.windows|] == w;
      } else {
        MulLess(|w|, k, outRate);
      }
    }
  }

  /** Calls do not stay in step: at 48 kHz a 128-sample render quantum,
      started in step, ends with two samples in its open window, which the
      call drops, while the accumulator keeps their two thirds of an output.
      The next call's first sample then closes a window on its own. */
  lemma QuantumLeavesShortWindow(ch: seq<real>, x: real)
    requires |ch| == 128
    ensures var r := Run(48000, 16000, LoopState(0, [], []), ch);
      r.acc == 32000 && |r.window| == 2 &&
      StepSample(48000, 16000, LoopState(r.acc, [], []), x) == LoopState(0, [], [[x]])
  {
    var r := Run(48000, 16000, LoopState(0, [], []), ch);
    RunAcc(48000, 16000, LoopState(0, [], []), ch);
    RunWholeRatio(3, 16000, LoopState(0, [], []), ch);
    assert |r.window| == 2;
    assert [] + [x] == [x] && [] + [[x]] == [[x]];
  }

  // ----- frames -----

  function Concat<T>(xss: seq<seq<T>>): seq<T>
  {
    if xss == [] then [] else Concat(xss[..|xss| - 1]) + xss[|xss| - 1]
  }

  lemma {:induction false} ConcatCons<T>(x: seq<T>, xss: seq<seq<T>>)
    ensures Concat([x] + xss) == x + Concat(xss)
    decreases |xss|
  {
    if xss != [] {
      var ys := [x] + xss;
      assert ys[..|ys| - 1] == [x] + xss[..|xss| - 1];
      ConcatCons(x, xss[..|xss| - 1]);
    } else {
      assert [x] + xss == [x];
      assert [x][..0] == [];
    }
  }

  /** Every output sample the processor has produced so far, in order, is
      either in a posted frame or still pending in the buffer. */
  predicate FramesCover(posted: seq<seq<int>>, pending: seq<int>, outputs: seq<int>)
  {
    Concat(posted) + pending == outputs
  }
  lemma {:induction false} ConcatSnoc<T>(xss: seq<seq<T>>, x: seq<T>)
    ensures Concat(xss + [x]) == Concat(xss) + x
  {
    assert (xss + [x])[..|xss|] == xss;
  }

  /** Frames of a fixed length flatten to that many samples each. */
  lemma {:induction false} ConcatLength<T>(xss: seq<seq<T>>, n: nat)
    requires forall k :: 0 <= k < |xss| ==> |xss[k]| == n
    ensures |Concat(xss)| == |xss| * n
    decreases |xss|
  {
    if xss != [] {
      var m := |xss| - 1;
      ConcatLength(xss[..m], n);
      assert |Concat(xss)| == |Concat(xss[..m])| + |xss[m]|;
      Distribute(m, 1, n);
    }
  }

  lemma Distribute(a: int, b: int, c: int)
    ensures (a + b) * c == a * c + b * c
  {
  }

  lemma MulLess(a: nat, b: nat, c: nat)
    requires a < b && c > 0
    ensures a * c < b * c
  {
  }

  /** The accumulator identity survives a run of the loop. */
  lemma Bookkeeping(inputs: nat, n: nat, outputs: nat, w: nat, total: nat, inRate: nat, outRate: nat, acc0: int, acc: int)
    requires acc0 == inputs * outRate - outputs * inRate
    requires acc == acc0 + n * outRate - w * inRate
    requires total == outputs + w
    ensures acc == (inputs + n) * outRate - total * inRate
  {
    Distribute(inputs, n, outRate);
    Distribute(outputs, w, inRate);
  }

  /** Samples appended to the pending buffer are appended to the outputs. */
  lemma CoverAppend(posted: seq<seq<int>>, pending: seq<int>, outputs: seq<int>, extra: seq<int>)
    requires FramesCover(posted, pending, outputs)
    ensures FramesCover(posted, pending + extra, outputs + extra)
  {
    assert Concat(posted) + (pending + extra) == (Concat(posted) + pending) + extra;
  }

  /** The accumulator and sample accounting of the processor, on values:
      every input sample added `outRate` to the accumulator and every output
      took `inRate` off it; posted frames are full; and the posted frames
      followed by the pending samples are all outputs, in order. */
  ghost predicate Bookkept(inRate: nat, outRate: nat, acc: int, inputs: nat, outputs: seq<int>, posted: seq<seq<int>>, pending: seq<int>)
  {
    && inRate > 0 && outRate == OUT_RATE
    && acc >= 0
    && acc == inputs * outRate - |outputs| * inRate
    && (outRate <= inRate ==> acc < inRate)
    && (forall k :: 0 <= k < |posted| ==> |posted[k]| == FRAME_SAMPLES)
    && FramesCover(posted, pending, outputs)
  }

  /** One call's loop over a channel keeps the accounting, with its outputs
      appended both to all outputs and to the pending samples. */
  lemma RunBookkept(inRate: nat, outRate: nat, acc: int, inputs: nat, outputs: seq<int>, posted: seq<seq<int>>, pending: seq<int>, ch: seq<real>)
    requires Bookkept(inRate, outRate, acc, inputs, outputs, posted, pending)
    ensures var d := Run(inRate, outRate, LoopState(acc, [], []), ch);
      Bookkept(inRate, outRate, d.acc, inputs + |ch|, outputs + Quantised(d.windows), posted, pending + Quantised(d.windows))
  {
    var s0 := LoopState(acc, [], []);
    var d := Run(inRate, outRate, s0, ch);
    var q := Quantised(d.windows);
    assert d.acc >= 0 && (outRate <= inRate ==> d.acc < inRate) &&
      d.acc == (inputs + |ch|) * outRate - |outputs + q| * inRate by {
      RunAcc(inRate, outRate, s0, ch);
      Bookkeeping(inputs, |ch|, |outputs|, |d.windows|, |outputs + q|, inRate, outRate, acc, d.acc);
    }
    assert FramesCover(posted, pending + q, outputs + q) by {
      CoverAppend(posted, pending, outputs, q);
    }
  }

  /** Moving the first frame of the pending samples to the posted frames
      keeps their concatenation. */
  lemma ShiftFrame(frames: seq<seq<int>>, frame: seq<int>, rest: seq<int>, pending: seq<int>, start: seq<int>)
    requires Concat(frames) + pending == start && frame + rest == pending
    ensures Concat(frames + [frame]) + rest == start
  {
    ConcatSnoc(frames, frame);
    assert (Concat(frames) + frame) + rest == Concat(frames) + (frame + rest);
  }

  /** `PcmWorkletProcessor`. `Outputs`, `Posted` and `InputCount` are the
      public view: all quantised samples ever produced, all frames ever posted
      to the port, and the number of input samples consumed. */
  class PcmWorkletProcessor {
    /** `_inRate`: the audio context's `sampleRate`. */
    const inRate: nat
    /** `_outRate`. */
    const outRate: nat
    /** `_acc * _outRate`. */
    var acc: int
    /** `_buf` and `_bufLen`. */
    var buf: array<int>
    var bufLen: nat

    ghost var Outputs: seq<int>
    ghost var Posted: seq<seq<int>>
    ghost var InputCount: nat

    /** Buffer shape and accumulator bookkeeping, before the drain. */
    ghost predicate Accounted()
      reads this, buf
    {
      && INITIAL_CAPACITY <= buf.Length
      && bufLen <= buf.Length
      && Bookkept(inRate, outRate, acc, InputCount, Outputs, Posted, buf[..bufLen])
    }

    ghost predicate Valid()
      reads this, buf
    {
      Accounted() && bufLen < FRAME_SAMPLES
    }

    constructor (sampleRate: nat)
      requires sampleRate > 0
      ensures Valid() && fresh(buf)
      ensures inRate == sampleRate && acc == 0 && bufLen == 0 && buf.Length == INITIAL_CAPACITY
      ensures Outputs == [] && Posted == [] && InputCount == 0
    {
      inRate := sampleRate;
      outRate := OUT_RATE;
      acc := 0;
      buf := new int[FRAME_SAMPLES * 4];
      bufLen := 0;
      Outputs := [];
      Posted := [];
      InputCount := 0;
    }

    /** Emits one quantised sample: appends it to the buffer, doubling the
        buffer (old contents copied unchanged) when it is full. */
    method Push(q: int)
      requires INITIAL_CAPACITY <= buf.Length && bufLen <= buf.Length
      modifies this`buf, this`bufLen, buf
      ensures INITIAL_CAPACITY <= buf.Length && bufLen <= buf.Length
      ensures bufLen == old(bufLen) + 1
      ensures buf[..bufLen] == old(buf[..bufLen]) + [q]
      ensures buf.Length == if old(bufLen) < old(buf.Length) then old(buf.Length) else 2 * old(buf.Length)
      ensures buf == old(buf) || fresh(buf)
    {
      if bufLen >= buf.Length {
        var bigger := new int[buf.Length * 2];
        forall k | 0 <= k < buf.Length {
          bigger[k] := buf[k];
        }
        assert bigger[..bufLen] == buf[..bufLen];
        buf := bigger;
      }
      buf[bufLen] := q;
      bufLen := bufLen + 1;
    }

    /** `process(inputs)`. Returns the frames posted to the port, in order,
        and `true` (keep the processor alive). Only the first channel of the
        first input is read. */
    method Process(inputs: seq<seq<seq<real>>>) returns (frames: seq<seq<int>>, keepAlive: bool)
      requires Valid()
      modifies this, buf
      ensures Valid() && keepAlive
      ensures inputs == [] || inputs[0] == [] ==>
        frames == [] && acc == old(acc) && buf == old(buf) && bufLen == old(bufLen) &&
        Outputs == old(Outputs) && Posted == old(Posted) && InputCount == old(InputCount)
      ensures inputs != [] && inputs[0] != [] ==>
        var d := Run(inRate, outRate, LoopState(old(acc), [], []), inputs[0][0]);
        && acc == d.acc
        && Outputs == old(Outputs) + Quantised(d.windows)
        && InputCount == old(InputCount) + |inputs[0][0]|
        && Posted == old(Posted) + frames
        && Concat(frames) + buf[..bufLen] == old(buf[..bufLen]) + Quantised(d.windows)
      ensures forall k :: 0 <= k < |frames| ==> |frames[k]| == FRAME_SAMPLES
    {
      keepAlive := true;
      frames := [];
      if inputs == [] || inputs[0] == [] {
        return;
      }
      Accumulate(inputs[0][0]);
      frames := Drain();
    }

    /** The per-sample `for` loop of `process` over one channel, with the
        bookkeeping of the public view. */
    method Accumulate(ch: seq<real>)
      requires Accounted()
      modifies this, buf
      ensures Accounted()
      ensures var d := Run(inRate, outRate, LoopState(old(acc), [], []), ch);
        && acc == d.acc
        && Outputs == old(Outputs) + Quantised(d.windows)
        && buf[..bufLen] == old(buf[..bufLen]) + Quantised(d.windows)
      ensures InputCount == old(InputCount) + |ch| && Posted == old(Posted)
      ensures buf == old(buf) || fresh(buf)
    {
      ghost var start := buf[..bufLen];
      RunBookkept(inRate, outRate, acc, InputCount, Outputs, Posted, start, ch);
      ghost var emitted := Decimate(ch);
      Outputs := Outputs + emitted;
      InputCount := InputCount + |ch|;
    }

    /** The per-sample `for` loop of `process` over one channel: it follows
        `Run` and appends one quantised average per emitted window. */
    method Decimate(ch: seq<real>) returns (ghost emitted: seq<int>)
      requires INITIAL_CAPACITY <= buf.Length && bufLen <= buf.Length
      modifies this`acc, this`buf, this`bufLen, buf
      ensures INITIAL_CAPACITY <= buf.Length && bufLen <= buf.Length
      ensures var d := Run(inRate, outRate, LoopState(old(acc), [], []), ch);
        && acc == d.acc
        && emitted == Quantised(d.windows)
        && buf[..bufLen] == old(buf[..bufLen]) + emitted
      ensures buf == old(buf) || fresh(buf)
    {
      ghost var start := buf[..bufLen];
      ghost var s0 := LoopState(acc, [], []);
      var sum: real := 0.0;
      var count: nat := 0;
      ghost var window: seq<real> := [];
      ghost var produced: seq<seq<real>> := [];
      for i := 0 to |ch|
        invariant INITIAL_CAPACITY <= buf.Length && bufLen <= buf.Length
        invariant buf == old(buf) || fresh(buf)
        invariant sum == Sum(window) && count == |window|
        invariant Run(inRate, outRate, s0, ch[..i]) == LoopState(acc, window, produced)
        invariant buf[..bufLen] == start + Quantised(produced)
      {
        RunSnoc(inRate, outRate, s0, ch, i);
        var emit;
        sum, count, emit, window := Step(ch[i], sum, count, window, produced);
        if emit {
          Emit(sum, count, window, produced, start);
          produced := produced + [window];
          window := [];
          sum := 0.0;
          count := 0;
        }
      }
      assert ch[..|ch|] == ch;
      emitted := Quantised(produced);
    }

    /** One iteration of the per-sample loop on the sample `x`, up to the
        emission: the sample joins the open window and the accumulator
        advances; `emit` says the window is complete. */
    method Step(x: real, sum: real, count: nat, ghost window: seq<real>, ghost produced: seq<seq<real>>)
      returns (sum': real, count': nat, emit: bool, ghost window': seq<real>)
      requires bufLen <= buf.Length && sum == Sum(window) && count == |window|
      modifies this`acc
      ensures buf[..bufLen] == old(buf[..bufLen])
      ensures sum' == Sum(window') && count' == |window'| && window' == window + [x]
      ensures StepSample(inRate, outRate, LoopState(old(acc), window, produced), x) ==
        if emit then LoopState(acc, [], produced + [window']) else LoopState(acc, window', produced)
    {
      sum' := sum + x;
      count' := count + 1;
      window' := window + [x];
      SumSnoc(window, x);
      acc := acc + outRate;
      emit := acc >= inRate;
      if emit {
        acc := acc - inRate;
      }
    }

    /** The emission branch of the loop: the window's average
        (`count > 0 ? sum / count : ch[i]`, where `count` is never 0 because
        the current sample was just added) is quantised and appended. */
    method Emit(sum: real, count: nat, ghost window: seq<real>, ghost produced: seq<seq<real>>, ghost start: seq<int>)
      requires INITIAL_CAPACITY <= buf.Length && bufLen <= buf.Length
      requires sum == Sum(window) && count == |window| && count > 0
      requires buf[..bufLen] == start + Quantised(produced)
      modifies this`buf, this`bufLen, buf
      ensures INITIAL_CAPACITY <= buf.Length && bufLen <= buf.Length
      ensures buf[..bufLen] == start + Quantised(produced + [window])
      ensures buf == old(buf) || fresh(buf)
    {
      var avg := sum / (count as real);
      QuantisedSnoc(start, produced, window);
      Push(Quantise(avg));
    }

    method Drain() returns (frames: seq<seq<int>>)
      requires Accounted()
      modifies this, buf
      ensures Valid()
      ensures buf == old(buf) && acc == old(acc) && Outputs == old(Outputs) && InputCount == old(InputCount)
      ensures Posted == old(Posted) + frames
      ensures forall k :: 0 <= k < |frames| ==> |frames[k]| == FRAME_SAMPLES
      ensures Concat(frames) + buf[..bufLen] == old(buf[..bufLen])
    {
      frames := [];
      ghost var start := buf[..bufLen];
      ghost var posted0 := Posted;
      while bufLen >= FRAME_SAMPLES
        invariant buf == old(buf) && acc == old(acc) && Outputs == old(Outputs) && InputCount == old(InputCount)
        invariant Accounted()
        invariant Posted == posted0 + frames
        invariant forall k :: 0 <= k < |frames| ==> |frames[k]| == FRAME_SAMPLES
        invariant Concat(frames) + buf[..bufLen] == start
        decreases bufLen
      {
        ghost var pending := buf[..bufLen];
        var frame := PostFrame();
        ShiftFrame(frames, frame, buf[..bufLen], pending, start);
        frames := frames + [frame];
      }
      assert start == old(buf[..bufLen]);
    }

    /** One iteration of the drain: `_buf.slice(0, 160)` is posted and the
        rest of the pending samples move to the front. */
    method PostFrame() returns (frame: seq<int>)
      requires Accounted() && bufLen >= FRAME_SAMPLES
      modifies this, buf
      ensures Accounted()
      ensures buf == old(buf) && acc == old(acc) && Outputs == old(Outputs) && InputCount == old(InputCount)
      ensures bufLen == old(bufLen) - FRAME_SAMPLES
      ensures frame + buf[..bufLen] == old(buf[..bufLen]) && |frame| == FRAME_SAMPLES
      ensures Posted == old(Posted) + [frame]
    {
      frame := buf[..FRAME_SAMPLES];
      ghost var pending := buf[..bufLen];
      assert pending == frame + pending[FRAME_SAMPLES..];
      CopyWithin(buf, FRAME_SAMPLES, bufLen);
      bufLen := bufLen - FRAME_SAMPLES;
      assert buf[..bufLen] == pending[FRAME_SAMPLES..];
      ShiftFrame(Posted, frame, buf[..bufLen], pending, Outputs);
      Posted := Posted + [frame];
    }
  }

  /** `a.copyWithin(0, from, end)`: moves `a[from..end]` to the front and
      leaves everything from `end - from` on unchanged. */
  method CopyWithin(a: array<int>, from: nat, end: nat)
    requires from <= end <= a.Length
    modifies a
    ensures a[..end - from] == old(a[from..end])
    ensures forall k :: end - from <= k < a.Length ==> a[k] == old(a[k])
  {
    for k := 0 to end - from
      invariant forall j :: 0 <= j < k ==> a[j] == old(a[j + from])
      invariant forall j :: k <= j < a.Length ==> a[j] == old(a[j])
    {
      a[k] := a[k + from];
    }
  }

  /** What a valid processor has produced: `floor(inputs * 16000 / inRate)`
      outputs when the input rate is at least 16 kHz, split into full frames
      of 160 and fewer than 160 pending. */
  lemma OutputsSoFar(p: PcmWorkletProcessor)
    requires p.Valid()
    ensures p.outRate <= p.inRate ==>
      |p.Outputs| * p.inRate <= p.InputCount * p.outRate < (|p.Outputs| + 1) * p.inRate
    ensures |p.Outputs| == |p.Posted| * FRAME_SAMPLES + p.bufLen
  {
    ConcatLength(p.Posted, FRAME_SAMPLES);
    Distribute(|p.Outputs|, 1, p.inRate);
  }

  /** One second of 48 kHz audio, however it was chunked into render quanta,
      has become exactly 100 posted frames with nothing pending. */
  lemma OneSecondAt48k(p: PcmWorkletProcessor)
    requires p.Valid() && p.inRate == 48000 && p.InputCount == 48000
    ensures |p.Outputs| == 16000 && |p.Posted| == 100 && p.bufLen == 0
  {
    OutputsSoFar(p);
  }
}
