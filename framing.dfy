/** `AudioTools._enframe` (earshot/data.py:179-189): cuts a signal into
    windows of `window_len` samples, one every `skip_len` samples, and
    multiplies each by a Hamming window of `window_len` points. */
module Framing {
  import opened Slicing

  /** `int(a / b)` for a positive `b`: the quotient rounded toward zero, as
      Python's `int` does to the float `a / b` (Dafny's own `/` rounds down). */
  function TruncDiv(a: int, b: nat): (q: int)
    requires b > 0
    ensures a >= 0 ==> q >= 0 && q * b <= a < q * b + b
    ensures a < 0 ==> q <= 0 && q * b - b < a <= q * b
  {
    if a >= 0 then a / b else -((-a) / b)
  }

  /** `nframes = 1 + int((len(signal) - window_len) / skip_len)`. It may be
      zero or negative, in which case `range(0, nframes)` is empty. */
  function FrameCount(len: nat, window: nat, skip: nat): int
    requires skip > 0
  {
    1 + TruncDiv(len - window, skip)
  }

  /** The number of frames the loop appends. A signal at least a window
      long gets as many windows as fit, the next one running past its end; a
      shorter one gets a single frame when it falls short by less than
      `skip_len`, and none otherwise. */
  function NumFrames(len: nat, window: nat, skip: nat): (n: nat)
    requires skip > 0
    ensures len >= window ==> n >= 1 && (n - 1) * skip + window <= len < n * skip + window
    ensures len < window ==> n == if window - len < skip then 1 else 0
  {
    if FrameCount(len, window, skip) > 0 then FrameCount(len, window, skip) else 0
  }

  /** `signal[(t*skip_len):(t*skip_len+window_len)]`. */
  function Frame(signal: seq<int>, t: nat, window: nat, skip: nat): seq<int>
  {
    Slice(signal, t * skip, t * skip + window)
  }

  /** `np.hamming(window_len)` has `window_len` points (none for zero). The
      product `frame * w` is element-wise when the lengths agree; a length-1
      operand is stretched to the other's length; any other pair of lengths
      is numpy's broadcasting `ValueError` (`None`). `taper(k, x)` stands for
      `x * w[k]`. */
  function Taper(frame: seq<int>, window: nat, taper: (nat, int) -> int): (r: Option<seq<int>>)
    ensures r.Some? <==> |frame| == window || |frame| == 1 || window == 1
    ensures r.Some? && |frame| == window ==>
              |r.value| == window && forall k :: 0 <= k < window ==> r.value[k] == taper(k, frame[k])
    ensures r.Some? && |frame| != window && |frame| == 1 ==>
              |r.value| == window && forall k :: 0 <= k < window ==> r.value[k] == taper(k, frame[0])
    ensures r.Some? && |frame| != window && |frame| != 1 ==>
              |r.value| == |frame| && forall k :: 0 <= k < |frame| ==> r.value[k] == taper(0, frame[k])
  {
    if |frame| == window then Some(seq(window, k requires 0 <= k < window => taper(k, frame[k])))
    else if |frame| == 1 then Some(seq(window, k requires 0 <= k < window => taper(k, frame[0])))
    else if window == 1 then Some(seq(|frame|, k requires 0 <= k < |frame| => taper(0, frame[k])))
    else None
  }

  datatype Option<T> = None | Some(value: T)

  datatype FrameError =
    | ZeroSkip                                           // `ZeroDivisionError` of `/ skip_len`
    | ShapeMismatch(t: nat, frameLen: nat, window: nat)  // broadcasting `ValueError` at frame `t`

  datatype FrameResult = Frames(frames: seq<seq<int>>) | Failure(error: FrameError)

  /** Frame `t` is tapered without error. */
  predicate FrameFits(signal: seq<int>, t: nat, window: nat, skip: nat)
  {
    var n := |Frame(signal, t, window, skip)|;
    n == window || n == 1 || window == 1
  }

  /** `_enframe(signal, skip_len, window_len)`. */
  method Enframe(signal: seq<int>, skip: nat, window: nat, taper: (nat, int) -> int) returns (r: FrameResult)
    ensures skip == 0 <==> r == Failure(ZeroSkip)
    ensures skip > 0 ==>
              (r.Frames? <==> forall t :: 0 <= t < NumFrames(|signal|, window, skip) ==> FrameFits(signal, t, window, skip))
    ensures r.Frames? ==>
              skip > 0 && |r.frames| == NumFrames(|signal|, window, skip) &&
              forall t :: 0 <= t < |r.frames| ==> Some(r.frames[t]) == Taper(Frame(signal, t, window, skip), window, taper)
    ensures r.Failure? && skip > 0 ==>
              var t := r.error.t;
              r.error == ShapeMismatch(t, |Frame(signal, t, window, skip)|, window) &&
              t < NumFrames(|signal|, window, skip) && !FrameFits(signal, t, window, skip) &&
              forall u :: 0 <= u < t ==> FrameFits(signal, u, window, skip)
  {
    if skip == 0 {
      return Failure(ZeroSkip);
    }
    var nframes := FrameCount(|signal|, window, skip);
    var frames: seq<seq<int>> := [];
    var t: nat := 0;
    while t < nframes
      invariant t == |frames| && (t <= NumFrames(|signal|, window, skip))
      invariant forall u :: 0 <= u < t ==>
                  FrameFits(signal, u, window, skip) &&
                  Some(frames[u]) == Taper(Frame(signal, u, window, skip), window, taper)
    {
      var frame := Slice(signal, t * skip, t * skip + window);
      var tapered := Taper(frame, window, taper);
      if tapered.None? {
        assert t < NumFrames(|signal|, window, skip) && !FrameFits(signal, t, window, skip);
        return Failure(ShapeMismatch(t, |frame|, window));
      }
      frames := frames + [tapered.value];
      t := t + 1;
    }
    r := Frames(frames);
  }

  /** When the signal is at least a window long, every frame the loop cuts
      lies inside the signal and is a whole window, so none can fail. */
  lemma FramesInBounds(len: nat, window: nat, skip: nat, t: nat)
    requires skip > 0 && len >= window && t < NumFrames(len, window, skip)
    ensures NumFrames(len, window, skip) >= 1
    ensures t * skip + window <= len
  {
    var q := TruncDiv(len - window, skip);
    assert t <= q;
    MulMono(t, q, skip);
  }

  /** A long enough signal is cut into full windows with no error: frame `t`
      is the window's points starting at sample `t * skip_len`, each tapered
      by its position. */
  lemma FullWindows(signal: seq<int>, window: nat, skip: nat, taper: (nat, int) -> int, t: nat)
    requires skip > 0 && |signal| >= window && t < NumFrames(|signal|, window, skip)
    ensures t * skip + window <= |signal|
    ensures Frame(signal, t, window, skip) == signal[t * skip .. t * skip + window]
    ensures FrameFits(signal, t, window, skip)
    ensures var w := Taper(Frame(signal, t, window, skip), window, taper);
            w.Some? && |w.value| == window &&
            forall k :: 0 <= k < window ==> w.value[k] == taper(k, signal[t * skip + k])
  {
    FramesInBounds(|signal|, window, skip, t);
  }

  /** The single frame of a signal shorter than the window is the whole
      signal, and it can be tapered only when it has one sample or the
      window has one point: any other short signal, the empty one included,
      ends in the broadcasting error. */
  lemma ShortSignal(signal: seq<int>, window: nat, skip: nat)
    requires skip > 0 && |signal| < window && NumFrames(|signal|, window, skip) == 1
    ensures Frame(signal, 0, window, skip) == signal
    ensures FrameFits(signal, 0, window, skip) <==> |signal| == 1 || window == 1
  {
    assert signal[0..|signal|] == signal;
  }

  /** `x <= y` scales by a non-negative factor. */
  lemma {:induction false} MulMono(x: nat, y: nat, b: nat)
    requires x <= y
    ensures x * b <= y * b
  {
    if x < y {
      MulMono(x, y - 1, b);
    }
  }
}
