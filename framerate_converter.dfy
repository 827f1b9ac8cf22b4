/** The frame-index normaliser: re-quantises every keyframe of an annotation onto the frame grid
    of the video's true frame rate and overwrites the annotation's frame count. */
module FramerateConverter {
  import opened LabelStudio
  import opened RealArith

  /** Python's int() on a float: truncation toward zero. */
  function Trunc(r: real): (t: int)
    ensures 0.0 <= r ==> 0 <= t && t as real <= r < t as real + 1.0
    ensures r < 0.0 ==> t <= 0 && t as real - 1.0 < r <= t as real
  {
    if r >= 0.0 then r.Floor else -((-r).Floor)
  }

  /** One iteration of the normaliser's loop: frame := int(fps * time), then time := frame / fps.
      Only `frame` and `time` change. */
  function Requantise(k: Keyframe, fps: real): (r: Keyframe)
    requires fps != 0.0
    ensures r == k.(frame := r.frame, time := r.time)
  {
    var frame := Trunc(fps * k.time);
    k.(frame := frame, time := frame as real / fps)
  }

  /** The whole sequence after normalisation: same length, same order, each entry re-quantised. */
  function RequantiseAll(s: seq<Keyframe>, fps: real): (r: seq<Keyframe>)
    requires fps != 0.0
  {
    seq(|s|, i requires 0 <= i < |s| => Requantise(s[i], fps))
  }

  /** The annotation value the converter edits: its claimed frame count and its keyframe list,
      whose entries are updated in place. */
  class Annotation {
    var framesCount: int
    var sequence: array<Keyframe>

    constructor (framesCount: int, sequence: array<Keyframe>)
      ensures this.framesCount == framesCount && this.sequence == sequence
    {
      this.framesCount := framesCount;
      this.sequence := sequence;
    }
  }

  /** `convert_labels`, given the probed frame rate and frame count. The frame count is written
      first; with a zero frame rate the first keyframe's frame is set to 0 and the division that
      follows fails (ok == false), leaving the rest untouched. */
  method ConvertLabels(annotation: Annotation, fpsVid: real, numFramesVid: int) returns (ok: bool)
    modifies annotation, annotation.sequence
    ensures annotation.sequence == old(annotation.sequence)
    ensures annotation.framesCount == numFramesVid
    ensures ok <==> fpsVid != 0.0 || annotation.sequence.Length == 0
    ensures fpsVid != 0.0 ==> annotation.sequence[..] == RequantiseAll(old(annotation.sequence[..]), fpsVid)
    ensures !ok ==> annotation.sequence[..] == old(annotation.sequence[..])[0 := old(annotation.sequence[0]).(frame := 0)]
  {
    var labels := annotation.sequence;
    ghost var s0 := labels[..];
    annotation.framesCount := numFramesVid;
    var i := 0;
    while i < labels.Length
      invariant 0 <= i <= labels.Length
      invariant annotation.sequence == labels && annotation.framesCount == numFramesVid
      invariant i > 0 ==> fpsVid != 0.0
      invariant forall k :: 0 <= k < i ==> fpsVid != 0.0 && labels[k] == Requantise(s0[k], fpsVid)
      invariant forall k :: i <= k < labels.Length ==> labels[k] == s0[k]
    {
      var current := labels[i];
      var frame := Trunc(fpsVid * current.time);
      labels[i] := current.(frame := frame);
      if fpsVid == 0.0 {
        // dividing the new frame by a zero frame rate fails here
        assert frame == 0;
        assert labels[..] == s0[0 := s0[0].(frame := 0)];
        return false;
      }
      RequantiseParts(current, fpsVid);
      labels[i] := current.(frame := frame, time := frame as real / fpsVid);
      i := i + 1;
    }
    if fpsVid != 0.0 {
      assert labels[..] == RequantiseAll(s0, fpsVid);
    }
    return true;
  }

  /** For a non-negative timestamp the new frame is the floor of fps * time. */
  lemma RequantisedFrameIsFloor(k: Keyframe, fps: real)
    requires fps > 0.0 && k.time >= 0.0
    ensures Requantise(k, fps).frame == (fps * k.time).Floor
    ensures 0 <= Requantise(k, fps).frame
  {
    var p := fps * k.time;
    assert p >= 0.0 by { MulNonNegative(fps, k.time); }
  }

  /** The new time lies on the frame grid: time * fps == frame, so frame / time == fps
      whenever the frame is not 0 (the relation the synthesiser's frame-rate check tests). */
  lemma RequantisedOnGrid(k: Keyframe, fps: real)
    requires fps != 0.0
    ensures Requantise(k, fps).time * fps == Requantise(k, fps).frame as real
    ensures Requantise(k, fps).frame != 0 ==>
              Requantise(k, fps).time != 0.0 && Requantise(k, fps).frame as real / Requantise(k, fps).time == fps
  {
    var r := Requantise(k, fps);
    var f := r.frame as real;
    DivMulCancel(f, fps);
    if r.frame != 0 {
      assert r.time != 0.0;
      DivOfQuotient(f, fps);
    }
  }

  /** Re-quantisation rounds a non-negative time down onto the grid by less than one frame period. */
  lemma RequantiseRoundsDown(k: Keyframe, fps: real)
    requires fps > 0.0 && k.time >= 0.0
    ensures 0.0 <= Requantise(k, fps).time <= k.time
    ensures k.time - Requantise(k, fps).time < 1.0 / fps
  {
    RequantiseParts(k, fps);
    MulNonNegative(fps, k.time);
    GridRoundsDown(k.time, fps, Trunc(fps * k.time) as real);
  }

  /** Running the normaliser twice with the same frame rate changes nothing the second time. */
  lemma RequantiseIdempotent(k: Keyframe, fps: real)
    requires fps != 0.0
    ensures Requantise(Requantise(k, fps), fps) == Requantise(k, fps)
  {
    var r := Requantise(k, fps);
    RequantisedOnGrid(k, fps);
    assert fps * r.time == r.frame as real;
    assert Trunc(r.frame as real) == r.frame;
  }

  /** Later timestamps never get earlier frames. */
  lemma RequantiseMonotone(k1: Keyframe, k2: Keyframe, fps: real)
    requires fps > 0.0 && k1.time <= k2.time
    ensures Requantise(k1, fps).frame <= Requantise(k2, fps).frame
    ensures Requantise(k1, fps).time <= Requantise(k2, fps).time
  {
    var p1, p2 := fps * k1.time, fps * k2.time;
    MulMonotone(k1.time, k2.time, fps);
    assert p1 <= p2;
    TruncMonotone(p1, p2);
    var f1, f2 := Trunc(p1), Trunc(p2);
    RequantiseParts(k1, fps);
    RequantiseParts(k2, fps);
    DivMonotone(f1 as real, f2 as real, fps);
  }

  /** A sequence whose times never decrease comes out with frames and times that never decrease. */
  lemma RequantiseAllSorted(s: seq<Keyframe>, fps: real)
    requires fps > 0.0 && TimesSorted(s)
    ensures FramesSorted(RequantiseAll(s, fps)) && TimesSorted(RequantiseAll(s, fps))
  {
    var r := RequantiseAll(s, fps);
    forall i, j | 0 <= i < j < |r|
      ensures r[i].frame <= r[j].frame && r[i].time <= r[j].time
    {
      RequantiseMonotone(s[i], s[j], fps);
    }
  }

  /** Normalising an already normalised sequence leaves it unchanged. */
  lemma RequantiseAllIdempotent(s: seq<Keyframe>, fps: real)
    requires fps != 0.0
    ensures RequantiseAll(RequantiseAll(s, fps), fps) == RequantiseAll(s, fps)
  {
    var r := RequantiseAll(s, fps);
    forall i | 0 <= i < |s|
      ensures RequantiseAll(r, fps)[i] == r[i]
    {
      RequantiseIdempotent(s[i], fps);
    }
  }

  lemma RequantiseParts(k: Keyframe, fps: real)
    requires fps != 0.0
    ensures Requantise(k, fps).frame == Trunc(fps * k.time)
    ensures Requantise(k, fps).time == Trunc(fps * k.time) as real / fps
  {
  }

  lemma GridRoundsDown(t: real, fps: real, f: real)
    requires fps > 0.0 && 0.0 <= f <= fps * t < f + 1.0
    ensures 0.0 <= f / fps <= t && t - f / fps < 1.0 / fps
  {
    var p := fps * t;
    MulDivCancel(fps, t);
    DivMonotone(f, p, fps);
    DivSub(p, f, fps);
    DivMonotoneStrict(p - f, 1.0, fps);
    DivNonNegative(f, fps);
  }

  lemma TruncMonotone(a: real, b: real)
    requires a <= b
    ensures Trunc(a) <= Trunc(b)
  {
    if 0.0 <= a {
      FloorMonotone(a, b);
    } else if b < 0.0 {
      FloorMonotone(-b, -a);
    }
  }
}
