/** The dense label synthesiser: expands one video's sparse keyframes into one YOLO label file
    per frame, then checks that the labels' frame rate agrees with the video's. */
module YoloConverter {
  import opened LabelStudio
  import opened YoloLabel

  /** The class id every box is written with (the dataset's only class, "shuttle"). */
  const ShuttleClass: int := 0

  /** The contents of one label file: empty (no object in that frame) or one box line. */
  datatype LabelFile = Empty | Box(record: YoloRecord)

  /** `np.allclose`'s tolerances. */
  datatype Tolerance = Tolerance(rtol: real, atol: real)

  const DefaultTolerance: Tolerance := Tolerance(0.00001, 0.00000001)

  datatype Error =
    | EmptySequence        // labels[0] on an empty sequence
    | FrameCountMismatch   // the video has more frames than the annotation claims
    | ZeroDivision         // frame / time with time == 0
    | FrameRateMismatch    // frame / time is not close to the video's frame rate

  /** How a conversion ends: with the frame images extracted next, or aborted. */
  datatype Outcome = ExtractImages | Abort(error: Error)

  function Abs(a: real): real { if a < 0.0 then -a else a }

  /** `np.allclose(a, b)` on two scalars. */
  predicate AllClose(a: real, b: real, tol: Tolerance)
  {
    Abs(a - b) <= tol.atol + tol.rtol * Abs(b)
  }

  /** The label directory of one video, keyed by frame index; `write_label_file` replaces the
      file of its frame. */
  class LabelDirectory {
    var files: map<int, LabelFile>

    constructor ()
      ensures files == map[]
    {
      files := map[];
    }

    method Write(frame: int, content: LabelFile)
      modifies this
      ensures files == old(files)[frame := content]
    {
      files := files[frame := content];
    }
  }

  /** What a run of consecutive frames is filled with. */
  datatype Filler =
    | Blank                                      // empty label files
    | Lerp(prev: LabelValue, next: LabelValue)   // boxes interpolated between two keyframes
    | Hold(last: LabelValue)                     // the last keyframe's box, repeated
  {
    predicate Valid()
    {
      Lerp? ==> prev.inYoloFormat == next.inYoloFormat
    }
  }

  function FillValue(f: Filler, i: int): LabelFile
    requires f.Valid()
  {
    match f
    case Blank => Empty
    case Lerp(prev, next) => Box(YoloRecordOf(Interpolate(prev, next, i), ShuttleClass))
    case Hold(last) => Box(YoloRecordOf(last, ShuttleClass))
  }

  /** The frames strictly between two consecutive keyframes: empty when the earlier one is
      disabled, interpolated otherwise. */
  function GapFiller(prev: LabelValue, next: LabelValue): (f: Filler)
    requires prev.inYoloFormat == next.inYoloFormat
    ensures f.Valid()
  {
    if !prev.enabled then Blank else Lerp(prev, next)
  }

  /** The frames after the last keyframe: empty when it is disabled, its box otherwise. */
  function TrailFiller(last: LabelValue): (f: Filler)
    ensures f.Valid()
  {
    if !last.enabled then Blank else Hold(last)
  }

  /** The frame indices lo .. hi - 1, as Python's `range(lo, hi)` yields them. */
  function FrameRange(lo: int, hi: int): (r: set<int>)
    ensures forall i :: i in r <==> lo <= i < hi
    decreases hi - lo
  {
    if hi <= lo then {} else FrameRange(lo, hi - 1) + {hi - 1}
  }

  /** The directory after writing `FillValue(f, i)` at every frame i in lo .. hi - 1. */
  function Fill(m: map<int, LabelFile>, lo: int, hi: int, f: Filler): map<int, LabelFile>
    requires f.Valid()
  {
    map i | i in m.Keys + FrameRange(lo, hi) :: if lo <= i < hi then FillValue(f, i) else m[i]
  }

  lemma FillExtend(m: map<int, LabelFile>, lo: int, hi: int, f: Filler)
    requires f.Valid() && lo <= hi
    ensures Fill(m, lo, hi + 1, f) == Fill(m, lo, hi, f)[hi := FillValue(f, hi)]
  {
    assert Fill(m, lo, hi + 1, f).Keys == Fill(m, lo, hi, f)[hi := FillValue(f, hi)].Keys;
  }

  lemma FillNothing(m: map<int, LabelFile>, lo: int, hi: int, f: Filler)
    requires f.Valid() && hi <= lo
    ensures Fill(m, lo, hi, f) == m
  {
    assert Fill(m, lo, hi, f).Keys == m.Keys;
  }

  /** Frames outside lo .. hi - 1 are left as they were. */
  lemma FillOutside(m: map<int, LabelFile>, lo: int, hi: int, f: Filler, i: int)
    requires f.Valid() && !(lo <= i < hi)
    ensures (i in Fill(m, lo, hi, f) <==> i in m) && (i in m ==> Fill(m, lo, hi, f)[i] == m[i])
  {
  }

  predicate InYolo(vs: seq<LabelValue>)
  {
    forall k :: 0 <= k < |vs| ==> vs[k].inYoloFormat
  }

  /** The label files so far and the keyframe last processed (`previous_label`). */
  datatype PassState = PassState(files: map<int, LabelFile>, prev: LabelValue)

  /** One iteration of the keyframe loop: write the keyframe at its own frame, then fill the
      frames strictly between the previous keyframe and this one. */
  function Step(s: PassState, k: LabelValue): PassState
    requires s.prev.inYoloFormat == k.inYoloFormat
  {
    var written := s.files[k.frame := Box(YoloRecordOf(k, ShuttleClass))];
    PassState(Fill(written, s.prev.frame + 1, k.frame, GapFiller(s.prev, k)), k)
  }

  /** The keyframe loop over `ks`, starting from the label files `m` and the previous label `p`. */
  function Pass(m: map<int, LabelFile>, p: LabelValue, ks: seq<LabelValue>): (s: PassState)
    requires p.inYoloFormat && InYolo(ks)
    ensures s.prev == if ks == [] then p else ks[|ks| - 1]
    decreases |ks|
  {
    if ks == [] then PassState(m, p)
    else Step(Pass(m, p, ks[..|ks| - 1]), ks[|ks| - 1])
  }

  /** Every keyframe of `s`, read into a Label and converted. */
  function ConvertAll(s: seq<Keyframe>): (r: seq<LabelValue>)
    ensures |r| == |s| && InYolo(r)
    ensures forall i :: 0 <= i < |s| ==> r[i] == Converted(s[i])
  {
    seq(|s|, i requires 0 <= i < |s| => Converted(s[i]))
  }

  /** The keyframes the loop processes, `labels[:vid_n_frames]`, each read and converted. */
  function Keyframes(sequence: seq<Keyframe>, vidNFrames: nat): (ks: seq<LabelValue>)
    ensures |ks| == Min(vidNFrames, |sequence|) && InYolo(ks)
    ensures forall j :: 0 <= j < |ks| ==> ks[j] == Converted(sequence[j])
  {
    ConvertAll(sequence[..Min(vidNFrames, |sequence|)])
  }

  /** The keyframe the frame-rate check looks at: the last of the first `vidNFrames` entries,
      or the first entry when none is processed. */
  function LastProcessed(sequence: seq<Keyframe>, vidNFrames: nat): Keyframe
    requires |sequence| > 0
  {
    sequence[if vidNFrames == 0 then 0 else Min(vidNFrames, |sequence|) - 1]
  }

  /** The frame-rate check after all labels are written. */
  function FpsCheck(last: LabelValue, vidFps: real, tol: Tolerance): Outcome
  {
    if last.time == 0.0 then Abort(ZeroDivision)
    else if AllClose(vidFps, last.frame as real / last.time, tol) then ExtractImages
    else Abort(FrameRateMismatch)
  }

  datatype Run = Run(files: map<int, LabelFile>, outcome: Outcome)

  /** The label files and the outcome of converting one video's keyframe sequence:
      the leading empty frames 1 .. first.frame - 1, the frame-count check, the keyframe loop
      over the first `vidNFrames` entries, the trailing frames up to `vidNFrames`, and the
      frame-rate check. */
  function Synthesise(files: map<int, LabelFile>, sequence: seq<Keyframe>, framesCount: int,
                      vidFps: real, vidNFrames: nat, tol: Tolerance): Run
  {
    if |sequence| == 0 then Run(files, Abort(EmptySequence))
    else
      var first := Converted(sequence[0]);
      var lead := Fill(files, 1, first.frame, Blank);
      if vidNFrames > framesCount then Run(lead, Abort(FrameCountMismatch))
      else LabelRun(lead, first, Keyframes(sequence, vidNFrames), vidFps, vidNFrames, tol)
  }

  /** What follows a passed frame-count check: the keyframe loop over `ks` from the first
      label, the trailing frames and the frame-rate check. */
  function LabelRun(lead: map<int, LabelFile>, first: LabelValue, ks: seq<LabelValue>, vidFps: real,
                    vidNFrames: nat, tol: Tolerance): Run
    requires first.inYoloFormat && InYolo(ks)
  {
    var s := Pass(lead, first, ks);
    Run(Fill(s.files, s.prev.frame + 1, vidNFrames + 1, TrailFiller(s.prev)),
        FpsCheck(s.prev, vidFps, tol))
  }

  /** The leading loop: an empty label file for every frame 1 .. firstFrame - 1. */
  method WriteLeadingFrames(dir: LabelDirectory, firstFrame: int)
    modifies dir
    ensures dir.files == Fill(old(dir.files), 1, firstFrame, Blank)
  {
    ghost var m := dir.files;
    var i := 1;
    while i < firstFrame
      invariant 1 <= i && (i <= firstFrame || i == 1)
      invariant dir.files == Fill(m, 1, i, Blank)
    {
      dir.Write(i, Empty);
      FillExtend(m, 1, i, Blank);
      i := i + 1;
    }
    if i == 1 {
      FillNothing(m, 1, firstFrame, Blank);
    }
  }

  /** The frames strictly between `previous` and `current`: the choice between empty and
      interpolated is made on `previous.enabled` alone. */
  method WriteGap(dir: LabelDirectory, previous: Label, current: Label)
    requires previous.inYoloFormat == current.inYoloFormat
    modifies dir
    ensures dir.files == Fill(old(dir.files), previous.frame + 1, current.frame,
                              GapFiller(previous.Value(), current.Value()))
  {
    ghost var m := dir.files;
    var before, after := previous.Value(), current.Value();
    ghost var gap := GapFiller(before, after);
    var lo, hi := before.frame + 1, after.frame;
    var i := lo;
    while i < hi
      invariant lo <= i && (i <= hi || i == lo)
      invariant dir.files == Fill(m, lo, i, gap)
    {
      var content := Empty;
      if before.enabled {
        // a fresh Label in YOLO form, which get_yolo_string only formats
        content := Box(YoloRecordOf(Interpolate(before, after, i), ShuttleClass));
      }
      FillExtend(m, lo, i, gap);
      dir.Write(i, content);
      i := i + 1;
    }
    if i == lo {
      FillNothing(m, lo, hi, gap);
    }
  }

  /** The trailing loop: frames last.frame + 1 .. vidNFrames get empty files or the last box. */
  method WriteTrailingFrames(dir: LabelDirectory, previous: Label, vidNFrames: nat)
    requires previous.inYoloFormat
    modifies dir, previous
    ensures previous.Value() == old(previous.Value())
    ensures dir.files == Fill(old(dir.files), old(previous.frame) + 1, vidNFrames + 1,
                              TrailFiller(old(previous.Value())))
  {
    ghost var m := dir.files;
    ghost var last := previous.Value();
    ghost var trail := TrailFiller(last);
    var lo, hi := previous.frame + 1, vidNFrames + 1;
    var i := lo;
    while i < hi
      invariant lo <= i && (i <= hi || i == lo)
      invariant previous.Value() == last
      invariant dir.files == Fill(m, lo, i, trail)
    {
      var content := Empty;
      if previous.enabled {
        var line := previous.GetYoloString(ShuttleClass);
        content := Box(line);
      }
      assert content == FillValue(trail, i);
      FillExtend(m, lo, i, trail);
      dir.Write(i, content);
      i := i + 1;
    }
    if i == lo {
      FillNothing(m, lo, hi, trail);
    }
  }

  /** One iteration of the keyframe loop: read and convert `keyframe`, write its box at its
      frame, then fill the gap after `previous`; returns the new `previous_label`. */
  method WriteKeyframe(dir: LabelDirectory, previous: Label, keyframe: Keyframe)
      returns (current: Label)
    requires previous.inYoloFormat
    modifies dir
    ensures fresh(current) && current.Value() == Converted(keyframe)
    ensures PassState(dir.files, current.Value()) ==
            Step(PassState(old(dir.files), previous.Value()), Converted(keyframe))
  {
    current := new Label(keyframe);
    current.ConvertToYolo();
    var line := current.GetYoloString(ShuttleClass);
    dir.Write(current.frame, Box(line));
    WriteGap(dir, previous, current);
  }

  /** The keyframe loop over `labels[:vid_n_frames]` (given as `keyframes`), starting from
      `first` as `previous_label`; returns the final `previous_label`. */
  method WriteKeyframes(dir: LabelDirectory, first: Label, keyframes: seq<Keyframe>)
      returns (previous: Label)
    requires first.inYoloFormat
    modifies dir
    ensures previous == first || fresh(previous)
    ensures previous.inYoloFormat
    ensures PassState(dir.files, previous.Value()) == Pass(old(dir.files), first.Value(), ConvertAll(keyframes))
  {
    ghost var lead := dir.files;
    ghost var p := first.Value();
    ghost var ks := ConvertAll(keyframes);
    previous := first;
    var j := 0;
    while j < |keyframes|
      invariant 0 <= j <= |keyframes|
      invariant (previous == first || fresh(previous)) && previous.inYoloFormat
      invariant PassState(dir.files, previous.Value()) == Pass(lead, p, ks[..j])
      modifies dir
    {
      PassSnoc(lead, p, ks, j);
      previous := WriteKeyframe(dir, previous, keyframes[j]);
      j := j + 1;
    }
    assert ks[..|keyframes|] == ks;
  }

  /** Running the loop over one more keyframe is one more `Step`. */
  lemma PassSnoc(m: map<int, LabelFile>, p: LabelValue, ks: seq<LabelValue>, j: int)
    requires p.inYoloFormat && InYolo(ks) && 0 <= j < |ks|
    ensures InYolo(ks[..j]) && InYolo(ks[..j + 1])
    ensures Pass(m, p, ks[..j + 1]) == Step(Pass(m, p, ks[..j]), ks[j])
  {
    assert ks[..j + 1][..j] == ks[..j];
  }

  /** `convert_labels` for one video, with the probed frame rate and frame count as inputs and
      the video's label directory as `dir`. */
  method ConvertLabels(dir: LabelDirectory, sequence: seq<Keyframe>, framesCount: int,
                       vidFps: real, vidNFrames: nat, tol: Tolerance) returns (outcome: Outcome)
    modifies dir
    ensures Run(dir.files, outcome) == Synthesise(old(dir.files), sequence, framesCount, vidFps, vidNFrames, tol)
  {
    if |sequence| == 0 {
      return Abort(EmptySequence);
    }
    var previous := new Label(sequence[0]);
    previous.ConvertToYolo();

    // frames before the first keyframe get empty files
    WriteLeadingFrames(dir, previous.frame);

    if vidNFrames > framesCount {
      return Abort(FrameCountMismatch);
    }
    var n := Min(vidNFrames, |sequence|);
    outcome := WriteLabels(dir, previous, sequence[..n], vidFps, vidNFrames, tol);
  }

  /** The part of `convert_labels` after the frame-count check: the loop over `keyframes`
      (`labels[:vid_n_frames]`) from the first entry, already read and converted as `previous`,
      then the trailing frames and the frame-rate check. */
  method WriteLabels(dir: LabelDirectory, previous: Label, keyframes: seq<Keyframe>, vidFps: real,
                     vidNFrames: nat, tol: Tolerance) returns (outcome: Outcome)
    requires previous.inYoloFormat
    modifies dir, previous
    ensures previous.Value() == old(previous.Value())
    ensures Run(dir.files, outcome) ==
            LabelRun(old(dir.files), old(previous.Value()), ConvertAll(keyframes), vidFps, vidNFrames, tol)
  {
    ghost var m, p, ks := dir.files, previous.Value(), ConvertAll(keyframes);
    ghost var s := Pass(m, p, ks);
    var last := WriteKeyframes(dir, previous, keyframes);
    assert dir.files == s.files && last.Value() == s.prev;
    WriteTrailingFrames(dir, last, vidNFrames);
    ghost var spec := LabelRun(m, p, ks, vidFps, vidNFrames, tol);
    assert spec.files == dir.files && spec.outcome == FpsCheck(s.prev, vidFps, tol);
    assert last.frame == s.prev.frame && last.time == s.prev.time;

    if last.time == 0.0 {
      return Abort(ZeroDivision);
    }
    var labelFps := last.frame as real / last.time;
    if !AllClose(vidFps, labelFps, tol) {
      return Abort(FrameRateMismatch);
    }
    return ExtractImages;
  }

  // Properties of the keyframe loop.

  /** A label file that a run of writes leaves as it found it. */
  predicate Untouched(before: map<int, LabelFile>, after: map<int, LabelFile>, i: int)
  {
    (i in after <==> i in before) && (i in before ==> after[i] == before[i])
  }

  /** `p` is at or before every keyframe and the keyframes' frames never decrease. */
  predicate OrderedFrom(p: LabelValue, ks: seq<LabelValue>)
  {
    (forall j :: 0 <= j < |ks| ==> p.frame <= ks[j].frame) &&
    (forall a, b :: 0 <= a < b < |ks| ==> ks[a].frame <= ks[b].frame)
  }

  /** The keyframe before `ks[j]` in the loop: the starting label for j == 0. */
  function SegmentStart(p: LabelValue, ks: seq<LabelValue>, j: int): LabelValue
    requires 0 <= j < |ks|
  {
    if j == 0 then p else ks[j - 1]
  }

  lemma StepAt(s: PassState, k: LabelValue, i: int)
    requires s.prev.inYoloFormat == k.inYoloFormat
    ensures var t := Step(s, k).files;
      (i in t <==> i in s.files || i == k.frame || s.prev.frame < i < k.frame) &&
      (s.prev.frame < i < k.frame ==> t[i] == FillValue(GapFiller(s.prev, k), i)) &&
      (i == k.frame ==> t[i] == Box(YoloRecordOf(k, ShuttleClass))) &&
      (i != k.frame && !(s.prev.frame < i < k.frame) && i in s.files ==> t[i] == s.files[i])
  {
  }

  lemma OrderedPrefix(p: LabelValue, ks: seq<LabelValue>)
    requires ks != [] && OrderedFrom(p, ks) && p.inYoloFormat && InYolo(ks)
    ensures OrderedFrom(p, ks[..|ks| - 1]) && InYolo(ks[..|ks| - 1])
    ensures Pass(map[], p, ks[..|ks| - 1]).prev.frame <= ks[|ks| - 1].frame
  {
  }

  /** Frames before the starting label and after the last keyframe are not written. */
  lemma {:induction false} PassOutside(m: map<int, LabelFile>, p: LabelValue, ks: seq<LabelValue>, i: int)
    requires p.inYoloFormat && InYolo(ks) && OrderedFrom(p, ks)
    requires i < p.frame || Pass(m, p, ks).prev.frame < i
    ensures Untouched(m, Pass(m, p, ks).files, i)
  {
    if ks != [] {
      var ks' := ks[..|ks| - 1];
      OrderedPrefix(p, ks);
      PassOutside(m, p, ks', i);
      StepAt(Pass(m, p, ks'), ks[|ks| - 1], i);
    }
  }

  /** The loop never removes a label file. */
  lemma {:induction false} PassGrows(m: map<int, LabelFile>, p: LabelValue, ks: seq<LabelValue>)
    requires p.inYoloFormat && InYolo(ks)
    ensures m.Keys <= Pass(m, p, ks).files.Keys
  {
    if ks != [] {
      var ks' := ks[..|ks| - 1];
      assert InYolo(ks');
      PassGrows(m, p, ks');
      forall i | i in m ensures i in Pass(m, p, ks).files {
        StepAt(Pass(m, p, ks'), ks[|ks| - 1], i);
      }
    }
  }

  /** Every frame after the starting label up to the last keyframe, and the first keyframe's
      frame, get a label file. */
  lemma {:induction false} PassCovers(m: map<int, LabelFile>, p: LabelValue, ks: seq<LabelValue>, i: int)
    requires p.inYoloFormat && InYolo(ks) && OrderedFrom(p, ks)
    requires (p.frame < i <= Pass(m, p, ks).prev.frame) || (ks != [] && i == ks[0].frame)
    ensures i in Pass(m, p, ks).files
  {
    if ks != [] {
      var ks' := ks[..|ks| - 1];
      var s' := Pass(m, p, ks');
      OrderedPrefix(p, ks);
      if ks' != [] && (i == ks[0].frame || p.frame < i <= s'.prev.frame) {
        assert ks'[0] == ks[0];
        PassCovers(m, p, ks', i);
      }
      StepAt(s', ks[|ks| - 1], i);
    }
  }

  /** A keyframe not followed by another at the same frame keeps its own box at its frame. */
  lemma {:induction false} PassKeyframe(m: map<int, LabelFile>, p: LabelValue, ks: seq<LabelValue>, j: int)
    requires p.inYoloFormat && InYolo(ks) && OrderedFrom(p, ks)
    requires 0 <= j < |ks| && (j == |ks| - 1 || ks[j].frame != ks[j + 1].frame)
    ensures ks[j].frame in Pass(m, p, ks).files
    ensures Pass(m, p, ks).files[ks[j].frame] == Box(YoloRecordOf(ks[j], ShuttleClass))
  {
    var ks' := ks[..|ks| - 1];
    var s' := Pass(m, p, ks');
    OrderedPrefix(p, ks);
    if j < |ks| - 1 {
      PassKeyframe(m, p, ks', j);
      assert ks[j].frame < ks[|ks| - 1].frame;
      assert ks[j].frame <= s'.prev.frame;
    }
    StepAt(s', ks[|ks| - 1], ks[j].frame);
  }

  /** Frames strictly between two consecutive keyframes hold what the earlier one's policy gives. */
  lemma {:induction false} PassGap(m: map<int, LabelFile>, p: LabelValue, ks: seq<LabelValue>, j: int, i: int)
    requires p.inYoloFormat && InYolo(ks) && OrderedFrom(p, ks)
    requires 0 <= j < |ks| && SegmentStart(p, ks, j).frame < i < ks[j].frame
    ensures i in Pass(m, p, ks).files
    ensures Pass(m, p, ks).files[i] == FillValue(GapFiller(SegmentStart(p, ks, j), ks[j]), i)
  {
    var ks' := ks[..|ks| - 1];
    var s' := Pass(m, p, ks');
    OrderedPrefix(p, ks);
    if j < |ks| - 1 {
      assert SegmentStart(p, ks', j) == SegmentStart(p, ks, j);
      PassGap(m, p, ks', j, i);
      assert ks[j].frame <= s'.prev.frame;
    }
    StepAt(s', ks[|ks| - 1], i);
  }

  // Properties of the whole conversion of one video.

  lemma OrderedKeyframes(sequence: seq<Keyframe>, vidNFrames: nat)
    requires |sequence| > 0 && FramesSorted(sequence)
    ensures OrderedFrom(Converted(sequence[0]), Keyframes(sequence, vidNFrames))
  {
  }

  /** The loop ends with the last processed keyframe as `previous_label`. */
  lemma PassEndsAtLastProcessed(m: map<int, LabelFile>, sequence: seq<Keyframe>, vidNFrames: nat)
    requires |sequence| > 0
    ensures Pass(m, Converted(sequence[0]), Keyframes(sequence, vidNFrames)).prev
            == Converted(LastProcessed(sequence, vidNFrames))
  {
  }

  /** An empty sequence aborts before anything is written. */
  lemma EmptySequenceAborts(files: map<int, LabelFile>, framesCount: int, vidFps: real,
                            vidNFrames: nat, tol: Tolerance)
    ensures Synthesise(files, [], framesCount, vidFps, vidNFrames, tol) == Run(files, Abort(EmptySequence))
  {
  }

  /** Every frame 1 .. first.frame - 1 gets an empty label file, whatever the first keyframe's
      `enabled`, and on either outcome of the frame-count check. */
  lemma LeadingFramesEmpty(files: map<int, LabelFile>, sequence: seq<Keyframe>, framesCount: int,
                           vidFps: real, vidNFrames: nat, tol: Tolerance, i: int)
    requires |sequence| > 0 && FramesSorted(sequence)
    requires 1 <= i < sequence[0].frame
    ensures var r := Synthesise(files, sequence, framesCount, vidFps, vidNFrames, tol);
      i in r.files && r.files[i] == Empty
  {
    if vidNFrames <= framesCount {
      var first := Converted(sequence[0]);
      var lead := Fill(files, 1, first.frame, Blank);
      OrderedKeyframes(sequence, vidNFrames);
      PassOutside(lead, first, Keyframes(sequence, vidNFrames), i);
    }
  }

  /** A frame count larger than the annotation's aborts the conversion before any keyframe is
      written: the only files written are the leading empty ones. */
  lemma FrameCountMismatchAborts(files: map<int, LabelFile>, sequence: seq<Keyframe>, framesCount: int,
                                 vidFps: real, vidNFrames: nat, tol: Tolerance)
    requires |sequence| > 0 && vidNFrames > framesCount
    ensures var r := Synthesise(files, sequence, framesCount, vidFps, vidNFrames, tol);
      r.outcome == Abort(FrameCountMismatch) &&
      files.Keys <= r.files.Keys &&
      forall i :: i in r.files ==>
        (1 <= i < sequence[0].frame && r.files[i] == Empty) || (i in files && r.files[i] == files[i])
  {
  }

  /** Each processed keyframe that is not followed by one at the same frame is written at its own
      frame as its converted box; of several keyframes at one frame, the last wins. */
  lemma KeyframeAtItsFrame(files: map<int, LabelFile>, sequence: seq<Keyframe>, framesCount: int,
                           vidFps: real, vidNFrames: nat, tol: Tolerance, j: int)
    requires FramesSorted(sequence) && vidNFrames <= framesCount
    requires 0 <= j < Min(vidNFrames, |sequence|)
    requires j == Min(vidNFrames, |sequence|) - 1 || sequence[j].frame != sequence[j + 1].frame
    ensures var r := Synthesise(files, sequence, framesCount, vidFps, vidNFrames, tol);
      sequence[j].frame in r.files &&
      r.files[sequence[j].frame] == Box(YoloRecordOf(Converted(sequence[j]), ShuttleClass))
  {
    var first := Converted(sequence[0]);
    var lead := Fill(files, 1, first.frame, Blank);
    var ks := Keyframes(sequence, vidNFrames);
    OrderedKeyframes(sequence, vidNFrames);
    PassKeyframe(lead, first, ks, j);
    assert ks[j].frame <= ks[|ks| - 1].frame;
  }

  /** Frames strictly between consecutive processed keyframes are empty when the earlier one is
      disabled and hold the interpolated box otherwise; the later one's `enabled` plays no part. */
  lemma GapBetweenKeyframes(files: map<int, LabelFile>, sequence: seq<Keyframe>, framesCount: int,
                            vidFps: real, vidNFrames: nat, tol: Tolerance, j: int, i: int)
    requires FramesSorted(sequence) && vidNFrames <= framesCount
    requires 0 <= j && j + 1 < Min(vidNFrames, |sequence|)
    requires sequence[j].frame < i < sequence[j + 1].frame
    ensures var r := Synthesise(files, sequence, framesCount, vidFps, vidNFrames, tol);
      i in r.files &&
      r.files[i] == if sequence[j].enabled
                    then Box(YoloRecordOf(Interpolate(Converted(sequence[j]), Converted(sequence[j + 1]), i), ShuttleClass))
                    else Empty
  {
    var first := Converted(sequence[0]);
    var lead := Fill(files, 1, first.frame, Blank);
    var ks := Keyframes(sequence, vidNFrames);
    var s := Pass(lead, first, ks);
    OrderedKeyframes(sequence, vidNFrames);
    PassGap(lead, first, ks, j + 1, i);
    assert SegmentStart(first, ks, j + 1) == Converted(sequence[j]);
    assert ks[j + 1].frame <= s.prev.frame;
    FillOutside(s.files, s.prev.frame + 1, vidNFrames + 1, TrailFiller(s.prev), i);
  }

  /** Frames after the last processed keyframe up to and including vidNFrames are empty when it
      is disabled and repeat its box unchanged otherwise. */
  lemma TrailingFrames(files: map<int, LabelFile>, sequence: seq<Keyframe>, framesCount: int,
                       vidFps: real, vidNFrames: nat, tol: Tolerance, i: int)
    requires |sequence| > 0 && vidNFrames <= framesCount
    requires Converted(LastProcessed(sequence, vidNFrames)).frame < i <= vidNFrames
    ensures var r := Synthesise(files, sequence, framesCount, vidFps, vidNFrames, tol);
      var last := Converted(LastProcessed(sequence, vidNFrames));
      i in r.files &&
      r.files[i] == if last.enabled then Box(YoloRecord(ShuttleClass, last.x, last.y, last.width, last.height)) else Empty
  {
    PassEndsAtLastProcessed(Fill(files, 1, sequence[0].frame, Blank), sequence, vidNFrames);
  }

  /** With frames in order, every frame 1 .. vidNFrames gets a label file. */
  lemma AllFramesCovered(files: map<int, LabelFile>, sequence: seq<Keyframe>, framesCount: int,
                         vidFps: real, vidNFrames: nat, tol: Tolerance)
    requires |sequence| > 0 && FramesSorted(sequence) && vidNFrames <= framesCount
    ensures var r := Synthesise(files, sequence, framesCount, vidFps, vidNFrames, tol);
      forall i :: 1 <= i <= vidNFrames ==> i in r.files
  {
    var r := Synthesise(files, sequence, framesCount, vidFps, vidNFrames, tol);
    forall i | 1 <= i <= vidNFrames
      ensures i in r.files
    {
      FrameCovered(files, sequence, framesCount, vidFps, vidNFrames, tol, i);
    }
  }

  lemma FrameCovered(files: map<int, LabelFile>, sequence: seq<Keyframe>, framesCount: int,
                     vidFps: real, vidNFrames: nat, tol: Tolerance, i: int)
    requires |sequence| > 0 && FramesSorted(sequence) && vidNFrames <= framesCount
    requires 1 <= i <= vidNFrames
    ensures i in Synthesise(files, sequence, framesCount, vidFps, vidNFrames, tol).files
  {
    var first := Converted(sequence[0]);
    var lead := Fill(files, 1, first.frame, Blank);
    var ks := Keyframes(sequence, vidNFrames);
    var s := Pass(lead, first, ks);
    OrderedKeyframes(sequence, vidNFrames);
    if i < first.frame {
      assert i in lead;
      PassGrows(lead, first, ks);
      assert i in s.files;
    } else if i <= s.prev.frame {
      assert ks != [] && ks[0] == first;
      PassCovers(lead, first, ks, i);
    }
  }

  /** With frames in order, nothing is written below frame 1 and the first keyframe, nor above
      vidNFrames and the last processed keyframe; in particular frame 0 is not written when the
      first keyframe is at frame 1 or later. */
  lemma WritesConfined(files: map<int, LabelFile>, sequence: seq<Keyframe>, framesCount: int,
                       vidFps: real, vidNFrames: nat, tol: Tolerance, i: int)
    requires |sequence| > 0 && FramesSorted(sequence)
    requires (i < 1 && i < sequence[0].frame) ||
             (vidNFrames < i && LastProcessed(sequence, vidNFrames).frame < i)
    ensures Untouched(files, Synthesise(files, sequence, framesCount, vidFps, vidNFrames, tol).files, i)
  {
    var first := Converted(sequence[0]);
    var lead := Fill(files, 1, first.frame, Blank);
    var ks := Keyframes(sequence, vidNFrames);
    OrderedKeyframes(sequence, vidNFrames);
    PassEndsAtLastProcessed(lead, sequence, vidNFrames);
    if vidNFrames <= framesCount {
      PassOutside(lead, first, ks, i);
    }
  }

  /** After the frame-count check passes, the conversion goes on to image extraction exactly
      when the last processed keyframe's frame / time is close to the video's frame rate; a zero
      time aborts with a division by zero. */
  lemma FrameRateCheck(files: map<int, LabelFile>, sequence: seq<Keyframe>, framesCount: int,
                       vidFps: real, vidNFrames: nat, tol: Tolerance)
    requires |sequence| > 0 && vidNFrames <= framesCount
    ensures var r := Synthesise(files, sequence, framesCount, vidFps, vidNFrames, tol);
      var last := LastProcessed(sequence, vidNFrames);
      (r.outcome == ExtractImages <==> last.time != 0.0 && AllClose(vidFps, last.frame as real / last.time, tol)) &&
      (r.outcome == Abort(ZeroDivision) <==> last.time == 0.0) &&
      (r.outcome == Abort(FrameRateMismatch) <==>
         last.time != 0.0 && !AllClose(vidFps, last.frame as real / last.time, tol))
  {
    PassEndsAtLastProcessed(Fill(files, 1, sequence[0].frame, Blank), sequence, vidNFrames);
  }

  /** Only the first vidNFrames entries of the sequence (at least the first one) take part:
      dropping the rest changes neither the label files nor the outcome. */
  lemma LaterEntriesIgnored(files: map<int, LabelFile>, sequence: seq<Keyframe>, framesCount: int,
                            vidFps: real, vidNFrames: nat, tol: Tolerance)
    requires |sequence| > 0
    ensures var kept := sequence[..if vidNFrames == 0 then 1 else Min(vidNFrames, |sequence|)];
      Synthesise(files, kept, framesCount, vidFps, vidNFrames, tol)
      == Synthesise(files, sequence, framesCount, vidFps, vidNFrames, tol)
  {
    var kept := sequence[..if vidNFrames == 0 then 1 else Min(vidNFrames, |sequence|)];
    assert kept[0] == sequence[0];
    assert Keyframes(kept, vidNFrames) == Keyframes(sequence, vidNFrames);
  }
}
