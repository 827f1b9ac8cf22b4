/** The keyframe records of a Label Studio video-rectangle annotation, as both converters read them. */
module LabelStudio {

  /** One entry of an annotation's `sequence`: a box in percent of the frame with (x, y) at its
      top-left corner, the frame index it was authored at, whether the object is visible from
      here on, and the timestamp of that frame in seconds. */
  datatype Keyframe = Keyframe(
    x: real,
    y: real,
    width: real,
    height: real,
    rotation: real,
    frame: int,
    enabled: bool,
    time: real)

  /** The data-model invariant of an annotation sequence: frame indices never decrease. */
  predicate FramesSorted(s: seq<Keyframe>)
  {
    forall i, j :: 0 <= i < j < |s| ==> s[i].frame <= s[j].frame
  }

  /** Timestamps never decrease. */
  predicate TimesSorted(s: seq<Keyframe>)
  {
    forall i, j :: 0 <= i < j < |s| ==> s[i].time <= s[j].time
  }

  function Min(a: int, b: int): int
  {
    if a <= b then a else b
  }
}
