/** The converter's `Label` record: a box that is first in Label Studio's form (percent of the
    frame, top-left corner) and, after conversion, in YOLO's form (fraction of the frame, centre),
    with a flag saying which form it holds. */
module YoloLabel {
  import opened LabelStudio
  import opened RealArith

  /** The values of a Label's fields. */
  datatype LabelValue = LabelValue(
    x: real,
    y: real,
    width: real,
    height: real,
    rotation: real,
    frame: int,
    enabled: bool,
    time: real,
    inYoloFormat: bool)

  /** One line of a YOLO label file: `<class id> <x> <y> <width> <height>`. */
  datatype YoloRecord = YoloRecord(classId: int, x: real, y: real, width: real, height: real)

  /** The value of `Label(**label_dict)`: the keyframe's fields, not yet converted. */
  function FromKeyframe(k: Keyframe): (v: LabelValue)
    ensures !v.inYoloFormat
    ensures v.frame == k.frame && v.enabled == k.enabled && v.time == k.time
  {
    LabelValue(k.x, k.y, k.width, k.height, k.rotation, k.frame, k.enabled, k.time, false)
  }

  /** What `convert_to_yolo` makes of a label's fields. It is not guarded by the flag. */
  function ToYolo(v: LabelValue): (r: LabelValue)
    ensures r.inYoloFormat
    // sizes go from percent to fractions
    ensures r.width * 100.0 == v.width && r.height * 100.0 == v.height
    // the centre form puts the left/top edge and the right/bottom edge where the corner form had them
    ensures 100.0 * (r.x - r.width / 2.0) == v.x && 100.0 * (r.x + r.width / 2.0) == v.x + v.width
    ensures 100.0 * (r.y - r.height / 2.0) == v.y && 100.0 * (r.y + r.height / 2.0) == v.y + v.height
    ensures r.rotation == v.rotation && r.frame == v.frame && r.enabled == v.enabled && r.time == v.time
  {
    var width := v.width / 100.0;
    var height := v.height / 100.0;
    v.(x := v.x / 100.0 + width / 2.0, y := v.y / 100.0 + height / 2.0,
       width := width, height := height, inYoloFormat := true)
  }

  /** A keyframe as the synthesiser uses it: read into a Label and converted. */
  function Converted(k: Keyframe): (v: LabelValue)
    ensures v.inYoloFormat && v.frame == k.frame && v.enabled == k.enabled && v.time == k.time
  {
    ToYolo(FromKeyframe(k))
  }

  /** The fields after `assert_yolo_format`: converted once, and only if not converted yet. */
  function Normalised(v: LabelValue): (r: LabelValue)
    ensures r.inYoloFormat
  {
    if v.inYoloFormat then v else ToYolo(v)
  }

  /** The record `get_yolo_string(class_id)` formats, for a label in either form. */
  function YoloRecordOf(v: LabelValue, classId: int): (r: YoloRecord)
  {
    var n := Normalised(v);
    YoloRecord(classId, n.x, n.y, n.width, n.height)
  }

  /** The Label Studio form recovered from the YOLO form; ToYolo loses nothing. */
  ghost function FromYolo(v: LabelValue): (r: LabelValue)
  {
    v.(x := (v.x - v.width / 2.0) * 100.0, y := (v.y - v.height / 2.0) * 100.0,
       width := v.width * 100.0, height := v.height * 100.0, inYoloFormat := false)
  }

  lemma FromYoloInvertsToYolo(v: LabelValue)
    ensures !v.inYoloFormat ==> FromYolo(ToYolo(v)) == v
    ensures v.inYoloFormat ==> ToYolo(FromYolo(v)) == v
  {
  }

  /** assert_yolo_format is idempotent, and a converted label is left alone. */
  lemma NormalisedIdempotent(v: LabelValue)
    ensures Normalised(Normalised(v)) == Normalised(v)
    ensures v.inYoloFormat ==> Normalised(v) == v
    ensures YoloRecordOf(Normalised(v), 0) == YoloRecordOf(v, 0)
  {
  }

  /** convert_to_yolo itself is not idempotent: a second call shrinks a non-empty box again. */
  lemma ToYoloTwiceDiffers(v: LabelValue)
    requires v.width != 0.0
    ensures ToYolo(ToYolo(v)) != ToYolo(v)
  {
    assert ToYolo(ToYolo(v)).width * 100.0 == ToYolo(v).width;
  }

  /** The Python dataclass, whose methods convert it in place. */
  class Label {
    var x: real
    var y: real
    var width: real
    var height: real
    var rotation: real
    var frame: int
    var enabled: bool
    var time: real
    var inYoloFormat: bool

    function Value(): LabelValue
      reads this
    {
      LabelValue(x, y, width, height, rotation, frame, enabled, time, inYoloFormat)
    }

    /** `Label(**label_dict)`: in_yolo_format defaults to False. */
    constructor (k: Keyframe)
      ensures Value() == FromKeyframe(k)
    {
      x, y, width, height, rotation := k.x, k.y, k.width, k.height, k.rotation;
      frame, enabled, time := k.frame, k.enabled, k.time;
      inYoloFormat := false;
    }

    method ConvertToYolo()
      modifies this
      ensures Value() == ToYolo(old(Value()))
    {
      inYoloFormat := true;
      // percent of the frame becomes a fraction of it
      x := x / 100.0;
      y := y / 100.0;
      width := width / 100.0;
      height := height / 100.0;
      // the reference point moves from the corner to the middle of the box
      x := x + width / 2.0;
      y := y + height / 2.0;
    }

    method AssertYoloFormat()
      modifies this
      ensures Value() == Normalised(old(Value()))
    {
      if !inYoloFormat {
        ConvertToYolo();
      }
    }

    method GetYoloString(objectId: int) returns (r: YoloRecord)
      modifies this
      ensures Value() == Normalised(old(Value()))
      ensures r == YoloRecord(objectId, x, y, width, height)
      ensures r == YoloRecordOf(old(Value()), objectId)
    {
      AssertYoloFormat();
      r := YoloRecord(objectId, x, y, width, height);
    }
  }

  function Minimum(a: real, b: real): real { if a <= b then a else b }
  function Maximum(a: real, b: real): real { if a <= b then b else a }

  /** numpy's `interp(at, [f1, f2], [v1, v2])`, in the order numpy's two-point search decides:
      right of f2 gives v2, left of f1 gives v1, exactly f2 gives v2, otherwise the line from
      (f1, v1) with slope (v2 - v1) / (f2 - f1). */
  function Interp(at: int, f1: int, f2: int, v1: real, v2: real): real
  {
    if at > f2 then v2
    else if at < f1 then v1
    else if at == f2 then v2
    else v1 + (v2 - v1) / (f2 - f1) as real * (at - f1) as real
  }

  /** What the interpolation means: the end values outside and at the ends of the interval,
      a value between them inside, and there the weighted mean of the two end values. */
  lemma InterpSpec(at: int, f1: int, f2: int, v1: real, v2: real)
    ensures var r := Interp(at, f1, f2, v1, v2);
      (f1 < f2 && at <= f1 ==> r == v1) &&
      (f1 <= f2 && f2 <= at ==> r == v2) &&
      (f1 <= at <= f2 ==> Minimum(v1, v2) <= r <= Maximum(v1, v2)) &&
      (f1 < at < f2 ==> r * (f2 - f1) as real == v1 * (f2 - at) as real + v2 * (at - f1) as real)
  {
    if f1 <= at < f2 {
      InterpInside(at, f1, f2, v1, v2);
    }
  }

  lemma InterpInside(at: int, f1: int, f2: int, v1: real, v2: real)
    requires f1 <= at < f2
    ensures var r := v1 + (v2 - v1) / (f2 - f1) as real * (at - f1) as real;
      Minimum(v1, v2) <= r <= Maximum(v1, v2) &&
      r * (f2 - f1) as real == v1 * (f2 - at) as real + v2 * (at - f1) as real
  {
    var d := (f2 - f1) as real;
    var s := (at - f1) as real / d;
    assert 0.0 <= s < 1.0 by { FractionInUnit((at - f1) as real, d); }
    assert (v2 - v1) / d * (at - f1) as real == (v2 - v1) * s;
    ScaledBetween(v1, v2, s);
    assert s * d == (at - f1) as real;
  }

  lemma FractionInUnit(a: real, d: real)
    requires 0.0 <= a < d
    ensures 0.0 <= a / d < 1.0
  {
  }

  lemma ScaledBetween(v1: real, v2: real, s: real)
    requires 0.0 <= s <= 1.0
    ensures Minimum(v1, v2) <= v1 + (v2 - v1) * s <= Maximum(v1, v2)
  {
    var t := (v2 - v1) * s;
    if v1 <= v2 {
      MulNonNegative(v2 - v1, s);
      MulNonNegative(v2 - v1, 1.0 - s);
      assert (v2 - v1) * (1.0 - s) == (v2 - v1) - t;
    } else {
      MulNonNegative(v1 - v2, s);
      MulNonNegative(v1 - v2, 1.0 - s);
      assert (v1 - v2) * s == -t;
      assert (v1 - v2) * (1.0 - s) == (v1 - v2) + t;
    }
  }

  /** `interpolate_labels`: every box field, the rotation and the time are interpolated on the
      frame index; the result sits at `at`, is not enabled, and is flagged as YOLO form whatever
      the form of its inputs. The source asserts that both inputs share a form. */
  function Interpolate(l1: LabelValue, l2: LabelValue, at: int): (r: LabelValue)
    requires l1.inYoloFormat == l2.inYoloFormat
    ensures r.frame == at && !r.enabled && r.inYoloFormat
  {
    LabelValue(
      Interp(at, l1.frame, l2.frame, l1.x, l2.x),
      Interp(at, l1.frame, l2.frame, l1.y, l2.y),
      Interp(at, l1.frame, l2.frame, l1.width, l2.width),
      Interp(at, l1.frame, l2.frame, l1.height, l2.height),
      Interp(at, l1.frame, l2.frame, l1.rotation, l2.rotation),
      at,
      false,
      Interp(at, l1.frame, l2.frame, l1.time, l2.time),
      true)
  }

  /** Between two keyframes each interpolated field lies between its end values, and at the end
      frames it is the end value. */
  lemma InterpolateBetweenEnds(l1: LabelValue, l2: LabelValue, at: int)
    requires l1.inYoloFormat == l2.inYoloFormat && l1.frame < l2.frame
    ensures var r := Interpolate(l1, l2, at);
      l1.frame <= at <= l2.frame ==>
        Minimum(l1.x, l2.x) <= r.x <= Maximum(l1.x, l2.x) &&
        Minimum(l1.y, l2.y) <= r.y <= Maximum(l1.y, l2.y) &&
        Minimum(l1.width, l2.width) <= r.width <= Maximum(l1.width, l2.width) &&
        Minimum(l1.height, l2.height) <= r.height <= Maximum(l1.height, l2.height) &&
        Minimum(l1.rotation, l2.rotation) <= r.rotation <= Maximum(l1.rotation, l2.rotation) &&
        Minimum(l1.time, l2.time) <= r.time <= Maximum(l1.time, l2.time)
    ensures var r := Interpolate(l1, l2, l1.frame);
      r.x == l1.x && r.y == l1.y && r.width == l1.width && r.height == l1.height &&
      r.rotation == l1.rotation && r.time == l1.time
    ensures var r := Interpolate(l1, l2, l2.frame);
      r.x == l2.x && r.y == l2.y && r.width == l2.width && r.height == l2.height &&
      r.rotation == l2.rotation && r.time == l2.time
  {
    var f1, f2 := l1.frame, l2.frame;
    InterpSpec(at, f1, f2, l1.x, l2.x);
    InterpSpec(at, f1, f2, l1.y, l2.y);
    InterpSpec(at, f1, f2, l1.width, l2.width);
    InterpSpec(at, f1, f2, l1.height, l2.height);
    InterpSpec(at, f1, f2, l1.rotation, l2.rotation);
    InterpSpec(at, f1, f2, l1.time, l2.time);
  }

  /** Two keyframes four frames apart with x = 0.2 and x = 0.6: the midpoint frame gets 0.4 and
      the first frame after the start gets 0.3. */
  lemma InterpolateExample(l1: LabelValue, l2: LabelValue)
    requires l1.inYoloFormat && l2.inYoloFormat
    requires l1.frame == 0 && l2.frame == 4 && l1.x == 0.2 && l2.x == 0.6
    ensures Interpolate(l1, l2, 2).x == 0.4 && Interpolate(l1, l2, 1).x == 0.3
  {
  }
}
