# Label Studio keyframes to dense YOLO labels, in Dafny

This project models the two conversion stages of shuttle-track. Together they turn the sparse
bounding-box keyframes of a Label Studio video annotation into one YOLO label file per video frame.

- **Frame-index normaliser** (`FramerateConverter`). The annotation tool may record keyframes
  under the wrong frame rate. This stage moves every keyframe onto the grid of the video's true
  frame rate: `frame := int(fps * time)`, then `time := frame / fps`. It also overwrites the
  annotation's `framesCount` with the true frame count. The annotation is a class holding
  `framesCount` and an array of keyframe records. `ConvertLabels` updates them in place with a
  loop, and its contract ties the new array to `RequantiseAll` of the old one.
- **Dense label synthesiser** (`YoloLabel`, `YoloConverter`).
  - `Label` is a class whose `ConvertToYolo` changes its fields in place. It turns percent with a
    top-left corner into fractions with the box centre. `AssertYoloFormat` and `GetYoloString` are
    guarded by the `inYoloFormat` flag.
  - `Interp` is numpy's two-point `interp`, and `Interpolate` is `interpolate_labels`.
  - `YoloConverter.ConvertLabels` is `convert_labels` for one video. It writes into a
    `LabelDirectory`, a class whose `files: map<int, LabelFile>` stands for the label files, keyed
    by frame. Each `write_label_file` call is `Write`, which replaces the file at one frame.
  - The method runs the same loops as the source, in the same order: the leading empty frames, the
    frame-count check, the keyframe loop with its gap fills, the trailing frames, and the
    frame-rate check. It is proved equal to the function `Synthesise`, and the frame-by-frame
    promises are lemmas about `Synthesise`.
- `Pipeline` links the stages. Take a non-empty sequence normalised with the video's own frame
  rate (fps > 0) and frame count, and non-negative tolerances. It passes both checks of the
  synthesiser, provided the keyframe the frame-rate check reads does not land on frame 0. A
  keyframe that does land on frame 0 has time 0, and the check then divides by zero. If the
  timestamps were in order, every frame 1 .. frame count gets a label file.

Things the code does that are easy to get wrong, and that the model keeps:
- The leading gap starts at frame 1, not 0. Label files are written for frames 1 .. vid_n_frames.
  The images that ffmpeg extracts are also numbered from 1. With frames that never decrease and
  the first keyframe at frame 1 or later, frame 0 is not written (`WritesConfined`). A keyframe at
  frame 0 or below is written at its own frame, and the trailing loop can then reach frame 0.
- Only the first `vid_n_frames` *entries* of the sequence are processed (`LaterEntriesIgnored`).
  The first entry is always read, and it stays `previous_label` when `vid_n_frames` is 0.
- Between two keyframes, only the *earlier* keyframe's `enabled` decides between empty files and
  interpolated boxes (`GapBetweenKeyframes`).
- `convert_to_yolo` has no guard, so converting twice shrinks the box again (`ToYoloTwiceDiffers`).
  Only `assert_yolo_format` makes conversion idempotent (`NormalisedIdempotent`).
- The frame-count check comes after the leading empty files are written and before any keyframe is
  written (`FrameCountMismatchAborts`).
- The frame-rate check comes after every label file is written. It only prevents image extraction
  (`FrameRateCheck`). A last keyframe with time 0 makes `frame / time` raise a division by zero.
- In the normaliser, a frame rate of 0 makes the division on line 43 fail. By then `framesCount`
  has been overwritten and the first keyframe's frame has been set to 0.

Coordinates, times and frame rates are `real`. `int()` is modelled as truncation toward zero
(`Trunc`). `np.allclose` is `|a - b| <= atol + rtol * |b|`, with the tolerances as a parameter.
`DefaultTolerance` holds numpy's defaults.

## Model

| member | source | states |
|---|---|---|
| `FramerateConverter.Trunc` | src/shuttletrack/utils/labelstudio_framerate_converter.py:41 | `int()` truncates toward zero: for r >= 0 the result t satisfies t <= r < t + 1; for r < 0 it satisfies t - 1 < r <= t |
| `FramerateConverter.Requantise` | src/shuttletrack/utils/labelstudio_framerate_converter.py:39-43 | re-quantising one keyframe changes only its `frame` and `time`; box, rotation and enabled are kept |
| `FramerateConverter.RequantiseAll` | src/shuttletrack/utils/labelstudio_framerate_converter.py:38-43 | the normalised sequence, entry by entry in the same order; no contract of its own, its properties are `RequantiseAllSorted` and `RequantiseAllIdempotent`, and `ConvertLabels` is proved equal to it |
| `FramerateConverter.Annotation.constructor` | src/shuttletrack/utils/labelstudio_framerate_converter.py:31-33 | the annotation holds the claimed frame count and the keyframe list |
| `FramerateConverter.ConvertLabels` | src/shuttletrack/utils/labelstudio_framerate_converter.py:26-43 | `framesCount` becomes the video's frame count; the array is the same object, with every entry re-quantised in order; with fps 0 the run fails, and only the first entry's frame has become 0 |
| `FramerateConverter.RequantisedFrameIsFloor` | src/shuttletrack/utils/labelstudio_framerate_converter.py:41 | for non-negative time the new frame is floor(fps * time), and it is not negative |
| `FramerateConverter.RequantisedOnGrid` | src/shuttletrack/utils/labelstudio_framerate_converter.py:41-43 | new time * fps == new frame, so frame / time == fps whenever the new frame is not 0; this is the synthesiser's frame-rate relation |
| `FramerateConverter.RequantiseRoundsDown` | src/shuttletrack/utils/labelstudio_framerate_converter.py:41-43 | for fps > 0 and time >= 0 the new time is in [0, old time] and is less than 1/fps below it |
| `FramerateConverter.RequantiseIdempotent` | src/shuttletrack/utils/labelstudio_framerate_converter.py:38-43 | re-quantising a re-quantised keyframe with the same fps changes nothing (exact arithmetic) |
| `FramerateConverter.RequantiseMonotone` | src/shuttletrack/utils/labelstudio_framerate_converter.py:38-43 | for fps > 0, a later or equal time never gets an earlier frame or time |
| `FramerateConverter.RequantiseAllSorted` | src/shuttletrack/utils/labelstudio_framerate_converter.py:38-43 | a sequence whose times never decrease comes out with frames and times that never decrease |
| `FramerateConverter.RequantiseAllIdempotent` | src/shuttletrack/utils/labelstudio_framerate_converter.py:38-43 | normalising a normalised sequence again with the same fps returns it unchanged |
| `FramerateConverter.TruncMonotone` | src/shuttletrack/utils/labelstudio_framerate_converter.py:41 | truncation toward zero is monotone |
| `YoloLabel.FromKeyframe` | src/shuttle-track/utils/labelstudio_yolo_converter.py:18-28 | `Label(**label_dict)` copies frame, enabled and time, and starts with `in_yolo_format` False |
| `YoloLabel.ToYolo` | src/shuttle-track/utils/labelstudio_yolo_converter.py:30-40 | sizes become fractions (width' * 100 == width); the centre form's left/right and top/bottom edges equal the corner form's edges divided by 100; rotation, frame, enabled and time are kept; the flag is set |
| `YoloLabel.Converted` | src/shuttle-track/utils/labelstudio_yolo_converter.py:104-105 | a keyframe read into a Label and converted is in YOLO form and keeps its frame, enabled and time |
| `YoloLabel.Normalised` | src/shuttle-track/utils/labelstudio_yolo_converter.py:42-44 | after `assert_yolo_format` the label is in YOLO form |
| `YoloLabel.YoloRecordOf` | src/shuttle-track/utils/labelstudio_yolo_converter.py:46-49 | the record `get_yolo_string` formats for a label in either form; no contract of its own, `Label.GetYoloString` is proved to return it and `NormalisedIdempotent` shows normalising first does not change it |
| `YoloLabel.FromYoloInvertsToYolo` | src/shuttle-track/utils/labelstudio_yolo_converter.py:30-40 | the conversion loses nothing: from the YOLO form the Label Studio form is recovered exactly, and the reverse |
| `YoloLabel.NormalisedIdempotent` | src/shuttle-track/utils/labelstudio_yolo_converter.py:42-49 | `assert_yolo_format` is idempotent, leaves a converted label alone, and running it first does not change the record `get_yolo_string` gives |
| `YoloLabel.ToYoloTwiceDiffers` | src/shuttle-track/utils/labelstudio_yolo_converter.py:30-40 | `convert_to_yolo` is not guarded: for a box of non-zero width, a second call gives a different result |
| `YoloLabel.Interp` | src/shuttle-track/utils/labelstudio_yolo_converter.py:55-66 | numpy's two-point `interp` in numpy's branch order; no contract of its own, its meaning is stated by `InterpSpec` |
| `YoloLabel.Label.constructor` | src/shuttle-track/utils/labelstudio_yolo_converter.py:18-28 | the new Label holds the keyframe's fields, not yet converted |
| `YoloLabel.Label.ConvertToYolo` | src/shuttle-track/utils/labelstudio_yolo_converter.py:30-40 | the fields, updated in place, are `ToYolo` of the old fields |
| `YoloLabel.Label.AssertYoloFormat` | src/shuttle-track/utils/labelstudio_yolo_converter.py:42-44 | converts in place only when the flag is not yet set |
| `YoloLabel.Label.GetYoloString` | src/shuttle-track/utils/labelstudio_yolo_converter.py:46-49 | converts first if needed, then returns the record (class id, x, y, width, height) of the converted fields |
| `YoloLabel.InterpSpec` | src/shuttle-track/utils/labelstudio_yolo_converter.py:55-66 | numpy's two-point `interp` (`Interp`): the left end value at or before f1, the right end value at or after f2, a value between the two in between, and strictly inside the weighted mean r * (f2 - f1) == v1 * (f2 - at) + v2 * (at - f1) |
| `YoloLabel.Interpolate` | src/shuttle-track/utils/labelstudio_yolo_converter.py:52-68 | needs both labels in the same form; the result is at the requested frame, not enabled, and flagged as YOLO form |
| `YoloLabel.InterpolateBetweenEnds` | src/shuttle-track/utils/labelstudio_yolo_converter.py:52-68 | for f1 < f2 every interpolated field (x, y, width, height, rotation, time) lies between its end values, and equals them at the end frames |
| `YoloLabel.InterpolateExample` | src/shuttle-track/utils/labelstudio_yolo_converter.py:55 | keyframes at frames 0 and 4 with x = 0.2 and 0.6 give exactly 0.4 at frame 2 and 0.3 at frame 1 |
| `YoloConverter.LabelDirectory.Write` | src/shuttle-track/utils/labelstudio_yolo_converter.py:71-73 | writing a label file replaces the file of that frame and no other |
| `YoloConverter.FrameRange` | src/shuttle-track/utils/labelstudio_yolo_converter.py:94 | `range(lo, hi)` holds exactly the integers lo <= i < hi |
| `YoloConverter.Fill` | src/shuttle-track/utils/labelstudio_yolo_converter.py:94-95 | the directory after a `range(lo, hi)` loop writes one file per frame (the leading, gap and trailing loops at lines 94-95, 111-121 and 124-130); no contract of its own, pinned down by `FillExtend`, `FillNothing` and `FillOutside` and by the loop methods proved equal to it |
| `YoloConverter.GapFiller` | src/shuttle-track/utils/labelstudio_yolo_converter.py:112-121 | the gap fill policy: empty files when the earlier keyframe is disabled, interpolated boxes otherwise; its contract is only that the policy is well formed, and `GapBetweenKeyframes` states the resulting files |
| `YoloConverter.TrailFiller` | src/shuttle-track/utils/labelstudio_yolo_converter.py:125-130 | the trailing fill policy: empty files when the last keyframe is disabled, its box otherwise; its contract is only that the policy is well formed, and `TrailingFrames` states the resulting files |
| `YoloConverter.AllClose` | src/shuttle-track/utils/labelstudio_yolo_converter.py:134 | `np.allclose` on two scalars, `abs(a - b) <= atol + rtol * abs(b)`; no contract of its own, used by `FrameRateCheck` and `NormalisedSequencePassesChecks` |
| `YoloConverter.Pass` | src/shuttle-track/utils/labelstudio_yolo_converter.py:103-122 | after the keyframe loop, `previous_label` is the last keyframe processed, or the first label if none was |
| `YoloConverter.Step` | src/shuttle-track/utils/labelstudio_yolo_converter.py:104-122 | one iteration of the keyframe loop on values; no contract of its own, pinned down by `StepAt`, and `WriteKeyframe` is proved equal to it |
| `YoloConverter.Keyframes` | src/shuttle-track/utils/labelstudio_yolo_converter.py:103-105 | the loop sees `labels[:vid_n_frames]`: min(vid_n_frames, length) entries, each converted |
| `YoloConverter.LastProcessed` | src/shuttle-track/utils/labelstudio_yolo_converter.py:122 | the entry that is `previous_label` after the loop and that line 133 divides; no contract of its own, `PassEndsAtLastProcessed` proves it is the loop's final label |
| `YoloConverter.FpsCheck` | src/shuttle-track/utils/labelstudio_yolo_converter.py:133-136 | the outcome of the division and the `allclose` check on the final label; no contract of its own, stated by `FrameRateCheck` |
| `YoloConverter.Synthesise` | src/shuttle-track/utils/labelstudio_yolo_converter.py:86-136 | the files and outcome of converting one video; no contract of its own, `ConvertLabels` is proved equal to it and `EmptySequenceAborts`, `LeadingFramesEmpty`, `FrameCountMismatchAborts`, `KeyframeAtItsFrame`, `GapBetweenKeyframes`, `TrailingFrames`, `AllFramesCovered`, `WritesConfined`, `FrameRateCheck` and `LaterEntriesIgnored` state what it does |
| `YoloConverter.LabelRun` | src/shuttle-track/utils/labelstudio_yolo_converter.py:103-136 | what follows a passed frame-count check: the keyframe loop, the trailing frames and the frame-rate check; no contract of its own, `WriteLabels` is proved equal to it and `Synthesise` uses it |
| `YoloConverter.WriteLeadingFrames` | src/shuttle-track/utils/labelstudio_yolo_converter.py:93-95 | the directory afterwards is the old one with an empty file at every frame 1 .. first frame - 1 |
| `YoloConverter.WriteGap` | src/shuttle-track/utils/labelstudio_yolo_converter.py:111-121 | the frames strictly between the two labels get empty files or interpolated boxes, chosen on the earlier label's `enabled` |
| `YoloConverter.WriteKeyframe` | src/shuttle-track/utils/labelstudio_yolo_converter.py:104-122 | one loop iteration: a fresh Label holding the converted keyframe, its box written at its frame, then the gap after the previous label; the directory afterwards is one `Step` of the loop |
| `YoloConverter.WriteKeyframes` | src/shuttle-track/utils/labelstudio_yolo_converter.py:103-122 | the directory and `previous_label` after the loop are those `Pass` gives |
| `YoloConverter.WriteTrailingFrames` | src/shuttle-track/utils/labelstudio_yolo_converter.py:124-130 | frames last + 1 .. vid_n_frames get empty files or the last box; the last label is unchanged |
| `YoloConverter.WriteLabels` | src/shuttle-track/utils/labelstudio_yolo_converter.py:103-136 | after the frame-count check: the keyframe loop, the trailing frames and the frame-rate check give exactly the files and outcome of `LabelRun`, and the first label is left as it was |
| `YoloConverter.ConvertLabels` | src/shuttle-track/utils/labelstudio_yolo_converter.py:76-140 | the new directory and the outcome are exactly what `Synthesise` gives for the old directory |
| `YoloConverter.StepAt` | src/shuttle-track/utils/labelstudio_yolo_converter.py:107-121 | one loop iteration writes the keyframe at its frame and the gap strictly between the previous frame and it, and leaves every other file alone |
| `YoloConverter.PassOutside` | src/shuttle-track/utils/labelstudio_yolo_converter.py:103-122 | with ordered frames, the keyframe loop writes nothing before the starting label or after the last keyframe |
| `YoloConverter.PassCovers` | src/shuttle-track/utils/labelstudio_yolo_converter.py:103-122 | with ordered frames, every frame from just after the starting label to the last keyframe, and the first keyframe's frame, has a file |
| `YoloConverter.PassKeyframe` | src/shuttle-track/utils/labelstudio_yolo_converter.py:103-109 | with ordered frames, a keyframe not followed by one at the same frame leaves its own box at its frame |
| `YoloConverter.PassGap` | src/shuttle-track/utils/labelstudio_yolo_converter.py:111-122 | with ordered frames, a frame strictly between consecutive keyframes holds the earlier keyframe's gap policy value |
| `YoloConverter.PassEndsAtLastProcessed` | src/shuttle-track/utils/labelstudio_yolo_converter.py:122 | the label the trailing loop and the fps check use is the last processed entry, or the first entry when none is processed |
| `YoloConverter.EmptySequenceAborts` | src/shuttle-track/utils/labelstudio_yolo_converter.py:90 | an empty sequence aborts and writes nothing |
| `YoloConverter.LeadingFramesEmpty` | src/shuttle-track/utils/labelstudio_yolo_converter.py:90-95 | every frame 1 .. first.frame - 1 has an empty file, whatever the first keyframe's `enabled` and whichever way the frame-count check goes |
| `YoloConverter.FrameCountMismatchAborts` | src/shuttle-track/utils/labelstudio_yolo_converter.py:97-101 | vid_n_frames > framesCount aborts with FrameCountMismatch; only the leading empty files have been written and no existing file is lost |
| `YoloConverter.KeyframeAtItsFrame` | src/shuttle-track/utils/labelstudio_yolo_converter.py:103-109 | a processed keyframe not followed by one at the same frame has its converted box at its frame; of several at one frame the last wins |
| `YoloConverter.GapBetweenKeyframes` | src/shuttle-track/utils/labelstudio_yolo_converter.py:111-122 | a frame strictly between consecutive processed keyframes is empty if the earlier one is disabled, and otherwise holds the box interpolated between the two; the later one's `enabled` is not consulted |
| `YoloConverter.TrailingFrames` | src/shuttle-track/utils/labelstudio_yolo_converter.py:124-130 | every frame after the last processed keyframe, up to and including vid_n_frames, is empty if that keyframe is disabled and otherwise holds exactly its box |
| `YoloConverter.AllFramesCovered` | src/shuttle-track/utils/labelstudio_yolo_converter.py:93-130 | with ordered frames and a passed frame-count check, every frame 1 .. vid_n_frames has a label file |
| `YoloConverter.WritesConfined` | src/shuttle-track/utils/labelstudio_yolo_converter.py:93-130 | with ordered frames, nothing below both frame 1 and the first keyframe, and nothing above both vid_n_frames and the last processed keyframe, is written; in particular frame 0, when the first keyframe is at frame 1 or later |
| `YoloConverter.FrameRateCheck` | src/shuttle-track/utils/labelstudio_yolo_converter.py:132-136 | with the frame-count check passed, the run goes on to image extraction exactly when last.time != 0 and frame / time is allclose to the video's fps; time 0 aborts with a division by zero; a non-zero time whose frame / time is not close aborts with a frame-rate mismatch |
| `YoloConverter.LaterEntriesIgnored` | src/shuttle-track/utils/labelstudio_yolo_converter.py:103 | entries after the first vid_n_frames (after the first, when vid_n_frames is 0) change neither the files nor the outcome |
| `Pipeline.NormalisedSequencePassesChecks` | src/shuttletrack/utils/labelstudio_framerate_converter.py:35-43 | a sequence normalised with the video's fps, with framesCount overwritten by the video's frame count, passes both synthesiser checks unless the checked keyframe lands on frame 0 |
| `Pipeline.NormalisedSequencePassesDefaultCheck` | src/shuttle-track/utils/labelstudio_yolo_converter.py:133-136 | with numpy's default tolerances, which the converter uses, a normalised sequence whose checked keyframe is not at frame 0 goes on to image extraction |
| `Pipeline.NormalisedSequenceCoversVideo` | src/shuttletrack/utils/labelstudio_framerate_converter.py:38-43 | a normalised sequence whose times were in order gets a label file for every frame 1 .. frame count |

## Left out

- `get_video_info` in both files is an ffmpeg probe, a foreign call. The frame rate (`num/den` as a
  real) and the frame count are parameters, and the frame count is a `nat`. A failed probe is not
  modelled.
- The ffmpeg image extraction at the end of the synthesiser is an external process. The outcome
  `ExtractImages` marks the point where it would run.
- File I/O is not modelled: paths, the video stem in file names, the `%09d` format, JSON
  load/dump, `create_folders`, `create_yaml`, argparse, `main`, tqdm output, and the batch loop
  over videos. A label directory is one in-memory map per video.
- The train/val split (`video_path in validation_set`) only picks an output directory.
- The nested annotation layout (`annotations[0].result[0].value`) is not modelled. The sequence and
  `framesCount` are passed in directly.
- `Label(**label_dict)` with missing or extra keys is not modelled, because the keyframe record has
  exactly the dataclass's fields.
- Exact float text in `get_yolo_string`, IEEE rounding, and NaN or infinity in `np.interp` and
  `np.allclose` are not modelled. Coordinates are reals because floating point is out of scope.
  For the same reason the normaliser's idempotence holds in exact arithmetic only.
- `Interpolate`: the source's `assert` that both labels share a form is a precondition. It is a
  programming contract, not a data error.
- `YoloConverter.ConvertLabels`: the interpolated label's `get_yolo_string` is the pure
  `YoloRecordOf` of its value. That label is fresh and already in YOLO form, so that call changes
  nothing.
- `KeyframeAtItsFrame`: proved only for sequences whose frames never decrease, which is the
  sequence's data-model invariant. In other orders a later gap fill can overwrite a keyframe.
- `GapBetweenKeyframes`: proved only for sequences whose frames never decrease, for the same reason.
- `LeadingFramesEmpty`: proved only for sequences whose frames never decrease, for the same reason.
- `AllFramesCovered`: proved only for sequences whose frames never decrease.
- `PassKeyframe`: proved only for keyframes whose frames never decrease from the starting label on. Otherwise a later gap fill can overwrite the keyframe's frame.
- `PassGap`: proved only for keyframes whose frames never decrease from the starting label on, for the same reason.
- Python's slicing with a negative `vid_n_frames` is not modelled (the frame count is a `nat`).
- shuttle-track/utils/show_data.py (visualisation), src/shuttletrack/utils/fps_changer.py (moviepy
  re-encoding) and src/shuttletrack/models/train_yolov8.py (training) are not part of this model.
