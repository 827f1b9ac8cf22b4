/** The two stages run one after the other on one video: the normaliser rewrites the annotation
    with the video's true frame rate and frame count, then the synthesiser reads it. */
module Pipeline {
  import opened LabelStudio
  import opened FramerateConverter
  import opened YoloConverter
  import opened RealArith

  /** A sequence normalised with the video's own frame rate, whose frame count was overwritten with
      the video's, passes both consistency checks of the synthesiser, provided the keyframe the
      frame-rate check looks at does not land on frame 0. */
  lemma NormalisedSequencePassesChecks(files: map<int, LabelFile>, sequence: seq<Keyframe>,
                                       fps: real, numFrames: nat, tol: Tolerance)
    requires |sequence| > 0 && fps > 0.0 && tol.rtol >= 0.0 && tol.atol >= 0.0
    requires Requantise(LastProcessed(sequence, numFrames), fps).frame != 0
    ensures Synthesise(files, RequantiseAll(sequence, fps), numFrames, fps, numFrames, tol).outcome == ExtractImages
  {
    var normalised := RequantiseAll(sequence, fps);
    var last := LastProcessed(normalised, numFrames);
    assert last == Requantise(LastProcessed(sequence, numFrames), fps);
    RequantisedOnGrid(LastProcessed(sequence, numFrames), fps);
    assert last.frame as real / last.time == fps;
    assert AllClose(fps, fps, tol) by {
      MulNonNegative(tol.rtol, Abs(fps));
    }
    FrameRateCheck(files, normalised, numFrames, fps, numFrames, tol);
  }

  /** With numpy's default tolerances in the frame-rate check, as the converter calls
      `np.allclose`, the normalised sequence goes on to image extraction. */
  lemma NormalisedSequencePassesDefaultCheck(files: map<int, LabelFile>, sequence: seq<Keyframe>,
                                             fps: real, numFrames: nat)
    requires |sequence| > 0 && fps > 0.0
    requires Requantise(LastProcessed(sequence, numFrames), fps).frame != 0
    ensures Synthesise(files, RequantiseAll(sequence, fps), numFrames, fps, numFrames, DefaultTolerance).outcome
            == ExtractImages
  {
    NormalisedSequencePassesChecks(files, sequence, fps, numFrames, DefaultTolerance);
  }

  /** A normalised sequence whose times were in order labels every frame 1 .. the frame count. */
  lemma NormalisedSequenceCoversVideo(files: map<int, LabelFile>, sequence: seq<Keyframe>,
                                      fps: real, numFrames: nat, tol: Tolerance)
    requires |sequence| > 0 && fps > 0.0 && TimesSorted(sequence)
    ensures var r := Synthesise(files, RequantiseAll(sequence, fps), numFrames, fps, numFrames, tol);
      forall i :: 1 <= i <= numFrames ==> i in r.files
  {
    RequantiseAllSorted(sequence, fps);
    AllFramesCovered(files, RequantiseAll(sequence, fps), numFrames, fps, numFrames, tol);
  }
}
