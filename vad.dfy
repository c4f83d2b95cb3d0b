/**
 * The two-stage voice-activity check of perception_voice/vad.py: a cheap coarse
 * classifier screens every chunk, and only a chunk it does not reject is passed
 * to the confirming classifier, whose probability is compared with the
 * sensitivity. Both classifiers are parameters; samples are reals.
 */
module Vad {
  import opened Wrappers
  import opened Numbers

  /** The coarse classifier's frame: 30 ms at 16 kHz. */
  const CoarseFrameSize: nat := 480
  /** The shortest input the confirming classifier accepts. */
  const ConfirmMinSize: nat := 512
  /** The scale of the float-to-int16 conversion. */
  const Int16Scale: int := 32767

  /** The coarse classifier's outcome; an exception is its own outcome. */
  datatype CoarseVerdict = Speech | NoSpeech | Raised

  /** What is_speech returns: the verdict and the confirming probability. */
  datatype Detection = Detection(speech: bool, probability: real)

  // ---------------------------------------------------------------------------
  // Frame shaping
  // ---------------------------------------------------------------------------

  /** `np.clip(x, -1.0, 1.0)`. */
  function Clip(x: real): (r: real)
    ensures -1.0 <= r <= 1.0
    ensures -1.0 <= x <= 1.0 ==> r == x
    ensures x > 1.0 ==> r == 1.0
    ensures x < -1.0 ==> r == -1.0
  {
    if x < -1.0 then -1.0 else if x > 1.0 then 1.0 else x
  }

  /** One sample of `(np.clip(chunk, -1, 1) * 32767).astype(np.int16)`: scaled, then truncated toward zero. */
  function ToInt16(x: real): (r: int)
    ensures -Int16Scale <= r <= Int16Scale
    ensures x >= 0.0 ==> r >= 0
    ensures x <= 0.0 ==> r <= 0
    ensures var y := Clip(x) * Int16Scale as real;
            && (0.0 <= y ==> r as real <= y < r as real + 1.0)
            && (y < 0.0 ==> r as real - 1.0 < y <= r as real)
  {
    Trunc(Clip(x) * Int16Scale as real)
  }

  /** The chunk converted to 16-bit samples. */
  function ToPcm(chunk: seq<real>): (pcm: seq<int>)
    ensures |pcm| == |chunk|
    ensures forall i :: 0 <= i < |chunk| ==> pcm[i] == ToInt16(chunk[i])
  {
    seq(|chunk|, i requires 0 <= i < |chunk| => ToInt16(chunk[i]))
  }

  /** Exactly `n` samples: `s` zero-padded at the end when shorter, its first `n` when longer. */
  function Fit<T>(s: seq<T>, n: nat, zero: T): (r: seq<T>)
    ensures |r| == n
    ensures forall i :: 0 <= i < n ==> r[i] == (if i < |s| then s[i] else zero)
  {
    if |s| < n then s + seq(n - |s|, _ => zero) else s[..n]
  }

  /** At least `n` samples: `s` zero-padded at the end when shorter, unchanged otherwise. */
  function PadTo<T>(s: seq<T>, n: nat, zero: T): (r: seq<T>)
    ensures |s| >= n ==> r == s
    ensures |s| < n ==> |r| == n
    ensures r[..|s|] == s
    ensures forall i :: |s| <= i < |r| ==> r[i] == zero
  {
    if |s| < n then s + seq(n - |s|, _ => zero) else s
  }

  /** The frame the coarse classifier sees. */
  function CoarseFrame(chunk: seq<real>): (frame: seq<int>)
    ensures |frame| == CoarseFrameSize
  {
    Fit(ToPcm(chunk), CoarseFrameSize, 0)
  }

  /** The input the confirming classifier sees: the float chunk itself, padded. */
  function ConfirmInput(chunk: seq<real>): (input: seq<real>)
    ensures |input| >= ConfirmMinSize
  {
    PadTo(chunk, ConfirmMinSize, 0.0)
  }

  /** The coarse frame holds the converted leading samples of the chunk, then silence. */
  lemma CoarseFrameContents(chunk: seq<real>, i: nat)
    requires i < CoarseFrameSize
    ensures i < |chunk| ==> CoarseFrame(chunk)[i] == ToInt16(chunk[i])
    ensures |chunk| <= i ==> CoarseFrame(chunk)[i] == 0
  {
  }

  /** A chunk of the usual 512 samples reaches the confirming classifier unchanged, but only its first 480 reach the coarse one. */
  lemma UsualChunkShaping(chunk: seq<real>)
    requires |chunk| == 512
    ensures ConfirmInput(chunk) == chunk
    ensures CoarseFrame(chunk) == ToPcm(chunk[..CoarseFrameSize])
  {
    assert ToPcm(chunk[..CoarseFrameSize]) == ToPcm(chunk)[..CoarseFrameSize];
  }

  // ---------------------------------------------------------------------------
  // The detector
  // ---------------------------------------------------------------------------

  class VoiceActivityDetector {
    /** The probability a chunk must exceed to count as speech. */
    const sileroSensitivity: real
    var webrtcChecks: nat
    var sileroChecks: nat
    var speechDetectedCount: nat

    /** Every confirmed chunk was confirmed by the second stage, which only ever sees chunks the first stage saw. */
    predicate Valid()
      reads this
    {
      speechDetectedCount <= sileroChecks <= webrtcChecks
    }

    constructor (sileroSensitivity: real)
      ensures this.sileroSensitivity == sileroSensitivity
      ensures webrtcChecks == 0 && sileroChecks == 0 && speechDetectedCount == 0
      ensures Valid()
    {
      this.sileroSensitivity := sileroSensitivity;
      webrtcChecks := 0;
      sileroChecks := 0;
      speechDetectedCount := 0;
    }

    /**
     * is_speech: every call is counted; a coarse rejection answers (false, 0)
     * without consulting the confirming classifier; otherwise (the coarse stage
     * accepted or raised) the confirming probability decides, by strict comparison.
     * The confirming classifier may raise (`None`); its exception is not caught, so
     * the call then ends with no answer, after the confirming check was counted.
     */
    method IsSpeech(chunk: seq<real>, coarse: seq<int> -> CoarseVerdict, confirm: seq<real> -> Option<real>)
      returns (r: Option<Detection>)
      requires Valid()
      modifies this
      ensures Valid()
      ensures webrtcChecks == old(webrtcChecks) + 1
      ensures coarse(CoarseFrame(chunk)) == NoSpeech ==>
                && r == Some(Detection(false, 0.0))
                && sileroChecks == old(sileroChecks) && speechDetectedCount == old(speechDetectedCount)
      ensures coarse(CoarseFrame(chunk)) != NoSpeech ==>
                && sileroChecks == old(sileroChecks) + 1
                && (r.None? <==> confirm(ConfirmInput(chunk)).None?)
      ensures coarse(CoarseFrame(chunk)) != NoSpeech && r.Some? ==>
                && r.value.probability == confirm(ConfirmInput(chunk)).value
                && (r.value.speech <==> r.value.probability > sileroSensitivity)
                && speechDetectedCount == old(speechDetectedCount) + (if r.value.speech then 1 else 0)
      ensures r.None? ==> speechDetectedCount == old(speechDetectedCount)
    {
      webrtcChecks := webrtcChecks + 1;
      var frame := CoarseFrame(chunk);
      var verdict := coarse(frame);
      // A classifier exception lets the chunk through to the confirming stage.
      var coarseSpeech := verdict != NoSpeech;
      if !coarseSpeech {
        return Some(Detection(false, 0.0));
      }
      sileroChecks := sileroChecks + 1;
      var input := ConfirmInput(chunk);
      var outcome := confirm(input);
      if outcome.None? {
        return None;
      }
      var probability := outcome.value;
      var speech := probability > sileroSensitivity;
      if speech {
        speechDetectedCount := speechDetectedCount + 1;
      }
      r := Some(Detection(speech, probability));
    }

    /** reset_statistics. */
    method ResetStatistics()
      modifies this
      ensures webrtcChecks == 0 && sileroChecks == 0 && speechDetectedCount == 0
      ensures Valid()
    {
      webrtcChecks := 0;
      sileroChecks := 0;
      speechDetectedCount := 0;
    }
  }
}
