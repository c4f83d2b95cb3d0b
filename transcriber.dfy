/**
 * The audio segmentation state machine of perception_voice/transcriber.py: the
 * pre-roll deque, the recording flag, the frame list and the silence counter that
 * the audio callback updates for every chunk, and the joining of the segment texts
 * that the speech-to-text engine returns.
 *
 * A chunk is a sequence of samples of an abstract type `S`; the voice-activity
 * verdict and the wall-clock time (in seconds) are inputs of every step.
 */
module Segmenter {
  import opened Wrappers
  import opened Strings
  import opened Numbers

  // ---------------------------------------------------------------------------
  // Configuration
  // ---------------------------------------------------------------------------

  /** The deque's maxlen: `int((sample_rate // buffer_size) * pre_recording_buffer_duration)`. */
  function PreRollCapacity(sampleRate: nat, bufferSize: nat, preRollSeconds: real): (r: int)
    requires bufferSize > 0
    ensures preRollSeconds >= 0.0 ==> r >= 0
    ensures var chunks := (sampleRate / bufferSize) as real * preRollSeconds;
            && (0.0 <= chunks ==> r as real <= chunks < r as real + 1.0)
            && (chunks < 0.0 ==> r as real - 1.0 < chunks <= r as real)
  {
    Trunc((sampleRate / bufferSize) as real * preRollSeconds)
  }

  /** `_max_silence_chunks`: `int((sample_rate / buffer_size) * post_speech_silence_duration)`. */
  function MaxSilenceChunks(sampleRate: nat, bufferSize: nat, silenceSeconds: real): (r: int)
    requires bufferSize > 0
    ensures silenceSeconds >= 0.0 ==> r >= 0
    ensures var chunks := (sampleRate as real / bufferSize as real) * silenceSeconds;
            && (0.0 <= chunks ==> r as real <= chunks < r as real + 1.0)
            && (chunks < 0.0 ==> r as real - 1.0 < chunks <= r as real)
  {
    Trunc((sampleRate as real / bufferSize as real) * silenceSeconds)
  }

  /**
   * Both sizes truncate: at 16 kHz with 512-sample chunks, one second of pre-roll
   * is 31 chunks (the integer division drops the quarter chunk before the product)
   * and 0.6 s of silence is 18 chunks, not the 19 that rounding up would give.
   */
  lemma ThresholdsTruncate()
    ensures PreRollCapacity(16000, 512, 1.0) == 31
    ensures MaxSilenceChunks(16000, 512, 0.6) == 18
    ensures (16000.0 / 512.0) * 0.6 > 18.0
  {
    assert (16000 as real / 512 as real) * 0.6 == 18.75;
  }

  /** The fixed parameters of the state machine. */
  datatype Config = Config(preRollCapacity: nat, maxSilenceChunks: int, minUtteranceDuration: real)

  // ---------------------------------------------------------------------------
  // The pure state machine
  // ---------------------------------------------------------------------------

  /** The fields the audio callback updates. */
  datatype State<S> = State(
    audioBuffer: seq<seq<S>>,
    frames: seq<seq<S>>,
    silenceCount: nat,
    isRecording: bool,
    recordingStartTime: real)

  /** The state right after `__init__`. */
  function Initial<S>(): State<S> {
    State([], [], 0, false, 0.0)
  }

  /** Consistency of a state reached from Initial. */
  predicate Inv<S>(cfg: Config, st: State<S>) {
    && |st.audioBuffer| <= cfg.preRollCapacity
    && (!st.isRecording ==> st.frames == [])
    && (st.isRecording ==> st.frames != [])
  }

  /** `deque.append` on a deque of bounded length: the oldest entries give way. */
  function Push<T>(q: seq<T>, x: T, capacity: nat): (r: seq<T>)
    ensures |r| == if |q| + 1 <= capacity then |q| + 1 else capacity
    ensures r == (q + [x])[|q| + 1 - |r|..]
    ensures capacity > 0 ==> r[|r| - 1] == x
  {
    var s := q + [x];
    if |s| <= capacity then s else s[|s| - capacity..]
  }

  /** `np.concatenate(frames)`. */
  function Flatten<T>(chunks: seq<seq<T>>): (r: seq<T>)
    ensures |chunks| == 1 ==> r == chunks[0]
  {
    if chunks == [] then [] else Flatten(chunks[..|chunks| - 1]) + chunks[|chunks| - 1]
  }

  /** Concatenating two runs of chunks is concatenating their concatenations: no sample is lost, duplicated or reordered. */
  lemma {:induction false} FlattenConcat<T>(a: seq<seq<T>>, b: seq<seq<T>>)
    ensures Flatten(a + b) == Flatten(a) + Flatten(b)
    decreases |b|
  {
    if b == [] {
      assert a + b == a;
    } else {
      var ab := a + b;
      assert ab[..|ab| - 1] == a + b[..|b| - 1];
      assert ab[|ab| - 1] == b[|b| - 1];
      FlattenConcat(a, b[..|b| - 1]);
    }
  }

  /** _start_recording at time `now`: recording from now on, seeded with the pre-roll, no silence counted. */
  function Start<S>(st: State<S>, now: real): (r: State<S>)
    ensures r.isRecording && r.silenceCount == 0 && r.recordingStartTime == now
    ensures r.frames == r.audioBuffer == st.audioBuffer
  {
    st.(isRecording := true, recordingStartTime := now, frames := st.audioBuffer, silenceCount := 0)
  }

  /**
   * _stop_recording at time `now`: the new state and the clip handed to transcription, if any.
   * A recording always ends with no frames kept; it yields a clip exactly when it lasted long enough,
   * and the clip is every recorded frame in order.
   */
  function Stop<S>(cfg: Config, st: State<S>, now: real): (r: (State<S>, Option<seq<S>>))
    ensures !r.0.isRecording && r.0.audioBuffer == st.audioBuffer
    ensures !st.isRecording ==> r == (st, None)
    ensures st.isRecording ==> r.0.frames == []
    ensures r.1.Some? <==> st.isRecording && now - st.recordingStartTime >= cfg.minUtteranceDuration
    ensures r.1.Some? ==> r.1.value == Flatten(st.frames)
  {
    if !st.isRecording then (st, None)
    else if now - st.recordingStartTime < cfg.minUtteranceDuration then (st.(isRecording := false, frames := []), None)
    else (st.(isRecording := false, frames := []), Some(Flatten(st.frames)))
  }

  /** audio_callback for one chunk with the detector's verdict `isSpeech`. */
  function Feed<S>(cfg: Config, st: State<S>, chunk: seq<S>, isSpeech: bool, now: real): (r: (State<S>, Option<seq<S>>))
    ensures r.0.audioBuffer == Push(st.audioBuffer, chunk, cfg.preRollCapacity)
    ensures isSpeech ==> r.0.isRecording && r.0.silenceCount == 0 && r.1 == None
    ensures r.1.Some? ==> !isSpeech && st.isRecording && st.silenceCount + 1 >= cfg.maxSilenceChunks
  {
    var st1 := st.(audioBuffer := Push(st.audioBuffer, chunk, cfg.preRollCapacity));
    if isSpeech then
      var st2 := if !st1.isRecording then Start(st1, now) else st1;
      (st2.(frames := st2.frames + [chunk], silenceCount := 0), None)
    else if st1.isRecording then
      var st2 := st1.(frames := st1.frames + [chunk], silenceCount := st1.silenceCount + 1);
      if st2.silenceCount >= cfg.maxSilenceChunks then Stop(cfg, st2, now) else (st2, None)
    else
      (st1, None)
  }

  /** One callback invocation: the chunk, the detector's verdict and the time. */
  datatype Input<S> = Input(chunk: seq<S>, isSpeech: bool, now: real)

  /** The state after a stream of callbacks, and the clips emitted along the way, in order. */
  function Run<S>(cfg: Config, st: State<S>, inputs: seq<Input<S>>): (State<S>, seq<seq<S>>)
    decreases |inputs|
  {
    if inputs == [] then (st, [])
    else
      var (st1, clip) := Feed(cfg, st, inputs[0].chunk, inputs[0].isSpeech, inputs[0].now);
      var (st2, clips) := Run(cfg, st1, inputs[1..]);
      (st2, (if clip.Some? then [clip.value] else []) + clips)
  }

  // ---------------------------------------------------------------------------
  // Properties
  // ---------------------------------------------------------------------------

  /** Every step keeps the pre-roll within its capacity and frames empty exactly while idle. */
  lemma FeedKeepsInv<S>(cfg: Config, st: State<S>, chunk: seq<S>, isSpeech: bool, now: real)
    requires Inv(cfg, st)
    ensures Inv(cfg, Feed(cfg, st, chunk, isSpeech, now).0)
  {
  }

  /** Every chunk enters the pre-roll, whatever the state, displacing the oldest when full. */
  lemma FeedPushesPreRoll<S>(cfg: Config, st: State<S>, chunk: seq<S>, isSpeech: bool, now: real)
    requires |st.audioBuffer| <= cfg.preRollCapacity
    ensures var q := Feed(cfg, st, chunk, isSpeech, now).0.audioBuffer;
            && q == Push(st.audioBuffer, chunk, cfg.preRollCapacity)
            && (|st.audioBuffer| < cfg.preRollCapacity ==> q == st.audioBuffer + [chunk])
            && (0 < |st.audioBuffer| == cfg.preRollCapacity ==> q == st.audioBuffer[1..] + [chunk])
  {
    if 0 < |st.audioBuffer| == cfg.preRollCapacity {
      assert (st.audioBuffer + [chunk])[1..] == st.audioBuffer[1..] + [chunk];
    }
  }

  /** While idle, a silent chunk only enters the pre-roll. */
  lemma IdleSilenceOnlyFillsPreRoll<S>(cfg: Config, st: State<S>, chunk: seq<S>, now: real)
    requires !st.isRecording
    ensures Feed(cfg, st, chunk, false, now)
         == (st.(audioBuffer := Push(st.audioBuffer, chunk, cfg.preRollCapacity)), None)
  {
  }

  /** A stream of silent chunks never starts a recording and never emits a clip. */
  lemma {:induction false} AllSilenceNeverRecords<S>(cfg: Config, st: State<S>, inputs: seq<Input<S>>)
    requires !st.isRecording
    requires forall i :: 0 <= i < |inputs| ==> !inputs[i].isSpeech
    ensures var (st', clips) := Run(cfg, st, inputs);
            && !st'.isRecording && clips == []
            && st'.frames == st.frames && st'.silenceCount == st.silenceCount
    decreases |inputs|
  {
    if inputs != [] {
      var st1 := Feed(cfg, st, inputs[0].chunk, false, inputs[0].now).0;
      AllSilenceNeverRecords(cfg, st1, inputs[1..]);
    }
  }

  /**
   * A speech chunk while idle starts a recording at `now` with a zero silence
   * count, and its frames are the pre-roll (which already holds the chunk)
   * followed by the chunk again: with a non-zero pre-roll the chunk appears twice.
   */
  lemma SpeechWhileIdleStarts<S>(cfg: Config, st: State<S>, chunk: seq<S>, now: real)
    requires !st.isRecording
    ensures var (st', clip) := Feed(cfg, st, chunk, true, now);
            && st'.isRecording && st'.recordingStartTime == now && st'.silenceCount == 0 && clip == None
            && st'.frames == Push(st.audioBuffer, chunk, cfg.preRollCapacity) + [chunk]
            && (cfg.preRollCapacity > 0 ==> |st'.frames| >= 2 && st'.frames[|st'.frames| - 2] == chunk
                                            && st'.frames[|st'.frames| - 1] == chunk)
  {
  }

  /**
   * While recording, every chunk is appended to the frames; speech resets the
   * silence count and silence increments it, and only a silent chunk that brings
   * the count to the threshold ends the recording.
   */
  lemma RecordingStep<S>(cfg: Config, st: State<S>, chunk: seq<S>, isSpeech: bool, now: real)
    requires st.isRecording
    ensures var (st', clip) := Feed(cfg, st, chunk, isSpeech, now);
            && (isSpeech ==> st'.isRecording && st'.silenceCount == 0 && clip == None
                             && st'.frames == st.frames + [chunk] && st'.recordingStartTime == st.recordingStartTime)
            && (!isSpeech ==> (st'.isRecording <==> st.silenceCount + 1 < cfg.maxSilenceChunks))
            && (!isSpeech && st'.isRecording ==> st'.silenceCount == st.silenceCount + 1
                                                 && st'.frames == st.frames + [chunk] && clip == None)
            && (!isSpeech && !st'.isRecording ==> st'.frames == [])
  {
  }

  /**
   * A step emits a clip exactly when a silent chunk ends a recording that lasted
   * at least the minimum duration; the clip is every frame, this chunk included.
   */
  lemma EmitsOnlyCompleteRecordings<S>(cfg: Config, st: State<S>, chunk: seq<S>, isSpeech: bool, now: real)
    ensures var (_, clip) := Feed(cfg, st, chunk, isSpeech, now);
            && (clip.Some? <==> && st.isRecording && !isSpeech
                                && st.silenceCount + 1 >= cfg.maxSilenceChunks
                                && now - st.recordingStartTime >= cfg.minUtteranceDuration)
            && (clip.Some? ==> clip.value == Flatten(st.frames + [chunk]))
  {
  }

  /**
   * A run of silent chunks shorter than the threshold does not end a recording:
   * it only extends the frames and raises the count by its length.
   */
  lemma {:induction false} ShortSilenceKeepsRecording<S>(cfg: Config, st: State<S>, inputs: seq<Input<S>>)
    requires st.isRecording
    requires forall i :: 0 <= i < |inputs| ==> !inputs[i].isSpeech
    requires st.silenceCount + |inputs| < cfg.maxSilenceChunks
    ensures var (st', clips) := Run(cfg, st, inputs);
            && st'.isRecording && clips == []
            && st'.silenceCount == st.silenceCount + |inputs|
            && st'.recordingStartTime == st.recordingStartTime
            && |st'.frames| == |st.frames| + |inputs|
            && st'.frames[..|st.frames|] == st.frames
    decreases |inputs|
  {
    if inputs != [] {
      var st1 := Feed(cfg, st, inputs[0].chunk, false, inputs[0].now).0;
      ShortSilenceKeepsRecording(cfg, st1, inputs[1..]);
      var st' := Run(cfg, st1, inputs[1..]).0;
      assert st'.frames[..|st.frames|] == st'.frames[..|st1.frames|][..|st.frames|];
    }
  }

  // ---------------------------------------------------------------------------
  // Text joining of _transcribe
  // ---------------------------------------------------------------------------

  /** The stripped segment texts. */
  function StripAll(segments: seq<string>): (r: seq<string>)
    ensures |r| == |segments|
    ensures forall i :: 0 <= i < |segments| ==> r[i] == Strip(segments[i])
  {
    seq(|segments|, i requires 0 <= i < |segments| => Strip(segments[i]))
  }

  /** The transcript: the stripped segments joined by one space, then stripped. */
  function JoinSegments(segments: seq<string>): (r: string)
    ensures r == [] || (!IsSpace(r[0]) && !IsSpace(r[|r| - 1]))
  {
    Strip(Join(StripAll(segments), " "))
  }

  /** The transcript is empty exactly when every segment is blank. */
  lemma JoinSegmentsEmptyIff(segments: seq<string>)
    ensures JoinSegments(segments) == "" <==> forall i :: 0 <= i < |segments| ==> AllSpace(segments[i])
  {
    var parts := StripAll(segments);
    StripEmptyIff(Join(parts, " "));
    JoinAllSpaceIff(parts, " ");
    forall i | 0 <= i < |segments| ensures AllSpace(parts[i]) <==> AllSpace(segments[i]) {
      StripEmptyIff(segments[i]);
      StripEmptyIff(parts[i]);
    }
  }

  // ---------------------------------------------------------------------------
  // Transcriber
  // ---------------------------------------------------------------------------

  /** The recording part of the transcriber: its state lives in fields updated in place. */
  class Transcriber<S> {
    const cfg: Config
    var audioBuffer: seq<seq<S>>
    var frames: seq<seq<S>>
    var silenceCount: nat
    var isRecording: bool
    var recordingStartTime: real
    var transcriptionCount: nat

    /** The abstract state held by the fields. */
    function Current(): State<S>
      reads this
    {
      State(audioBuffer, frames, silenceCount, isRecording, recordingStartTime)
    }

    /** The recording buffers and thresholds of `__init__`. */
    constructor (sampleRate: nat, bufferSize: nat, preRollSeconds: real,
                 silenceSeconds: real, minUtteranceDuration: real)
      requires bufferSize > 0
      requires PreRollCapacity(sampleRate, bufferSize, preRollSeconds) >= 0
      ensures cfg == Config(PreRollCapacity(sampleRate, bufferSize, preRollSeconds),
                            MaxSilenceChunks(sampleRate, bufferSize, silenceSeconds),
                            minUtteranceDuration)
      ensures Current() == Initial() && transcriptionCount == 0
      ensures Inv(cfg, Current())
    {
      cfg := Config(PreRollCapacity(sampleRate, bufferSize, preRollSeconds),
                    MaxSilenceChunks(sampleRate, bufferSize, silenceSeconds),
                    minUtteranceDuration);
      audioBuffer := [];
      frames := [];
      silenceCount := 0;
      isRecording := false;
      recordingStartTime := 0.0;
      transcriptionCount := 0;
    }

    /** audio_callback: one chunk, the detector's verdict for it, and the time. */
    method AudioCallback(chunk: seq<S>, isSpeech: bool, now: real) returns (clip: Option<seq<S>>)
      modifies this
      ensures Current() == Feed(cfg, old(Current()), chunk, isSpeech, now).0
      ensures clip == Feed(cfg, old(Current()), chunk, isSpeech, now).1
      ensures transcriptionCount == old(transcriptionCount)
    {
      audioBuffer := Push(audioBuffer, chunk, cfg.preRollCapacity);
      clip := None;
      if isSpeech {
        if !isRecording {
          StartRecording(now);
        }
        frames := frames + [chunk];
        silenceCount := 0;
      } else if isRecording {
        frames := frames + [chunk];
        silenceCount := silenceCount + 1;
        if silenceCount >= cfg.maxSilenceChunks {
          clip := StopRecording(now);
        }
      }
    }

    /** _start_recording: the frames start from a copy of the pre-roll. */
    method StartRecording(now: real)
      modifies this
      ensures Current() == Start(old(Current()), now)
      ensures transcriptionCount == old(transcriptionCount)
    {
      isRecording := true;
      recordingStartTime := now;
      frames := audioBuffer;
      silenceCount := 0;
    }

    /** _stop_recording: a no-op while idle; otherwise ends the recording and emits it if long enough. */
    method StopRecording(now: real) returns (clip: Option<seq<S>>)
      modifies this
      ensures Current() == Stop(cfg, old(Current()), now).0
      ensures clip == Stop(cfg, old(Current()), now).1
      ensures transcriptionCount == old(transcriptionCount)
    {
      if !isRecording {
        return None;
      }
      isRecording := false;
      var recordingDuration := now - recordingStartTime;
      if recordingDuration < cfg.minUtteranceDuration {
        frames := [];
        return None;
      }
      var audioData := Flatten(frames);
      frames := [];
      clip := Some(audioData);
    }

    /**
     * The text part of _transcribe, given the segment texts the engine produced:
     * the transcript goes to the callback and is counted only when it is not empty.
     */
    method Transcribe(segments: seq<string>) returns (delivered: Option<string>)
      modifies this`transcriptionCount
      ensures delivered == if JoinSegments(segments) == "" then None else Some(JoinSegments(segments))
      ensures transcriptionCount == old(transcriptionCount) + (if delivered.Some? then 1 else 0)
    {
      var textParts: seq<string> := [];
      for i := 0 to |segments|
        invariant |textParts| == i
        invariant forall j :: 0 <= j < i ==> textParts[j] == Strip(segments[j])
      {
        textParts := textParts + [Strip(segments[i])];
      }
      assert textParts == StripAll(segments);
      var fullText := Strip(Join(textParts, " "));
      if fullText == "" {
        return None;
      }
      transcriptionCount := transcriptionCount + 1;
      delivered := Some(fullText);
    }
  }
}
