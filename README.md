# perception-voice core, modelled in Dafny

perception-voice is a local speech-to-text daemon. A recording thread feeds
microphone chunks through a two-stage voice-activity detector. A segmentation
state machine cuts the stream into utterance clips. A speech-to-text engine
turns each clip into text, which goes into a time-indexed transcription store.
Clients talk to the daemon over a Unix socket, sending one length-prefixed
JSON request per connection. `set <uid>` places a read marker. `get <uid>`
returns the utterances stored since that marker as JSON lines and moves the
marker forward.

This project models that core and proves its properties:

| file | module | what it models |
|---|---|---|
| `wrappers.dfy` | `Wrappers` | `Option` and `Result` |
| `strings.dfy` | `Strings` | Python's `str.isspace`, `str.strip` and `str.join` |
| `numbers.dfy` | `Numbers` | float-to-integer truncation (`int(x)`, numpy casts) |
| `buffer.dfy` | `Store` | `normalize_phrase` and the `TranscriptionBuffer` class |
| `transcriber.dfy` | `Segmenter` | the pre-roll deque, the audio callback, `_start_recording`, `_stop_recording` and the text joining of `_transcribe` |
| `ipc.dfy` | `Ipc` | length-prefixed framing, `_recv_exact`, `recv_message` and the request/response helpers |
| `server.dfy` | `Dispatch` | `_process_request` and `_on_transcription` |
| `vad.dfy` | `Vad` | the gating, frame shaping and counters of `VoiceActivityDetector.is_speech` |

## How the model is built

Each stateful Python class becomes a Dafny `class` with the same fields, and
its methods update them in place. Each such method is proved against a pure
function over the old state: `Store.Since`, `Store.Latest`, `Store.GetText`,
`Store.MarkersAfterGet` and `Store.Evict` for the store, `Segmenter.Feed`,
`Segmenter.Start` and `Segmenter.Stop` for the audio callback, and
`Ipc.Decode` and `Ipc.Consumed` for the receiving side of the socket. Lemmas
then state the promised properties of those functions.

Conventions:

- **Time.** Store timestamps are integers counting microseconds. Every
  operation that reads the clock takes the current time as a parameter `now`.
  The segmenter's wall-clock time is a real number of seconds.
- **Serialisation.** `Utterance.to_jsonl` is a function value fixed when the
  store is built. JSON payloads are opaque bytes. Decoded requests and
  responses are maps from keys to strings.
- **Classifiers.** The two voice-activity classifiers are function
  parameters. So is the `recv` chunking: `Ipc.Socket` holds the bytes still to
  arrive and how many bytes each `recv` hands over.

Behaviour worth noting:

- **Silence threshold.** `int(...)` truncates, so 0.6 s at 16 kHz with
  512-sample chunks is 18 chunks, not 19 (`Segmenter.ThresholdsTruncate`).
- **First speech chunk.** The speech chunk that starts a recording is pushed
  onto the pre-roll before the pre-roll is copied into the frames. It is
  then appended to the frames again, so with a non-zero pre-roll it appears
  twice in the clip (`Segmenter.SpeechWhileIdleStarts`).
- **Zero-length payload.** The empty payload is falsy, so `recv_message`
  returns `None` for a zero-length message exactly as for a closed
  connection (`Ipc.EmptyPayloadIsNoMessage`).
- **Error texts.** The missing-uid error text is `missing 'uid' field`, with
  quotes. A missing or empty command has its own error, `missing 'command'
  field`, which is checked before the uid.
- **Markers follow the clock.** `set_marker` overwrites the marker with the
  current time, so markers are guaranteed never to move back only while the
  clock never goes back and no entry is stamped in the future (`Store.SetMarkerKeepsOrder`,
  `Store.GetKeepsNotAhead`, `Store.AddKeepsNotAhead`).

## Model

| member | source | states |
|---|---|---|
| Store.LowerChar | perception_voice/buffer.py:21 | `A`-`Z` map to `a`-`z`; ASCII lower-case letters and digits are kept; the Kelvin sign becomes `k` and dotted capital I becomes `i` plus a combining dot |
| Store.Lower | perception_voice/buffer.py:21 | lower-casing never shortens the text |
| Store.KeepAsciiAlnum | perception_voice/buffer.py:21 | the filter keeps only `a-z` and `0-9`, never lengthens the text, and keeps a one-character text exactly when that character is kept |
| Store.KeepMembers | perception_voice/buffer.py:21 | a character is in the filtered text exactly when it is in the input and is one of `a-z`, `0-9` |
| Store.KeepAppend | perception_voice/buffer.py:21 | the filter works character by character: filtering a concatenation concatenates the filtered parts |
| Store.NormalizePhrase | perception_voice/buffer.py:19-21 | a normalised phrase consists of `a-z` and `0-9` only |
| Store.NormalizeFixesAlnum | perception_voice/buffer.py:19-21 | a text already made of `a-z` and `0-9` normalises to itself |
| Store.NormalizeIdempotent | perception_voice/buffer.py:19-21 | normalising twice gives the same phrase as normalising once |
| Store.NormalizeIgnoresAsciiCase | perception_voice/buffer.py:19-21 | two texts that differ only in the case of ASCII letters normalise to the same phrase |
| Store.Since | perception_voice/buffer.py:145-147 | the selected entries are never more than the list holds |
| Store.SinceMembers | perception_voice/buffer.py:145-147 | an entry is selected exactly when it is in the list and strictly newer than the marker |
| Store.LatestBounds | perception_voice/buffer.py:144-149 | the `latest_timestamp` accumulator is at least the marker and every timestamp, and is the marker or one of the timestamps |
| Store.Lines | perception_voice/buffer.py:147 | one JSONL line per selected entry, in list order |
| Store.GetText | perception_voice/buffer.py:134-157 | an unknown client, or a known one with nothing newer than its marker, gets ""; a single newer entry gives exactly its JSONL line |
| Store.MarkersAfterGet | perception_voice/buffer.py:134-154 | a get adds the client's marker if missing (at `now`) and touches no other client's; a known marker stays put when nothing was returned |
| Store.KeepFrom | perception_voice/buffer.py:167-176 | `keep_from` is the first entry whose age is within the window, or the length when none is; every entry before it is too old |
| Store.SinceSortedIsSuffix | perception_voice/buffer.py:145-147 | on a list in time order, the entries newer than a marker form a suffix of the list |
| Store.SinceSortedSkipsOnlyOld | perception_voice/buffer.py:145-147 | on a list in time order, every entry before that suffix is at or before the marker |
| Store.SinceNoneNewer | perception_voice/buffer.py:145-147 | nothing is returned when no timestamp is after the marker |
| Store.GetNeverDecreasesMarker | perception_voice/buffer.py:151-154 | a get never moves the client's marker backwards and leaves every other client's marker as it was |
| Store.GetAdvancesToNewestReturned | perception_voice/buffer.py:144-154 | after a get the marker is the newest returned timestamp, not "now", and is unchanged when nothing was returned |
| Store.RepeatGetIsEmpty | perception_voice/buffer.py:143-157 | an immediate second get for a known client returns "" |
| Store.FirstGetIsEmpty | perception_voice/buffer.py:135-140 | a get for an unknown client returns "", and the next one also returns "" when no entry lies after the time of the first |
| Store.Evict | perception_voice/buffer.py:159-181 | cleanup keeps a suffix of the list whose first entry is inside the window, and every dropped entry is outside it |
| Store.EvictKeepsSuffix | perception_voice/buffer.py:159-181 | cleanup keeps a suffix of the list: every dropped entry is older than the window, and the first kept one is inside it (the boundary is inclusive) |
| Store.EvictSortedKeepsExactlyRetained | perception_voice/buffer.py:168-180 | on a list in time order, cleanup keeps exactly the entries inside the window |
| Store.EvictKeepsNewest | perception_voice/buffer.py:101-105 | an entry stamped "now" and just appended is the last entry after cleanup, whenever the retention is not negative |
| Store.AddAtNowKeepsSorted | perception_voice/buffer.py:101-105 | appending an entry stamped "now" to a time-ordered list with nothing in the future keeps it time-ordered after cleanup |
| Store.SetMarkerKeepsOrder | perception_voice/buffer.py:110-120 | when the clock does not go back, `set_marker` keeps every marker and timestamp at or before the clock and lowers no marker |
| Store.GetKeepsNotAhead | perception_voice/buffer.py:134-154 | when the clock does not go back, a get keeps every marker and timestamp at or before the clock |
| Store.AddKeepsNotAhead | perception_voice/buffer.py:101-105 | when the clock does not go back, adding an entry stamped by the clock, then cleaning up, keeps every marker and timestamp at or before the clock |
| Store.TranscriptionBuffer.constructor | perception_voice/buffer.py:54-71 | the discard set is the set of normalised configured phrases; the list and the markers start empty |
| Store.TranscriptionBuffer.ShouldDiscard | perception_voice/buffer.py:73-78 | a text is discarded exactly when its normalised form is in the discard set; an empty set discards nothing |
| Store.TranscriptionBuffer.Add | perception_voice/buffer.py:80-108 | the text is added exactly when its stripped form is non-empty and not a discard phrase; a rejected text changes nothing; an added one is stored stripped, stamped with the given time or else `now`, then old entries are evicted; markers never change |
| Store.TranscriptionBuffer.SetMarker | perception_voice/buffer.py:110-120 | the client's marker becomes `now`; all other markers and the list are unchanged |
| Store.TranscriptionBuffer.GetSinceMarker | perception_voice/buffer.py:122-157 | an unknown client gets "" and a marker at `now`; a known one gets the JSONL lines of the entries newer than its marker, joined by newlines in list order, and its marker moves to the newest of them; the list is unchanged |
| Store.TranscriptionBuffer.CleanupOldEntries | perception_voice/buffer.py:159-181 | the list becomes its suffix from the first entry inside the window; markers are unchanged |
| Strings.TrimStart | perception_voice/buffer.py:94 | what is removed from the front is whitespace only, and the rest is empty or starts with a non-whitespace character |
| Strings.TrimEnd | perception_voice/buffer.py:94 | what is removed from the end is whitespace only, and the rest is empty or ends with a non-whitespace character |
| Strings.Strip | perception_voice/buffer.py:91-94 | the stripped text is empty or starts and ends with a non-whitespace character |
| Strings.StripEmptyIff | perception_voice/buffer.py:91-92 | stripping gives "" exactly when the text is empty or whitespace only |
| Strings.Join | perception_voice/transcriber.py:257 | joining no parts gives "", and joining one part gives that part |
| Strings.JoinEnds | perception_voice/buffer.py:157 | with two or more parts, the joined text starts with the first part and the separator, and ends with the separator and the last part |
| Strings.JoinAllSpaceIff | perception_voice/transcriber.py:257 | joining with a whitespace separator gives whitespace only exactly when every part is whitespace only |
| Numbers.Trunc | perception_voice/transcriber.py:74-77 | `int()` truncates toward zero |
| Segmenter.PreRollCapacity | perception_voice/transcriber.py:66-71 | the deque's `maxlen` is the product of whole chunks per second and the pre-roll seconds, truncated toward zero |
| Segmenter.MaxSilenceChunks | perception_voice/transcriber.py:74-77 | the silence threshold is the product of chunks per second and the silence seconds, truncated toward zero |
| Segmenter.ThresholdsTruncate | perception_voice/transcriber.py:66-77 | both capacities truncate: 31 pre-roll chunks and 18 silence chunks at 16 kHz, 512-sample chunks, 1 s and 0.6 s |
| Segmenter.Push | perception_voice/transcriber.py:66-71 | appending to the bounded deque keeps its last `maxlen` items: the new chunk is last and the oldest give way |
| Segmenter.Flatten | perception_voice/transcriber.py:231 | concatenating a single chunk gives that chunk |
| Segmenter.FlattenConcat | perception_voice/transcriber.py:231 | concatenation loses, duplicates and reorders no sample: concatenating two runs of chunks is concatenating their concatenations |
| Segmenter.Start | perception_voice/transcriber.py:203-213 | recording starts at `now`, with a zero silence count, from the frames in the pre-roll, which is unchanged |
| Segmenter.Stop | perception_voice/transcriber.py:215-242 | a no-op while idle; otherwise recording stops with no frames kept, and a clip of all recorded frames, in order, comes exactly when the recording lasted at least the minimum duration |
| Segmenter.Feed | perception_voice/transcriber.py:162-187 | every chunk enters the pre-roll; speech leaves the machine recording with a zero silence count and emits nothing; a clip comes only from a silent chunk that ends a recording at the threshold |
| Segmenter.FeedKeepsInv | perception_voice/transcriber.py:162-187 | every callback keeps the pre-roll within capacity, and frames empty exactly while not recording |
| Segmenter.FeedPushesPreRoll | perception_voice/transcriber.py:170 | every chunk enters the pre-roll whatever the state, and a full pre-roll drops its oldest chunk |
| Segmenter.IdleSilenceOnlyFillsPreRoll | perception_voice/transcriber.py:175-187 | a silent chunk while idle changes nothing but the pre-roll |
| Segmenter.AllSilenceNeverRecords | perception_voice/transcriber.py:175-187 | a stream of silent chunks never starts a recording and never emits a clip |
| Segmenter.SpeechWhileIdleStarts | perception_voice/transcriber.py:170-180 | speech while idle starts recording at `now` with a zero silence count; the frames are the pre-roll (already holding the chunk) plus the chunk again |
| Segmenter.RecordingStep | perception_voice/transcriber.py:179-187 | while recording, every chunk is appended; speech resets the silence count, silence increments it, and the recording ends exactly when the count reaches the threshold |
| Segmenter.EmitsOnlyCompleteRecordings | perception_voice/transcriber.py:215-232 | a clip is emitted exactly when silence ends a recording that lasted at least the minimum duration, and it is all frames concatenated |
| Segmenter.ShortSilenceKeepsRecording | perception_voice/transcriber.py:182-187 | a silence run shorter than the threshold never ends a recording; it only extends the frames and the count |
| Segmenter.StripAll | perception_voice/transcriber.py:253-255 | each segment text is stripped, in order |
| Segmenter.JoinSegments | perception_voice/transcriber.py:257 | the transcript is empty or has no surrounding whitespace |
| Segmenter.JoinSegmentsEmptyIff | perception_voice/transcriber.py:257-260 | the transcript is empty exactly when every segment is blank |
| Segmenter.Transcriber.constructor | perception_voice/transcriber.py:65-81 | the capacities are the truncated products; the state starts idle and empty |
| Segmenter.Transcriber.AudioCallback | perception_voice/transcriber.py:162-187 | the fields and the emitted clip are one step of the segmenter |
| Segmenter.Transcriber.StartRecording | perception_voice/transcriber.py:203-213 | recording starts at `now` from a copy of the pre-roll, with a zero silence count |
| Segmenter.Transcriber.StopRecording | perception_voice/transcriber.py:215-242 | a no-op while idle; otherwise recording stops, the frames are cleared, and the concatenated frames are emitted only when long enough |
| Segmenter.Transcriber.Transcribe | perception_voice/transcriber.py:253-262 | a non-empty transcript is delivered and counted; an empty one is neither |
| Ipc.PackLength | perception_voice/ipc.py:82 | the header is four bytes |
| Ipc.UnpackLength | perception_voice/ipc.py:101 | a header encodes a length below 2^32 |
| Ipc.UnpackPack | perception_voice/ipc.py:82-101 | unpacking a packed length gives the length back, for every length below 2^32 |
| Ipc.PackUnpack | perception_voice/ipc.py:82-101 | packing an unpacked header gives the header back |
| Ipc.SendMessage | perception_voice/ipc.py:68-83 | a payload over 1 MiB is rejected before anything is written, and exactly 1 MiB is accepted; otherwise the bytes are the big-endian length then the payload |
| Ipc.Socket.Recv | perception_voice/ipc.py:127 | `recv` returns an in-order prefix of the pending bytes, at most the requested size, and is empty only at end of stream |
| Ipc.RecvExact | perception_voice/ipc.py:114-131 | exactly the next `size` bytes in order, whatever the chunking, or None when the stream ends first |
| Ipc.Decode | perception_voice/ipc.py:86-111 | a stream shorter than the header is no message; an error carries the declared length, which is over 1 MiB; a message is the 1 byte to 1 MiB of payload the header declares, taken right after it |
| Ipc.Consumed | perception_voice/ipc.py:96-109 | a receive never takes more bytes than the stream holds |
| Ipc.RecvMessage | perception_voice/ipc.py:86-111 | the outcome depends only on the byte stream, not its chunking; an oversize length is rejected after the header, leaving the body unread |
| Ipc.FrameRoundTrip | perception_voice/ipc.py:76-111 | a sent frame for a payload of 1 byte to 1 MiB is received as that payload, whatever follows it |
| Ipc.EmptyPayloadIsNoMessage | perception_voice/ipc.py:107-109 | a zero-length payload is received as no message |
| Ipc.OversizeRejectedBeforeBody | perception_voice/ipc.py:103-104 | a declared length over 1 MiB is an error after the 4 header bytes, whatever the body |
| Ipc.TruncatedFrameIsNoMessage | perception_voice/ipc.py:96-109 | a stream that ends inside the header or the body is received as no message |
| Ipc.MakeSetRequest | perception_voice/ipc.py:136-138 | the request has exactly the keys `command` = "set" and `uid` |
| Ipc.MakeGetRequest | perception_voice/ipc.py:141-143 | the request has exactly the keys `command` = "get" and `uid` |
| Ipc.MakeOkResponse | perception_voice/ipc.py:146-151 | `status` is "ok", and `text` is present exactly when a text is given |
| Ipc.MakeErrorResponse | perception_voice/ipc.py:154-156 | exactly `status` = "error" and `message` |
| Ipc.ResponsesAreDistinct | perception_voice/ipc.py:146-156 | an ok response is never an error response; only errors carry a message and only oks a text |
| Dispatch.Route | perception_voice/server.py:157-183 | the command is checked first; a store call happens exactly for `set` or `get` with a non-empty uid; otherwise the error names the missing field or the unknown command |
| Dispatch.RouteSetRequest | perception_voice/server.py:165-171 | a set request built by the client helper reaches `set_marker` for its uid, unless the uid is empty |
| Dispatch.RouteGetRequest | perception_voice/server.py:173-180 | a get request built by the client helper reaches `get_since_marker` for its uid, unless the uid is empty |
| Dispatch.Server.ProcessRequest | perception_voice/server.py:157-183 | a refused request leaves the store unchanged and gets the error response; `set` moves the marker and answers ok without text; `get` answers ok with the store's text, present even when "" |
| Dispatch.Server.OnTranscription | perception_voice/server.py:106-115 | the text goes to `add`, stamped now, only when a store exists |
| Vad.Clip | perception_voice/vad.py:88 | samples are clipped into [-1, 1]: samples inside are unchanged, samples above become 1 and samples below become -1 |
| Vad.ToInt16 | perception_voice/vad.py:88-89 | the 16-bit sample is the clipped sample times 32767, truncated toward zero; it lies in [-32767, 32767] and keeps the sign of the input |
| Vad.ToPcm | perception_voice/vad.py:89 | the conversion is sample by sample and keeps the length |
| Vad.Fit | perception_voice/vad.py:92-95 | exactly `n` samples: the leading samples of the input, then zeros |
| Vad.PadTo | perception_voice/vad.py:115-118 | an input of at least `n` samples is unchanged; a shorter one is zero-padded to `n` |
| Vad.CoarseFrame | perception_voice/vad.py:84-95 | the coarse stage always sees exactly 480 samples |
| Vad.ConfirmInput | perception_voice/vad.py:113-118 | the confirming stage always sees at least 512 samples |
| Vad.CoarseFrameContents | perception_voice/vad.py:92-95 | the coarse frame holds the converted leading samples of the chunk, then zeros |
| Vad.UsualChunkShaping | perception_voice/vad.py:84-118 | a 512-sample chunk reaches the confirming stage unchanged, and only its first 480 samples reach the coarse stage |
| Vad.VoiceActivityDetector.constructor | perception_voice/vad.py:67-70 | all three counters start at zero |
| Vad.VoiceActivityDetector.IsSpeech | perception_voice/vad.py:72-129 | every call is counted; a coarse rejection gives (false, 0.0) without a confirming check; a coarse acceptance or exception is confirmed, and the verdict is probability > sensitivity; an exception from the confirming classifier ends the call with no answer after the confirming check was counted and no speech counted; speech ≤ confirming checks ≤ coarse checks holds throughout |
| Vad.VoiceActivityDetector.ResetStatistics | perception_voice/vad.py:144-148 | all three counters become zero |

## Left out

- Microphone capture, the `_recording_worker` sleep loop and microphone auto-detection: device I/O. The model covers the callback the stream invokes, with the chunk, the voice-activity verdict and the time as parameters.
- The speech-to-text engine: external. `Segmenter.Transcriber.Transcribe` takes the segment texts it produced and returns the transcript handed to the callback. The callback itself is not part of this model.
- Vad.VoiceActivityDetector.IsSpeech: the audio callback in `Segmenter` takes the verdict as a parameter, so an exception from the confirming classifier, which leaves the source's callback after the pre-roll append and before any recording step, is modelled only in the detector.
- The WebRTC and Silero classifiers: foreign code. They are function parameters of `Vad.VoiceActivityDetector.IsSpeech`. The `int16` byte serialisation of the coarse frame is not modelled.
- Vad.ToInt16: samples are reals, so float32 rounding of the scaled sample and NaN inputs are not modelled.
- `get_statistics` in the detector, `get_stats` in the store: reporting only, and the efficiency percentage is a float.
- Threads, the re-entrant lock, the running flags, signal handling and start/stop: each store operation is one atomic method call.
- Socket creation, binding, permissions, the accept loop, `_handle_client` and shutdown: OS I/O. The chunking of `recv` is a parameter of `Ipc.Socket`.
- JSON encoding and decoding, and the ISO-8601 formatting in `to_jsonl`: payloads are opaque bytes, JSONL lines come from an uninterpreted `to_jsonl`, and requests are maps with string values. A request field holding a non-string JSON value, such as a number or null, is not modelled.
- Dispatch.Server.ProcessRequest: requires the store to exist. Before the server has started its store, the source would raise, and the connection handler would answer with that exception's text.
- Store.TranscriptionBuffer.SetMarker: `set_marker` overwrites the marker with the current time, so a marker moves backwards when the clock steps back, or after a get moved it to an explicitly passed future timestamp. The model proves markers never go back only under `Store.NotAhead` with a clock that does not go back.
- Store.TranscriptionBuffer.Add: the source reads the clock twice, once to stamp the utterance and once for the eviction cutoff. The model uses one `now` for both. Mixing naive and aware datetimes, which raises in the source, is not modelled.
- Store.LowerChar: `str.lower` is exact only for the characters whose lower-case form contains an ASCII letter or digit. Every other character is kept unchanged, and the normalisation filter removes both it and its true lower-case form, so `NormalizePhrase` is unaffected.
- Segmenter.Transcriber.constructor: the capacities are computed on exact reals, while the source multiplies doubles, so they can differ by one: at 16 kHz with 160-sample chunks and 0.29 s, the double product is 28.999999999999996 and the source's capacity is 28, where the model's is 29. Segmenter.PreRollCapacity and Segmenter.MaxSilenceChunks share this gap.
- Segmenter.Transcriber.constructor: requires a positive chunk size and a non-negative pre-roll capacity. In the source these raise `ZeroDivisionError` and `ValueError`.
- cli.py, config.py, client.py and `__init__.py` are not part of this model.
