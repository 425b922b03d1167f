# Live tutor audio core, modelled in Dafny

This project models the two pieces of the language tutor's live conversation
feature that do real work.

- **The PCM wire codec** (`createPcmBlob` and `decodeAudioData` in
  `services/geminiService.ts`).
  - Encoding turns a captured microphone frame into signed 16-bit samples.
    It lays them out little-endian and base64-encodes them with `btoa`
    (section 4 of RFC 4648).
  - Decoding reverses this: `atob`, then the bytes are read as int16
    samples and divided by 32768 into a one-channel 24 kHz buffer.
- **The playback scheduler and session lifecycle** (`components/LiveTutor.tsx`).
  - Segments of synthesized speech are scheduled back to back against the
    output clock, using the cursor `nextStartTime` and a set of active
    sources.
  - An `interrupted` message flushes them.
  - `stopSession` tears the session and both audio contexts down.

Files:

- `wrappers.dfy`: `Option` and `Result`.
- `base64.dfy` (module `Base64`): `btoa`/`atob`.
  - Encoding uses the RFC 4648 alphabet with `=` padding.
  - Decoding follows the WHATWG "forgiving-base64 decode", which is what
    `atob` runs: ASCII whitespace is skipped and padding is optional. A
    length of 1 modulo 4, or a character outside the alphabet, throws.
- `pcm.dfy` (module `Pcm`): `ToInt16`, little-endian packing, and the pure
  functions `PcmBlob` and `DecodeAudio`.
  - The two source helpers appear as the methods `CreatePcmBlob` and
    `DecodeAudioData`. Their loops fill arrays as the source's loops do,
    and each is proved equal to its pure function.
- `playback.dfy` (module `Playback`): the scheduler's state as a value.
  - The state is the cursor, the active set, the stopped sources and the
    log of `source.start(t)` calls.
  - Its steps are `CatchUp`, `Launch`, `Schedule`, `Ended`, `Interrupt`
    and the whole message handler `Deliver`.
  - It also holds the invariant `Consistent` and the lemmas about all of
    these.
- `tutor.dfy` (module `Tutor`): class `LiveTutor`.
  - Its fields are the component's refs and state: `isActive`, `status`,
    `volume`, the session and the two context handles, `nextStartTime` and
    `sources`.
  - Records of what it asked of the browser objects are fields too:
    sources started and stopped, frames sent, handles closed.
  - Each event handler is a method. `HandleMessage` is specified by
    `Playback.Deliver`, and every method keeps `Valid()`.

Modelling choices:

- A captured sample is its already-scaled value `trunc(x * 32768)`, an
  integer. The `Int16Array` store wraps it modulo 2^16 (`Pcm.ToInt16`).
- A decoded value `v / 32768` is exactly representable in single
  precision, so it is a `real`.
- The `Int16Array` and `Uint8Array` views use the platform's byte order,
  which is taken to be little-endian, as it is on every browser platform.
- Times are `real` seconds.
- The output clock's `currentTime` is the parameter `now`.
- A buffer lasts its frame count over 24000.
- Browser objects are numbers. The caller supplies a new number for each
  source and output context that the component creates. This is the
  reason for the `FreshSource` and `FreshContext` preconditions.

Behaviour of the code worth knowing, all of it modelled as written:

- The close and error callbacks (components/LiveTutor.tsx:90-98) only set
  the status and clear `isActive`. The session, the contexts and the
  active set stay (`OnClose`, `OnError`).
- `stopSession` (components/LiveTutor.tsx:108-126) leaves `nextStartTime`
  alone. Of the lifecycle handlers only `startSession` resets it (line 58);
  an interruption also sets it to 0 (line 87).
- `stopSession` empties the active set without calling `stop()` on its
  sources. Only an interruption stops sources (`stopped` is unchanged by
  `StopSession`).
- `startSession` (components/LiveTutor.tsx:23-105) overwrites the refs
  without closing the handles of an earlier session (`closed` is unchanged
  by `StartSession`).
- A payload that fails to decode makes the message handler throw after
  the cursor has caught up with the clock (components/LiveTutor.tsx:66-70).
  An `interrupted` flag on the same message is then never acted on
  (`Playback.DeliverDecodeFailure`).
- The round trip is within 1/32768 for samples in [-1, 1)
  (`Pcm.QuantizationError`). A sample of exactly 1.0 scales to 32768,
  which the `Int16Array` store wraps to -32768, so it comes back as -1.0
  (`Pcm.FullScaleWraps`).
- An empty payload string is falsy, so it counts as "no audio"
  (`Playback.HasAudio`).
- A non-empty payload that decodes to zero bytes, such as a single space,
  reaches `ctx.createBuffer(1, 0, 24000)` (services/geminiService.ts:232).
  The Web Audio API rejects a zero-length buffer with NotSupportedError,
  so the handler throws (`Pcm.EmptyBuffer`).

## Model

| member | source | states |
|---|---|---|
| Base64.Symbol | services/geminiService.ts:211 | every 6-bit value maps to a character of the RFC 4648 section 4 alphabet, and `Value` maps that character back to the value |
| Base64.Encode | services/geminiService.ts:211 | `btoa` output of n bytes has length 4·⌈n/3⌉ and uses only the alphabet and `=` |
| Base64.ForgivingDecode | services/geminiService.ts:223 | `atob` succeeds exactly when the text, with whitespace removed and trailing padding stripped, is not 1 modulo 4 long and uses only the alphabet |
| Base64.DecodeEncode | services/geminiService.ts:211-223 | decoding the padded encoding of any byte sequence gives that sequence back |
| Base64.AtobBtoa | services/geminiService.ts:211-223 | `atob(btoa(s))` returns `s` for every binary string |
| Base64.RejectsLengthOneModFour | services/geminiService.ts:223 | a text of alphabet characters whose length is 1 modulo 4 makes `atob` throw |
| Base64.BinaryString | services/geminiService.ts:208-210 | appending `String.fromCharCode(b)` for each byte gives a binary string whose character codes are exactly the bytes |
| Base64.CharCodes | services/geminiService.ts:226-228 | the `charCodeAt` copy of a binary string has one byte per character, equal to its code |
| Base64.Btoa | services/geminiService.ts:211 | `btoa` of a binary string of n characters is 4·⌈n/3⌉ characters of the alphabet and `=` |
| Base64.Atob | services/geminiService.ts:223 | `atob` succeeds exactly when the forgiving decode does, and then yields a binary string with one character per decoded byte |
| Base64.AtobCodes | services/geminiService.ts:223-228 | the character codes of the string `atob` returns are exactly the forgiving-decoded bytes, for any text, not only encoder output |
| Pcm.ToInt16 | services/geminiService.ts:200-203 | the stored sample is congruent to the scaled value modulo 2^16 and lies in [-32768, 32767]; values already in range are stored unchanged |
| Pcm.ScaledSample | services/geminiService.ts:202 | `x * 32768` as the integer store truncates it toward zero: same sign as x, and less than one below its magnitude |
| Pcm.Quantize | services/geminiService.ts:200-203 | one stored sample per captured sample, each congruent to it modulo 2^16 and equal to it when it is in the int16 range |
| Pcm.LeBytes | services/geminiService.ts:205-206 | a sample is two bytes, low byte first, whose unsigned value is the sample modulo 2^16 |
| Pcm.FromLe | services/geminiService.ts:230 | the int16 view of a low and a high byte is the signed sample congruent to lo + 256·hi |
| Pcm.FromLeOfLeBytes | services/geminiService.ts:206-230 | reading a sample's two bytes back gives the sample |
| Pcm.LeBytesOfFromLe | services/geminiService.ts:206-230 | writing the sample read from two bytes gives the two bytes |
| Pcm.Pack | services/geminiService.ts:206 | the byte view of n samples is 2n bytes |
| Pcm.PackAt | services/geminiService.ts:205-210 | byte pair 2i, 2i+1 of the view is sample i, low byte first |
| Pcm.Unpack | services/geminiService.ts:230 | `new Int16Array(buffer)` fails exactly on an odd byte length |
| Pcm.UnpackAt | services/geminiService.ts:230-231 | sample i of the view is read from bytes 2i and 2i+1 |
| Pcm.UnpackPack | services/geminiService.ts:206-230 | reading back the bytes of any sample sequence gives the samples |
| Pcm.PackUnpack | services/geminiService.ts:206-230 | writing back the samples read from an even byte sequence gives the bytes |
| Pcm.PcmBlob | services/geminiService.ts:198-217 | the MIME type is always `audio/pcm;rate=16000`; the data has length 4·⌈2n/3⌉ and uses only the alphabet and `=` |
| Pcm.PcmBlobBytes | services/geminiService.ts:199-211 | the data of any frame, the empty one included, decodes to exactly 2n bytes, pair 2i, 2i+1 being the little-endian ToInt16 of sample i |
| Pcm.CreatePcmBlob | services/geminiService.ts:198-217 | the int16 loop and the character loop build exactly `PcmBlob` of the frame |
| Pcm.DecodeAudio | services/geminiService.ts:219-239 | a decoded buffer always has one channel at 24000 Hz and at least one frame |
| Pcm.Normalize | services/geminiService.ts:235-237 | one channel value per int16 sample, each in [-1, 1) and equal to the sample over 32768 |
| Pcm.DecodeAudioOutcome | services/geminiService.ts:223-237 | invalid base64 fails; an odd byte count fails with the range error; zero bytes fail with `createBuffer`'s NotSupportedError; otherwise there are bytes/2 frames lasting bytes/2/24000 s, frame i being the little-endian sample at bytes 2i, 2i+1 over 32768, in [-1, 1) |
| Pcm.DecodeAudioData | services/geminiService.ts:219-239 | the byte loop, the zero-frame check of `createBuffer` and the channel loop produce exactly `DecodeAudio` of the payload, errors included |
| Pcm.PcmRoundTrip | services/geminiService.ts:198-239 | decoding an encoded non-empty frame gives a 24 kHz mono buffer whose value i is ToInt16(sample i) / 32768; an empty frame fails to decode |
| Pcm.QuantizationError | services/geminiService.ts:202 | for x in [-1, 1) the decoded value is within 1/32768 of x |
| Pcm.FullScaleWraps | services/geminiService.ts:202 | x = 1.0 is stored as -32768 |
| Playback.Max | components/LiveTutor.tsx:68 | `Math.max` is an upper bound of both arguments and equal to one of them |
| Playback.CatchUp | components/LiveTutor.tsx:68 | the cursor becomes `Math.max(cursor, currentTime)`: never behind the clock, never moved back; the set, the stopped sources and the log are unchanged |
| Playback.Launch | components/LiveTutor.tsx:79-81 | one segment is appended for the source on that context, starting at the old cursor and lasting the buffer's duration; the new cursor is its end; the source joins the active set |
| Playback.Schedule | components/LiveTutor.tsx:68-81 | the new segment is this source on this context, starting at max(cursor, now), never before the clock, and lasting the buffer's duration; the cursor moves to its end; the source joins the set; nothing is stopped |
| Playback.Ended | components/LiveTutor.tsx:75-77 | the source leaves the active set and no other source does; cursor, stopped sources and log are unchanged |
| Playback.Interrupt | components/LiveTutor.tsx:84-88 | every active source is stopped, the set is emptied and the cursor is 0; the log is unchanged |
| Playback.HasAudio | components/LiveTutor.tsx:65-66 | a payload is acted on exactly when it is present and non-empty (a truthy string) |
| Playback.Deliver | components/LiveTutor.tsx:64-89 | the handler fails only when it had a payload and an output context, leaving just the caught-up cursor; a message with `interrupted` that did not fail leaves an empty set and cursor 0; the log gains at most one segment, for this message's source |
| Playback.InitialConsistent | components/LiveTutor.tsx:14-15 | the initial cursor 0 and empty set satisfy the scheduler invariant |
| Playback.CatchUpConsistent | components/LiveTutor.tsx:68 | moving the cursor up to the clock keeps the invariant |
| Playback.LaunchConsistent | components/LiveTutor.tsx:79-81 | starting a new source at the cursor keeps active segments on one context disjoint and ending by the cursor |
| Playback.EndedConsistent | components/LiveTutor.tsx:75-77 | the `ended` removal keeps the invariant |
| Playback.InterruptConsistent | components/LiveTutor.tsx:84-88 | the flush keeps the invariant |
| Playback.RestartConsistent | components/LiveTutor.tsx:56-58 | a new output context with the cursor reset to 0 keeps the invariant |
| Playback.ClearedConsistent | components/LiveTutor.tsx:118-122 | an empty set with no output context satisfies the invariant |
| Playback.DeliverConsistent | components/LiveTutor.tsx:64-89 | every inbound message keeps the invariant: active segments on one context never overlap |
| Playback.DeliverSchedules | components/LiveTutor.tsx:66-81 | a decodable payload with an output context starts at max(cursor, now); the cursor becomes that start plus frames/24000; the source joins the set; nothing is stopped |
| Playback.DeliverAudioThenFlush | components/LiveTutor.tsx:65-88 | audio plus `interrupted`: the segment is started, then stopped with all others; the set is empty and the cursor 0 |
| Playback.DeliverWithoutAudio | components/LiveTutor.tsx:65-88 | without a payload or an output context nothing is started; the state is unchanged unless interrupted, and then the set is flushed and the cursor is 0 |
| Playback.DeliverDecodeFailure | components/LiveTutor.tsx:66-70 | a payload that fails to decode leaves only the caught-up cursor and reports the error, even when `interrupted` is set |
| Playback.EndedRemovesOnlyThatSource | components/LiveTutor.tsx:75-77 | `ended` removes exactly that source; cursor and log unchanged |
| Playback.EndedAfterInterrupt | components/LiveTutor.tsx:75-88 | `ended` events of flushed sources change nothing |
| Playback.ScheduleAfterInterrupt | components/LiveTutor.tsx:68-87 | after a flush the next segment starts at the live clock time, not the stale cursor |
| Playback.ScheduleAllLog | components/LiveTutor.tsx:68-81 | a run of segments appends one start per segment at the computed start times and leaves the cursor at the end of the last |
| Playback.BackToBack | components/LiveTutor.tsx:68-80 | consecutive segments never overlap, and start(i+1) = start(i) + d(i) exactly when the clock has not passed the cursor |
| Playback.TwoSegmentScenario | components/LiveTutor.tsx:68-80 | segments of 1.0 s and 0.5 s from cursor 0 at time 0 start at 0.0 and 1.0 and leave the cursor at 1.5 |
| Tutor.StatusTextDistinct | components/LiveTutor.tsx:8-124 | the status strings set by the component are pairwise different, so the text shown identifies the status |
| Tutor.ReleasesExactly | components/LiveTutor.tsx:109-121 | `stopSession` closes a handle exactly when its ref is set; at most three handles, none closed twice |
| Tutor.LiveTutor.constructor | components/LiveTutor.tsx:7-15 | the component starts stopped, cursor 0, nothing recorded |
| Tutor.LiveTutor.StartSession | components/LiveTutor.tsx:23-105 | without the microphone only the status and flag change; with it both contexts and the session are set, the cursor is 0, `isActive` is true, and nothing is closed |
| Tutor.LiveTutor.OnOpen | components/LiveTutor.tsx:61-63 | the status becomes connected, shown as `¡Conectado! Di "Hello" a tu tutor.` |
| Tutor.LiveTutor.OnAudioProcess | components/LiveTutor.tsx:37-51 | the volume becomes the frame's level; the frame's blob is sent on the session when one is set and dropped otherwise |
| Tutor.LiveTutor.HandleMessage | components/LiveTutor.tsx:64-89 | the scheduler state becomes `Deliver` of the old state, and the invariant is kept |
| Tutor.LiveTutor.OnSourceEnded | components/LiveTutor.tsx:75-77 | only that source leaves the set |
| Tutor.LiveTutor.OnClose | components/LiveTutor.tsx:90-93 | status closed (`Conexión cerrada`) and `isActive` false; nothing else changes |
| Tutor.LiveTutor.OnError | components/LiveTutor.tsx:94-98 | status error (`Ocurrió un error`) and `isActive` false; nothing else changes |
| Tutor.LiveTutor.StopSession | components/LiveTutor.tsx:108-126 | the session and both contexts are closed once each and nulled; the set is empty, `isActive` false, volume 0, status ready (`Listo para conectar`); the cursor is kept; from the stopped state it changes nothing, so a second call is a no-op |

## Left out

- The Gemini SDK calls (`translateText`, `getPronunciationGuide`, `generateScenario`, `generateScenarioVideo` with its polling loop, `analyzeMedia`, `askCultureQuestion`, `getLiveSession`): foreign network calls with opaque results. The live session appears only through its callbacks and through the `sent` and `closed` records.
- `fileToGenerativePart`: FileReader I/O.
- App.tsx, the navigation, scenario builder, media analyzer and pronunciation guide components, and types.ts: view and state plumbing with nothing to verify. The pronunciation guide's fallback PCM loop repeats the inner loop of `decodeAudioData`.
- Web Audio and microphone APIs (`getUserMedia`, `AudioContext`, `createScriptProcessor`, `createBufferSource`, playback, `close()`; of `createBuffer` only its refusal of zero frames is modelled): objects are numbers, the clock is the parameter `now`, and the calls made on them are recorded instead of performed.
- The asynchronous interleaving around `await decodeAudioData` and the promise callbacks for `send` and `close`: each handler runs as one atomic step.
- The RMS volume (components/LiveTutor.tsx:40-42), a floating-point square root used only for display: the level is a parameter of `OnAudioProcess`.
- Floating-point capture samples: samples are the integers trunc(x·32768). NaN and infinities, which `Int16Array` stores as 0, are not modelled.
- Exceptions in `startSession` other than a refused microphone, such as a failing `AudioContext` constructor.
- The unmount effect (components/LiveTutor.tsx:17-21) runs `stopSession`, which is `StopSession`. The transient "requesting microphone" status is overwritten within the same step.
- Tutor.LiveTutor.HandleMessage: requires a source number not used before, because the browser creates a new source object for each segment.
- Tutor.LiveTutor.StartSession: requires an output context number not used before, for the same reason.
