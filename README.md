# Streaming audio receiver, modelled in Dafny

This project models the host-side receiver `AudioStreamReceiver` of `bluetooth.py`.
The receiver takes the notification payloads a sensor sends over Bluetooth LE. It
rebuilds the 16 kHz mono 16-bit PCM stream, keeps integrity counters, and infers
where a recording session ends from gaps in the traffic. It writes every
finished session to a WAV file.

Modules:

- `Wrappers` (`wrappers.dfy`): the `Option` used for the receiver's `None`-able fields.
- `Frame` (`frame.dfy`): decoding one notification. A notification has a 2-byte
  little-endian counter, one reserved byte and the payload. The module also
  holds the counter's 16-bit successor `(last + 1) & 0xFFFF` and the sensor-side
  encoding, with round-trip lemmas.
- `Summary` (`summary.dfy`): the completeness rule of the recording summary.
  The rule compares the bytes received with `duration * 16000 * 2`.
- `Session` (`session.dfy`): the receiver's state as a datatype, and one pure function
  per source routine: `Reset` (`reset_session`), `SaveWav` (`save_wav_file`),
  `Poll` (one iteration of `check_stream_status`) and `Notify`
  (`notification_handler`, built from `Poll`, `MarkActive`, `Decode` and `Accept`).
  It also holds the invariant `Valid` and the one-step properties.
- `Receiver` (`receiver.dfy`): the class `AudioStreamReceiver`, with the source's
  fields and methods updating them in place. Each method is proved to perform
  the step the matching `Session` function describes.
- `Trace` (`trace.dfy`): runs of notifications interleaved with status polls, and
  properties of whole runs (arrival-order buffer, clean in-sequence runs,
  finalize-at-most-once, durations on a monotone clock, worked counter sequences).

Representation choices:

- Bytes are `bv8` and frame counters are `bv16`. The source's `& 0xFFFF` mask is
  therefore the wrap-around of 16-bit addition. The source's `<` on counters
  (always in 0..65535) is unsigned `bv16` comparison.
- Times are `real` seconds, passed in as `now` in place of `time.time()`.
  Python truthiness of a timestamp (`None` and `0.0` are false) is modelled by
  `Session.Truthy`, because the source tests `if self.last_data_time` and
  `if not self.start_time`.
- Writing the WAV file is modelled as appending a `Recording` (buffer, frame
  count, counters, duration and completeness flag) to the log `saved`
  (`recordings` in the class). `reset_session` does not clear this log.

## Model

| member | source | states |
|---|---|---|
| `Frame.Decode` | bluetooth.py:59-78 | a notification is refused exactly when it is shorter than the 3-byte header; otherwise the frame carries the counter built from bytes 0 and 1 and the payload `data[3:]`, and byte 2 plays no part |
| `Frame.SequenceOf` | bluetooth.py:64 | the assembled counter's low byte is `data[0]` and its high byte is `data[1]`, so no bit of either is lost or overlaps |
| `Frame.SequenceOfLittleEndian` | bluetooth.py:64 | the counter built by or-ing `data[0]` with `data[1]` shifted left by 8 equals `data[0] + 256 * data[1]` |
| `Frame.DecodeEncode` | bluetooth.py:63-78 | decoding a sensor frame, whatever its reserved byte, gives back that frame's counter and payload |
| `Frame.EncodeDecode` | bluetooth.py:63-78 | every notification with a full header is the encoding of its decoded frame and its reserved byte, so decoding loses nothing but the ignored byte |
| `Frame.Successor` | bluetooth.py:68 | the expected counter is the one whose 16-bit predecessor is the last counter, and never the last counter itself; `Frame.SuccessorWraps` and `Frame.SuccessorInjective` characterise it further |
| `Frame.SuccessorWraps` | bluetooth.py:68 | the expected counter after 65535 is 0 |
| `Frame.SuccessorInjective` | bluetooth.py:68 | each counter has exactly one predecessor (one exists, and two counters with the same successor are equal), and only 65535 is followed by 0 |
| `Summary.ExpectedBytes` | bluetooth.py:148 | the expected byte count is positive exactly when the duration is |
| `Summary.DataRatio` | bluetooth.py:150 | the ratio is 0 when nothing is expected, otherwise ratio times expected bytes equals the bytes received |
| `Summary.CompletenessWarning` | bluetooth.py:152 | the warning fires exactly when the ratio is below 0.9 or above 1.1; `Summary.WarningCrossMultiplied` gives it without division |
| `Summary.WarnsWithoutDuration` | bluetooth.py:148-153 | with a duration of zero or less the ratio is 0, so the completeness warning always fires |
| `Summary.WarningCrossMultiplied` | bluetooth.py:148-153 | for a positive duration the warning `abs(1 - ratio) > 0.1` fires exactly when `10 * abs(expected - actual) > expected` |
| `Summary.NominalRateIsComplete` | bluetooth.py:148-153 | ten seconds at exactly 16000 samples/s of 2 bytes gives ratio 1 and no warning |
| `Summary.ShortfallWarns` | bluetooth.py:148-153 | a buffer at least 20% short of the nominal byte count raises the warning |
| `Session.Initial` | bluetooth.py:22-39 | a new receiver is in the reset state with nothing saved |
| `Session.Reset` | bluetooth.py:25-39 | after a reset the buffer is empty, frame count and all three counters are 0, the last counter and all timestamps are None, receiving is off, and the saved recordings are untouched |
| `Session.Duration` | bluetooth.py:132 | with a truthy start time the duration is the time elapsed since it, otherwise 0 |
| `Session.RecordingOf` | bluetooth.py:122-153 | a finalized session's recording carries its buffer, frame count, counters and duration, flagged by the completeness rule; from a valid state it has out-of-order ≤ drops ≤ frames, and with no bad size it is exactly 320 bytes per frame |
| `Session.SaveWav` | bluetooth.py:116-130 | an empty buffer saves nothing; otherwise exactly the session's recording is appended to the log; no other field changes (`Session.SaveEmptyIsNoOp` states the guard on its own) |
| `Session.SessionEnded` | bluetooth.py:109-110 | a session can only end while receiving with a last data time, and a silence of at most 1.0 never ends it (the test is a strict `>`) |
| `Session.Poll` | bluetooth.py:107-114 | a poll either changes nothing or leaves the reset state with the log of `save_wav_file`; it appends at most one recording and never rewrites the log; `Session.PollFinalizes` and `Session.PollAfterFinalize` give the exact condition and the at-most-once rule |
| `Session.Track` | bluetooth.py:66-75 | the sequence check raises drops and out-of-order by at most one each, out-of-order only together with a drop, never the bad-size counter, and nothing for a session's first frame or the expected counter; `Session.TrackCounts` gives the exact conditions |
| `Session.Accept` | bluetooth.py:63-101 | a full-header frame is appended to the buffer and counted, its counter remembered, the bad-size counter raised by at most one, and only the buffer, counters, last counter and progress time change; `Session.AcceptCounts` gives the exact counter rules |
| `Session.Notify` | bluetooth.py:41-101 | after any handler call the receiver is receiving with the call's time as last data time and a start time set, and the log is what the inactivity check left; `Session.NotifyValid`, `Session.FullFrameAppended` and `Session.FullFrameCounted` characterise the rest |
| `Session.Receive` | bluetooth.py:52-101 | after the inactivity check the handler marks the receiver active and never touches the log; a notification under 3 bytes stops there, and a full-header one has `data[3:]` appended, is counted and has its counter remembered; `Session.MarkActive` and `Session.Accept` state the two parts |
| `Session.MarkActive` | bluetooth.py:52-57 | the handler sets receiving and the last data time before looking at the frame; when the start time is unset or 0 it sets the start and progress times to now, otherwise it keeps them; nothing else changes |
| `Session.InitialValid` | bluetooth.py:22-39 | the initial state satisfies the invariant and both timestamp orderings |
| `Session.ResetValid` | bluetooth.py:25-39 | a reset state satisfies the invariant and both timestamp orderings |
| `Session.PollValid` | bluetooth.py:103-114 | a poll keeps the invariant |
| `Session.AcceptValid` | bluetooth.py:63-87 | processing a full-header frame while receiving keeps the invariant |
| `Session.NotifyValid` | bluetooth.py:41-101 | every handler call keeps the invariant, whatever the notification and the time |
| `Session.ValidCounters` | bluetooth.py:66-87 | in every valid state out-of-order ≤ drops ≤ frames received, bad sizes ≤ frames received, and with no bad size the buffer is exactly 320 bytes per frame |
| `Session.NotifyMarksReceiving` | bluetooth.py:52-57 | after any handler call the receiver is receiving, the last data time is the call's time, and the start and progress times are set |
| `Session.ShortFrameRejected` | bluetooth.py:59-61 | a notification under 3 bytes leaves the buffer, frame count, last counter, counters and log as the inactivity check left them |
| `Session.ShortFrameInSession` | bluetooth.py:59-61 | inside a session, a notification under 3 bytes leaves the buffer, frame count, last counter, counters and log unchanged |
| `Session.FullFrameAppended` | bluetooth.py:64-87 | a full-header notification appends `data[3:]` to the buffer whatever its counter or size, raises the frame count by exactly 1 and remembers the new counter |
| `Session.FullFrameCounted` | bluetooth.py:66-84 | drops rise by one exactly when a previous counter exists and the new one is not its successor; out-of-order rises by one exactly when that holds and the new counter is below the previous one; bad sizes rise by one exactly when the payload is not 320 bytes |
| `Session.AcceptCounts` | bluetooth.py:66-84 | the same three counter rules, stated for the frame-processing step on its own |
| `Session.TrackCounts` | bluetooth.py:66-75 | the sequence check raises drops on a discontinuity, out-of-order on a backwards discontinuity, and never touches the bad-size counter |
| `Session.InOrderIsNotDrop` | bluetooth.py:67-72 | the first frame of a session, and a frame carrying the expected counter, change neither drops nor out-of-order |
| `Session.WrapIsNotDrop` | bluetooth.py:68-72 | counter 0 after counter 65535 changes neither drops nor out-of-order |
| `Session.BackwardsIgnoresWrap` | bluetooth.py:69-72 | counter 1 after 65535 counts as a drop and as out of order, because the test is a plain unwrapped `<` |
| `Session.PollFinalizes` | bluetooth.py:109-114 | a poll saves one recording exactly when the receiver is receiving, more than 1.0 has passed since the last data, and the buffer is non-empty; when it fires the session is reset, and otherwise nothing changes |
| `Session.PollAfterFinalize` | bluetooth.py:109-114 | after a poll has finalized, a later poll with no new frame changes nothing, so nothing is finalized twice |
| `Session.PollIdempotent` | bluetooth.py:105-114 | two polls at the same time do what one does |
| `Session.SaveEmptyIsNoOp` | bluetooth.py:118-120 | finalizing an empty buffer records nothing and changes nothing |
| `Session.GapStartsNewSession` | bluetooth.py:45-87 | a frame arriving more than 1.0 after the last data while receiving first saves the old session (once, if it has data), then resets; the new session holds only this frame's payload, a frame count of 1 (0 for a short frame), no drops, no out-of-order, a bad-size count for this frame only, and start time now |
| `Session.NotifyOrdered` | bluetooth.py:52-57 | if the clock has not gone back since the last data, the start time stays no later than the last data time after the handler runs |
| `Session.PollOrdered` | bluetooth.py:103-114 | a poll keeps the start time no later than the last data time |
| `Session.PollProgressOrdered` | bluetooth.py:109-114 | a poll keeps the start time no later than the last progress time |
| `Session.NotifyProgressOrdered` | bluetooth.py:52-101 | a handler call keeps the start time no later than the last progress time, since both are set together and the progress time only moves forward |
| `Session.ProgressReportDefined` | bluetooth.py:90-93 | whenever the progress report is due, at least 1.0 has passed since the session's start, so its division by `current_time - start_time` is defined |
| `Session.FinalizedDuration` | bluetooth.py:132-150 | every session the inactivity rule finalizes has a duration above 1.0, so the expected byte count is positive and the summary's division by the duration is defined |
| `Receiver.AudioStreamReceiver.constructor` | bluetooth.py:22-23 | a new receiver holds the initial state and satisfies the invariant |
| `Receiver.AudioStreamReceiver.ResetSession` | bluetooth.py:25-39 | updates the fields in place to the reset state and keeps the recordings |
| `Receiver.AudioStreamReceiver.SaveWavFile` | bluetooth.py:116-153 | appends the finished session's recording unless the buffer is empty, and changes no other field |
| `Receiver.AudioStreamReceiver.NotificationHandler` | bluetooth.py:41-101 | updates the fields in place to exactly the handler step, and keeps the invariant |
| `Receiver.AudioStreamReceiver.AcceptFrame` | bluetooth.py:63-101 | updates the fields in place to exactly the processing of a full-header frame |
| `Receiver.AudioStreamReceiver.CheckSequence` | bluetooth.py:66-73 | updates only the counters, by exactly the sequence check against the last counter |
| `Receiver.AudioStreamReceiver.CheckStreamStatus` | bluetooth.py:107-114 | updates the fields in place to exactly one poll step, and keeps the invariant |
| `Trace.StepValid` | bluetooth.py:41-114 | a notification or a poll keeps the invariant |
| `Trace.RunValid` | bluetooth.py:41-114 | every run of notifications and polls keeps the invariant |
| `Trace.ContinuousRunAppends` | bluetooth.py:78-87 | within one session the buffer is the old buffer followed by every full-header payload in arrival order, each such frame is counted once, and nothing is saved |
| `Trace.InSequenceRunIsClean` | bluetooth.py:66-87 | a run of full-size frames with consecutive counters records no drop, no out-of-order and no bad size, and its buffer is 320 bytes per frame, across any session ends the run crosses (a frame opening a new session may carry any counter); the log only grows, and every recording the run saves has zero counters and 320 bytes per frame |
| `Trace.StepClock` | bluetooth.py:52 | after a step, the last data time is not after any later clock reading |
| `Trace.StepOrdered` | bluetooth.py:52-57 | on a clock that has not gone back, a step keeps the start time no later than the last data time |
| `Trace.ChronologicalRecordingsLast` | bluetooth.py:132-141 | on a clock that never runs backwards, a run only appends to the log, and every recording it saves lasted longer than 1.0 |
| `Trace.TicksFinalizeOnce` | bluetooth.py:105-114 | polls alone save at most one recording, only append to the log, and save nothing for an empty buffer |
| `Trace.TicksAfterFinalize` | bluetooth.py:109-114 | when the receiver is not receiving, polls change nothing |
| `Trace.SentStep` | bluetooth.py:63-87 | a full-size sensor frame inside a session is appended, counted and tracked exactly |
| `Trace.GapRun` | bluetooth.py:66-87 | counters 5, 6, 8, 9 give one drop, no out-of-order, 4 frames, and the four payloads in order |
| `Trace.ReorderRun` | bluetooth.py:66-87 | counters 5, 6, 4, 7 give two drops and one out-of-order, because the tracker resynchronises to 4; all four payloads are kept in arrival order |
| `Trace.ResyncMasksRepeat` | bluetooth.py:66-75 | counters 5, 6, 4, 5 give only one drop and one out-of-order: after resynchronising to 4, the repeated 5 looks in order |

For counters 5, 6, 4, 7 the code counts two drops, not one: 4 is not the
expected 7, and 7 is not the successor of 4, because the tracker has
resynchronised to 4. `Trace.ReorderRun` pins this behaviour, and
`Trace.ResyncMasksRepeat` shows the other side of it: a repeated counter right
after a backwards jump is not noticed.

## Left out

- The Bluetooth LE discovery and connection (`find_device`, `main`, the bleak client, `start_notify`): device I/O with no logic of its own.
- The final save in `main`'s `finally` block (bluetooth.py:219-222): it belongs to `main`, which is left out.
- The `while True` / `asyncio.sleep(1)` loop of `check_stream_status` and the concurrency between it and the handler: `Poll` is one iteration, and `Trace.Run` interleaves handler calls and polls in one sequential order.
- `time.time()` and `datetime.now()`: the time is a parameter. `save_wav_file` reads the clock once more for its duration; the model uses the caller's `now`.
- The WAV container writing and the file name from the date: replaced by appending a `Recording` to the log.
- All printing, including the progress report's text (bluetooth.py:90-100) and the summary's formatted figures (bluetooth.py:132-145). The progress rule's one effect on state, updating `last_progress_time`, is modelled.
- Floating point: the completeness ratio and the `> 1.0` timeouts use exact reals. Results could differ from IEEE doubles only at rounding boundaries.
- A failing WAV write: the model's `SaveWav` always succeeds. In the source, an exception from `wave.open` or `writeframes` (bluetooth.py:126-130) leaves `save_wav_file` before `reset_session` runs (bluetooth.py:50, 114). In the handler the session is then never reset and `last_data_time` is not refreshed, so every later notification retries the save and is itself lost; in the status checker the task ends.
- The progress report's frames-per-second division (bluetooth.py:93) is not modelled, because printing is left out. It cannot divide by zero on any clock: `Session.ProgressReportDefined` shows that at least 1.0 has passed since the start whenever the report runs.
- The exception the summary raises when the duration is exactly 0 (`frames_received / duration`): not modelled. `Session.FinalizedDuration` and `Trace.ChronologicalRecordingsLast` show that it cannot happen while the clock does not run backwards.
- `diarize.py`: speaker segmentation and transcription with pretrained models, made of foreign library calls and file I/O.
- The bulk-transfer client (link switching, retries, streaming download) is not part of this model: none of its source is in the files modelled.
