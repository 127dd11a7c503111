/**
 * The receiver's session state machine as pure functions on a state value.
 * `Notify` is one call of the notification handler, `Poll` one iteration of
 * the status checker, `SaveWav` the finalize step and `Reset` the session
 * reset. The current time is a parameter; the written file is an entry
 * appended to `saved`.
 */
module Session {
  import opened Wrappers
  import opened Frame
  import Summary

  /** Seconds of silence after which the current session is over (strict `>`). */
  const IdleThreshold: real := 1.0
  /** Seconds between two progress reports (non-strict `>=`). */
  const ProgressInterval: real := 1.0

  /** The receiver's `frame_stats` counters. */
  datatype FrameStats = FrameStats(drops: nat, outOfOrder: nat, invalidSize: nat)

  const NoStats := FrameStats(0, 0, 0)

  /** What finalizing a non-empty session persists and reports. */
  datatype Recording = Recording(
    samples: seq<byte>,
    framesReceived: nat,
    stats: FrameStats,
    duration: real,
    completenessWarning: bool)

  /** The receiver's fields; `saved` is the sequence of recordings written so far. */
  datatype State = State(
    audio: seq<byte>,
    startTime: Option<real>,
    lastProgressTime: Option<real>,
    framesReceived: nat,
    lastFrameCount: Option<bv16>,
    lastDataTime: Option<real>,
    isReceiving: bool,
    stats: FrameStats,
    saved: seq<Recording>)

  /** Truth value of an optional timestamp: `None` and `0.0` are both false. */
  predicate Truthy(t: Option<real>) {
    t.Some? && t.value != 0.0
  }

  /** The state `reset_session` leaves behind, apart from the saved recordings. */
  predicate Idle(s: State) {
    && s.audio == []
    && s.startTime.None?
    && s.lastProgressTime.None?
    && s.framesReceived == 0
    && s.lastFrameCount.None?
    && s.lastDataTime.None?
    && !s.isReceiving
    && s.stats == NoStats
  }

  /** The receiver as its constructor leaves it. */
  function Initial(): (s: State)
    ensures Idle(s) && s.saved == []
  {
    State([], None, None, 0, None, None, false, NoStats, [])
  }

  /** `reset_session`: a fresh session; what was saved stays saved. */
  function Reset(s: State): (r: State)
    ensures Idle(r) && r.saved == s.saved
  {
    Initial().(saved := s.saved)
  }

  /** The summary's duration: time since the start, or 0 without a start time. */
  function Duration(s: State, now: real): (d: real)
    ensures Truthy(s.startTime) ==> s.startTime.value + d == now
    ensures !Truthy(s.startTime) ==> d == 0.0
  {
    if Truthy(s.startTime) then now - s.startTime.value else 0.0
  }

  /**
   * The recording of a finalized session: its buffer, counters and duration,
   * flagged by the completeness rule; a valid session without bad sizes holds
   * whole frames.
   */
  function RecordingOf(s: State, now: real): (r: Recording)
    ensures r.samples == s.audio && r.framesReceived == s.framesReceived && r.stats == s.stats
    ensures r.duration == Duration(s, now)
    ensures r.completenessWarning == Summary.CompletenessWarning(|r.samples|, r.duration)
    ensures Valid(s) && s.stats.invalidSize == 0
        ==> |r.samples| == r.framesReceived * ExpectedPayloadLength
    ensures Valid(s) ==> r.stats.outOfOrder <= r.stats.drops <= r.framesReceived
  {
    var duration := Duration(s, now);
    Recording(s.audio, s.framesReceived, s.stats, duration,
              Summary.CompletenessWarning(|s.audio|, duration))
  }

  /** `save_wav_file`: an empty buffer is not saved; the session itself is untouched. */
  function SaveWav(s: State, now: real): (r: State)
    ensures |s.audio| == 0 ==> r.saved == s.saved
    ensures |s.audio| > 0 ==> r.saved == s.saved + [RecordingOf(s, now)]
    ensures r == s.(saved := r.saved)
  {
    if |s.audio| == 0 then s else s.(saved := s.saved + [RecordingOf(s, now)])
  }

  /** The inactivity test shared by the handler and the status checker. */
  predicate SessionEnded(s: State, now: real)
    ensures SessionEnded(s, now) ==> s.isReceiving && s.lastDataTime.Some?
    ensures s.lastDataTime.Some? && now <= s.lastDataTime.value + IdleThreshold ==> !SessionEnded(s, now)
  {
    s.isReceiving && Truthy(s.lastDataTime) && now - s.lastDataTime.value > IdleThreshold
  }

  /** One iteration of `check_stream_status`: finalize and reset after a silence. */
  function Poll(s: State, now: real): (r: State)
    ensures r == s || (Idle(r) && r.saved == SaveWav(s, now).saved)
    ensures |s.saved| <= |r.saved| <= |s.saved| + 1 && r.saved[..|s.saved|] == s.saved
  {
    if SessionEnded(s, now) then Reset(SaveWav(s, now)) else s
  }

  /** A counter that is not the successor of the previous one. */
  predicate IsDiscontinuity(last: Option<bv16>, n: bv16) {
    last.Some? && n != Successor(last.value)
  }

  /** A discontinuity whose counter is below the previous one (a plain, unwrapped `<`). */
  predicate IsBackwards(last: Option<bv16>, n: bv16) {
    IsDiscontinuity(last, n) && n < last.value
  }

  /** The sequence check: a discontinuity is a drop, and also out of order when backwards. */
  function Track(stats: FrameStats, last: Option<bv16>, n: bv16): (t: FrameStats)
    ensures t.invalidSize == stats.invalidSize
    ensures stats.drops <= t.drops <= stats.drops + 1
    ensures stats.outOfOrder <= t.outOfOrder <= stats.outOfOrder + 1
    ensures t.outOfOrder != stats.outOfOrder ==> t.drops != stats.drops
    ensures last.None? || n == Successor(last.value) ==> t == stats
  {
    if IsDiscontinuity(last, n) then
      stats.(drops := stats.drops + 1,
             outOfOrder := if IsBackwards(last, n) then stats.outOfOrder + 1 else stats.outOfOrder)
    else stats
  }

  /** The handler's work on a frame that has a full header. */
  function Accept(s: State, now: real, f: Frame): (r: State)
    ensures r.audio == s.audio + f.payload && r.framesReceived == s.framesReceived + 1
    ensures r.lastFrameCount == Some(f.sequence)
    ensures r.stats.invalidSize <= s.stats.invalidSize + 1
    ensures r == s.(stats := r.stats, lastFrameCount := r.lastFrameCount, audio := r.audio,
                    framesReceived := r.framesReceived, lastProgressTime := r.lastProgressTime)
  {
    var tracked := Track(s.stats, s.lastFrameCount, f.sequence);
    var stats := if |f.payload| != ExpectedPayloadLength
                 then tracked.(invalidSize := tracked.invalidSize + 1) else tracked;
    var progressDue := Truthy(s.lastProgressTime) && now - s.lastProgressTime.value >= ProgressInterval;
    s.(stats := stats,
       lastFrameCount := Some(f.sequence),
       audio := s.audio + f.payload,
       framesReceived := s.framesReceived + 1,
       lastProgressTime := if progressDue then Some(now) else s.lastProgressTime)
  }

  /** What the handler does before looking at the frame: mark it received, start the clock. */
  function MarkActive(s: State, now: real): (r: State)
    ensures r.isReceiving && r.lastDataTime == Some(now)
    ensures Truthy(s.startTime) ==> r.startTime == s.startTime && r.lastProgressTime == s.lastProgressTime
    ensures !Truthy(s.startTime) ==> r.startTime == Some(now) && r.lastProgressTime == Some(now)
    ensures r == s.(isReceiving := r.isReceiving, lastDataTime := r.lastDataTime,
                    startTime := r.startTime, lastProgressTime := r.lastProgressTime)
  {
    var active := s.(lastDataTime := Some(now), isReceiving := true);
    if Truthy(active.startTime) then active
    else active.(startTime := Some(now), lastProgressTime := Some(now))
  }

  /** The handler after its inactivity check: mark, decode, and accept a full frame. */
  function Receive(s: State, now: real, data: seq<byte>): (r: State)
    ensures r.isReceiving && r.lastDataTime == Some(now) && r.saved == s.saved
    ensures |data| < HeaderLength ==> r == MarkActive(s, now)
    ensures |data| >= HeaderLength ==>
      && r.audio == s.audio + data[HeaderLength..]
      && r.framesReceived == s.framesReceived + 1
      && r.lastFrameCount == Some(SequenceOf(data[0], data[1]))
  {
    var started := MarkActive(s, now);
    match Decode(data)
    case None => started
    case Some(f) => Accept(started, now, f)
  }

  /** `notification_handler` for a notification `data` arriving at `now`. */
  function Notify(s: State, now: real, data: seq<byte>): (r: State)
    ensures r.isReceiving && r.lastDataTime == Some(now) && r.startTime.Some?
    ensures r.saved == Poll(s, now).saved
  {
    Receive(Poll(s, now), now, data)
  }

  /** What every reachable state satisfies. */
  predicate Valid(s: State) {
    && (s.lastFrameCount.None? <==> s.framesReceived == 0)
    && s.stats.outOfOrder <= s.stats.drops
    && (s.stats.drops == 0 || s.stats.drops < s.framesReceived)
    && s.stats.invalidSize <= s.framesReceived
    && (s.stats.invalidSize == 0 ==> |s.audio| == s.framesReceived * ExpectedPayloadLength)
    && (|s.audio| > 0 ==> s.framesReceived > 0)
    && (s.framesReceived > 0 ==> s.isReceiving)
    && (s.isReceiving <==> s.lastDataTime.Some?)
    && (s.isReceiving <==> s.startTime.Some?)
    && (s.startTime.Some? <==> s.lastProgressTime.Some?)
    && (Truthy(s.lastDataTime) ==> Truthy(s.startTime))
  }

  /** The session started no later than its last frame. */
  predicate Ordered(s: State) {
    s.startTime.Some? && s.lastDataTime.Some? ==> s.startTime.value <= s.lastDataTime.value
  }

  /** The session started no later than its last progress report. */
  predicate ProgressOrdered(s: State) {
    s.startTime.Some? && s.lastProgressTime.Some? ==> s.startTime.value <= s.lastProgressTime.value
  }

  /** The clock has not gone back since the last frame. */
  predicate ClockAfter(s: State, now: real) {
    s.lastDataTime.Some? ==> s.lastDataTime.value <= now
  }

  // ---------------------------------------------------------------------------
  // The invariant

  lemma InitialValid()
    ensures Valid(Initial()) && Ordered(Initial()) && ProgressOrdered(Initial())
  {
  }

  lemma ResetValid(s: State)
    ensures Valid(Reset(s)) && Ordered(Reset(s)) && ProgressOrdered(Reset(s))
  {
  }

  lemma PollValid(s: State, now: real)
    requires Valid(s)
    ensures Valid(Poll(s, now))
  {
  }

  lemma AcceptValid(s: State, now: real, f: Frame)
    requires Valid(s) && s.isReceiving
    ensures Valid(Accept(s, now, f))
  {
    var r := Accept(s, now, f);
    if r.stats.invalidSize == 0 {
      assert |f.payload| == ExpectedPayloadLength;
      assert |r.audio| == |s.audio| + ExpectedPayloadLength;
    }
  }

  /** Every handler call keeps the invariant ... */
  lemma NotifyValid(s: State, now: real, data: seq<byte>)
    requires Valid(s)
    ensures Valid(Notify(s, now, data))
  {
    PollValid(s, now);
    var started := MarkActive(Poll(s, now), now);
    assert Valid(started);
    if Decode(data).Some? {
      AcceptValid(started, now, Decode(data).value);
    }
  }

  /** ... so the counters are ordered and a session without bad sizes has whole frames. */
  lemma ValidCounters(s: State)
    requires Valid(s)
    ensures s.stats.outOfOrder <= s.stats.drops <= s.framesReceived
    ensures s.stats.invalidSize <= s.framesReceived
    ensures s.stats.invalidSize == 0 ==> |s.audio| == s.framesReceived * ExpectedPayloadLength
  {
  }

  // ---------------------------------------------------------------------------
  // One notification

  /** After any handler call the receiver is receiving, with both timestamps set. */
  lemma NotifyMarksReceiving(s: State, now: real, data: seq<byte>)
    requires Valid(s)
    ensures Notify(s, now, data).isReceiving
    ensures Notify(s, now, data).lastDataTime == Some(now)
    ensures Notify(s, now, data).startTime.Some?
    ensures Notify(s, now, data).lastProgressTime.Some?
  {
    PollValid(s, now);
  }

  /** A notification shorter than the header only touches the timestamps and the flag. */
  lemma ShortFrameRejected(s: State, now: real, data: seq<byte>)
    requires |data| < HeaderLength
    ensures var r, g := Notify(s, now, data), Poll(s, now);
      && r.audio == g.audio
      && r.framesReceived == g.framesReceived
      && r.lastFrameCount == g.lastFrameCount
      && r.stats == g.stats
      && r.saved == g.saved
  {
  }

  /** Within a session, a short notification leaves buffer, counters and log as they were. */
  lemma ShortFrameInSession(s: State, now: real, data: seq<byte>)
    requires |data| < HeaderLength && !SessionEnded(s, now)
    ensures var r := Notify(s, now, data);
      && r.audio == s.audio
      && r.framesReceived == s.framesReceived
      && r.lastFrameCount == s.lastFrameCount
      && r.stats == s.stats
      && r.saved == s.saved
  {
    ShortFrameRejected(s, now, data);
  }

  /**
   * A notification with a full header: its payload is appended whatever its
   * counter or size, the frame is counted and its counter remembered.
   */
  lemma FullFrameAppended(s: State, now: real, data: seq<byte>)
    requires |data| >= HeaderLength
    ensures var r, g := Notify(s, now, data), Poll(s, now);
      && r.audio == g.audio + data[HeaderLength..]
      && r.framesReceived == g.framesReceived + 1
      && r.lastFrameCount == Some(SequenceOf(data[0], data[1]))
      && r.saved == g.saved
  {
    var f := Frame(SequenceOf(data[0], data[1]), data[HeaderLength..]);
    assert Notify(s, now, data) == Accept(MarkActive(Poll(s, now), now), now, f);
  }

  /**
   * Each statistic goes up by one exactly when its condition holds: a drop
   * when the counter is not the successor of the last one, out of order when
   * it is moreover smaller, and a bad size when the payload is not one frame.
   */
  lemma FullFrameCounted(s: State, now: real, data: seq<byte>)
    requires |data| >= HeaderLength
    ensures var r, g, n := Notify(s, now, data), Poll(s, now), SequenceOf(data[0], data[1]);
      && r.stats.drops == g.stats.drops + (if IsDiscontinuity(g.lastFrameCount, n) then 1 else 0)
      && r.stats.outOfOrder
           == g.stats.outOfOrder + (if IsBackwards(g.lastFrameCount, n) then 1 else 0)
      && r.stats.invalidSize
           == g.stats.invalidSize + (if |data| - HeaderLength != ExpectedPayloadLength then 1 else 0)
  {
    var g := Poll(s, now);
    var f := Frame(SequenceOf(data[0], data[1]), data[HeaderLength..]);
    ReceiveCounted(g, now, data, f);
    AcceptCounts(MarkActive(g, now), now, f);
  }

  lemma ReceiveCounted(g: State, now: real, data: seq<byte>, f: Frame)
    requires Decode(data) == Some(f)
    ensures Receive(g, now, data).stats == Accept(MarkActive(g, now), now, f).stats
    ensures MarkActive(g, now).stats == g.stats
    ensures MarkActive(g, now).lastFrameCount == g.lastFrameCount
  {
  }

  lemma AcceptCounts(s: State, now: real, f: Frame)
    ensures var r := Accept(s, now, f);
      && r.stats.drops == s.stats.drops + (if IsDiscontinuity(s.lastFrameCount, f.sequence) then 1 else 0)
      && r.stats.outOfOrder
           == s.stats.outOfOrder
              + (if IsBackwards(s.lastFrameCount, f.sequence) then 1 else 0)
      && r.stats.invalidSize == s.stats.invalidSize + (if |f.payload| != ExpectedPayloadLength then 1 else 0)
  {
    TrackCounts(s.stats, s.lastFrameCount, f.sequence);
  }

  lemma TrackCounts(stats: FrameStats, last: Option<bv16>, n: bv16)
    ensures var t := Track(stats, last, n);
      && t.drops == stats.drops + (if IsDiscontinuity(last, n) then 1 else 0)
      && t.outOfOrder == stats.outOfOrder + (if IsBackwards(last, n) then 1 else 0)
      && t.invalidSize == stats.invalidSize
  {
  }

  /** The first frame of a session, and the successor of the last one, are never drops. */
  lemma InOrderIsNotDrop(s: State, now: real, data: seq<byte>)
    requires |data| >= HeaderLength
    requires var g := Poll(s, now);
      g.lastFrameCount.None? || SequenceOf(data[0], data[1]) == Successor(g.lastFrameCount.value)
    ensures Notify(s, now, data).stats.drops == Poll(s, now).stats.drops
    ensures Notify(s, now, data).stats.outOfOrder == Poll(s, now).stats.outOfOrder
  {
    FullFrameCounted(s, now, data);
  }

  /** Counter 0 after counter 65535 is in order: the wrap is not a drop. */
  lemma WrapIsNotDrop(s: State, now: real, data: seq<byte>)
    requires |data| >= HeaderLength && data[0] == 0 && data[1] == 0
    requires Poll(s, now).lastFrameCount == Some(0xFFFF)
    ensures Notify(s, now, data).stats == Poll(s, now).stats.(
      invalidSize := Notify(s, now, data).stats.invalidSize)
  {
    assert SequenceOf(0, 0) == 0;
    SuccessorWraps();
  }

  /**
   * The out-of-order test is a plain `<`, not wrap-aware: 1 after 65535 (frame
   * 0 lost across the wrap) counts as a drop and as out of order.
   */
  lemma BackwardsIgnoresWrap()
    ensures IsDiscontinuity(Some(0xFFFF), 1) && IsBackwards(Some(0xFFFF), 1)
  {
  }

  // ---------------------------------------------------------------------------
  // Session boundaries

  /** A poll finalizes, at most once, exactly when the session has gone quiet. */
  lemma PollFinalizes(s: State, now: real)
    ensures var r := Poll(s, now);
      && r.saved == s.saved + (if SessionEnded(s, now) && |s.audio| > 0 then [RecordingOf(s, now)] else [])
      && (SessionEnded(s, now) ==> Idle(r))
      && (!SessionEnded(s, now) ==> r == s)
  {
  }

  /** Once a poll has finalized, later polls without frames change nothing. */
  lemma PollAfterFinalize(s: State, t1: real, t2: real)
    requires SessionEnded(s, t1)
    ensures Poll(Poll(s, t1), t2) == Poll(s, t1)
  {
  }

  /** Polling twice at the same time is polling once. */
  lemma PollIdempotent(s: State, now: real)
    ensures Poll(Poll(s, now), now) == Poll(s, now)
  {
    if SessionEnded(s, now) {
      PollAfterFinalize(s, now, now);
    }
  }

  /** Finalizing an empty buffer records nothing. */
  lemma SaveEmptyIsNoOp(s: State, now: real)
    requires s.audio == []
    ensures SaveWav(s, now) == s
  {
  }

  /**
   * A frame after a silence ends the old session (saved once, when it has
   * data) and starts a new one whose counters reflect this frame alone.
   */
  lemma GapStartsNewSession(s: State, now: real, data: seq<byte>)
    requires SessionEnded(s, now)
    ensures var r := Notify(s, now, data);
      && r.saved == s.saved + (if |s.audio| > 0 then [RecordingOf(s, now)] else [])
      && r.audio == (if |data| >= HeaderLength then data[HeaderLength..] else [])
      && r.framesReceived == (if |data| >= HeaderLength then 1 else 0)
      && r.lastFrameCount == (if |data| >= HeaderLength then Some(SequenceOf(data[0], data[1])) else None)
      && r.stats.drops == 0 && r.stats.outOfOrder == 0
      && r.stats.invalidSize
           == (if |data| >= HeaderLength && |data| - HeaderLength != ExpectedPayloadLength then 1 else 0)
      && r.isReceiving && r.lastDataTime == Some(now)
      && r.startTime == Some(now)
  {
    PollFinalizes(s, now);
    if |data| >= HeaderLength {
      FullFrameAppended(s, now, data);
      FullFrameCounted(s, now, data);
    } else {
      ShortFrameRejected(s, now, data);
    }
  }

  // ---------------------------------------------------------------------------
  // Time

  lemma NotifyOrdered(s: State, now: real, data: seq<byte>)
    requires Valid(s) && Ordered(s) && ClockAfter(s, now)
    ensures Ordered(Notify(s, now, data))
  {
  }

  lemma PollOrdered(s: State, now: real)
    requires Ordered(s)
    ensures Ordered(Poll(s, now))
  {
  }

  lemma PollProgressOrdered(s: State, now: real)
    requires ProgressOrdered(s)
    ensures ProgressOrdered(Poll(s, now))
  {
  }

  lemma NotifyProgressOrdered(s: State, now: real, data: seq<byte>)
    requires Valid(s) && ProgressOrdered(s)
    ensures ProgressOrdered(Notify(s, now, data))
  {
    PollValid(s, now);
  }

  /**
   * When the handler reports progress, at least 1.0 has passed since the
   * session started, so the report's frames-per-second division is defined.
   */
  lemma ProgressReportDefined(s: State, now: real)
    requires Valid(s) && ProgressOrdered(s)
    ensures var m := MarkActive(Poll(s, now), now);
      (Truthy(m.lastProgressTime) && now - m.lastProgressTime.value >= ProgressInterval)
      ==> (m.startTime.Some? && now - m.startTime.value >= ProgressInterval)
  {
    PollValid(s, now);
  }

  /**
   * Every session that is finalized lasted longer than the idle threshold, so
   * the summary's expected byte count is positive and its rate is defined.
   */
  lemma FinalizedDuration(s: State, now: real)
    requires Valid(s) && Ordered(s) && SessionEnded(s, now)
    ensures Duration(s, now) > IdleThreshold
    ensures Summary.ExpectedBytes(Duration(s, now)) > 0.0
  {
  }
}
