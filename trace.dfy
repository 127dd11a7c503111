/**
 * Runs of the receiver: notifications delivered by the handler interleaved
 * with ticks of the status checker, and what holds over a whole run.
 */
module Trace {
  import opened Wrappers
  import opened Frame
  import opened Session

  /** A notification arriving at `time`, or one poll of the status checker at `time`. */
  datatype Event = Arrive(time: real, data: seq<byte>) | Tick(time: real)

  function Step(s: State, e: Event): State {
    match e
    case Arrive(t, data) => Notify(s, t, data)
    case Tick(t) => Poll(s, t)
  }

  /** The state after the events, in order. */
  function Run(s: State, events: seq<Event>): State
    decreases |events|
  {
    if events == [] then s else Run(Step(s, events[0]), events[1..])
  }

  /** The bytes the run's full-header notifications carry after their headers, in arrival order. */
  function Payloads(events: seq<Event>): seq<byte>
    decreases |events|
  {
    if events == [] then []
    else
      var rest := Payloads(events[1..]);
      match events[0]
      case Arrive(_, data) => (if |data| >= HeaderLength then data[HeaderLength..] else []) + rest
      case Tick(_) => rest
  }

  /** How many of the run's notifications have a full header. */
  function FullFrames(events: seq<Event>): nat
    decreases |events|
  {
    if events == [] then 0
    else
      (if events[0].Arrive? && |events[0].data| >= HeaderLength then 1 else 0) + FullFrames(events[1..])
  }

  /** No event of the run finds the session gone quiet. */
  predicate Continuous(s: State, events: seq<Event>)
    decreases |events|
  {
    events == [] || (!SessionEnded(s, events[0].time) && Continuous(Step(s, events[0]), events[1..]))
  }

  /**
   * Every notification of the run is a full-size frame whose counter follows
   * the previous one (a session's first frame may carry any counter).
   */
  predicate InSequence(s: State, events: seq<Event>)
    decreases |events|
  {
    || events == []
    || (&& (events[0].Arrive? ==>
              && |events[0].data| == HeaderLength + ExpectedPayloadLength
              && (Poll(s, events[0].time).lastFrameCount.Some? ==>
                    SequenceOf(events[0].data[0], events[0].data[1])
                      == Successor(Poll(s, events[0].time).lastFrameCount.value)))
        && InSequence(Step(s, events[0]), events[1..]))
  }

  /** The event times never decrease, and none is before the last arrival already seen. */
  predicate Chronological(s: State, events: seq<Event>) {
    && (forall i, j :: 0 <= i < j < |events| ==> events[i].time <= events[j].time)
    && (events != [] ==> ClockAfter(s, events[0].time))
  }

  lemma StepValid(s: State, e: Event)
    requires Valid(s)
    ensures Valid(Step(s, e))
  {
    match e
    case Arrive(t, data) => NotifyValid(s, t, data);
    case Tick(t) => PollValid(s, t);
  }

  /** Every run keeps the invariant. */
  lemma {:induction false} RunValid(s: State, events: seq<Event>)
    requires Valid(s)
    ensures Valid(Run(s, events))
    decreases |events|
  {
    if events != [] {
      StepValid(s, events[0]);
      RunValid(Step(s, events[0]), events[1..]);
    }
  }

  /**
   * Within one session every payload is appended in arrival order, whatever
   * its counter or size, each full-header frame is counted once, and nothing
   * is saved.
   */
  lemma {:induction false} ContinuousRunAppends(s: State, events: seq<Event>)
    requires Continuous(s, events)
    ensures Run(s, events).audio == s.audio + Payloads(events)
    ensures Run(s, events).framesReceived == s.framesReceived + FullFrames(events)
    ensures Run(s, events).saved == s.saved
    decreases |events|
  {
    if events != [] {
      var e, next := events[0], Step(s, events[0]);
      match e {
        case Arrive(t, data) =>
          if |data| >= HeaderLength {
            FullFrameAppended(s, t, data);
          } else {
            ShortFrameRejected(s, t, data);
          }
        case Tick(t) =>
      }
      ContinuousRunAppends(next, events[1..]);
      assert s.audio + Payloads(events) == next.audio + Payloads(events[1..]);
    }
  }

  /** A recording without drops, reordering or bad sizes: whole frames only. */
  predicate Clean(rec: Recording) {
    rec.stats == NoStats && |rec.samples| == rec.framesReceived * ExpectedPayloadLength
  }

  /**
   * In-sequence, full-size frames never count as drops or bad sizes, so the
   * buffer is exactly one frame's payload per frame received, across any
   * session boundaries the run crosses, and so is every recording it saves.
   */
  lemma {:induction false} InSequenceRunIsClean(s: State, events: seq<Event>)
    requires Valid(s) && s.stats.drops == 0 && s.stats.invalidSize == 0
    requires InSequence(s, events)
    ensures var r := Run(s, events);
      && r.stats.drops == 0 && r.stats.outOfOrder == 0 && r.stats.invalidSize == 0
      && |r.audio| == r.framesReceived * ExpectedPayloadLength
    ensures var r := Run(s, events);
      && |s.saved| <= |r.saved| && r.saved[..|s.saved|] == s.saved
      && forall i :: |s.saved| <= i < |r.saved| ==> Clean(r.saved[i])
    decreases |events|
  {
    if events != [] {
      var e := events[0];
      StepValid(s, e);
      match e {
        case Arrive(t, data) =>
          FullFrameCounted(s, t, data);
          PollFinalizes(s, t);
        case Tick(t) =>
          PollFinalizes(s, t);
      }
      var next := Step(s, e);
      assert next.saved == s.saved || next.saved == s.saved + [RecordingOf(s, e.time)];
      if next.saved != s.saved {
        assert Clean(RecordingOf(s, e.time));
      }
      InSequenceRunIsClean(next, events[1..]);
      var r := Run(s, events);
      assert r == Run(next, events[1..]);
      assert r.saved[..|next.saved|] == next.saved;
      forall i | |s.saved| <= i < |r.saved|
        ensures Clean(r.saved[i])
      {
        if i < |next.saved| {
          assert r.saved[i] == next.saved[i];
        }
      }
    }
    RunValid(s, events);
    ValidCounters(Run(s, events));
  }

  /** The time of the session's last arrival never passes the clock. */
  lemma StepClock(s: State, e: Event, later: real)
    requires ClockAfter(s, e.time) && e.time <= later
    ensures ClockAfter(Step(s, e), later)
  {
  }

  lemma StepOrdered(s: State, e: Event)
    requires Valid(s) && Ordered(s) && ClockAfter(s, e.time)
    ensures Ordered(Step(s, e))
  {
    match e
    case Arrive(t, data) => NotifyOrdered(s, t, data);
    case Tick(t) => PollOrdered(s, t);
  }

  /**
   * On a clock that does not run backwards, every recording a run saves
   * lasted longer than the idle threshold, so its summary's expected byte
   * count is positive and its frame rate is defined.
   */
  lemma {:induction false} ChronologicalRecordingsLast(s: State, events: seq<Event>)
    requires Valid(s) && Ordered(s) && Chronological(s, events)
    ensures var r := Run(s, events);
      && |s.saved| <= |r.saved|
      && r.saved[..|s.saved|] == s.saved
      && forall i :: |s.saved| <= i < |r.saved| ==> r.saved[i].duration > IdleThreshold
    decreases |events|
  {
    if events != [] {
      var e, next := events[0], Step(s, events[0]);
      var t := e.time;
      StepValid(s, e);
      StepOrdered(s, e);
      if |events| > 1 {
        StepClock(s, e, events[1].time);
      }
      assert Chronological(next, events[1..]);
      assert next.saved == s.saved || next.saved == s.saved + [RecordingOf(s, t)] by {
        PollFinalizes(s, t);
        match e {
          case Arrive(_, data) =>
            if |data| >= HeaderLength {
              FullFrameAppended(s, t, data);
            } else {
              ShortFrameRejected(s, t, data);
            }
          case Tick(_) =>
        }
      }
      if next.saved != s.saved {
        PollFinalizes(s, t);
        assert SessionEnded(s, t);
        FinalizedDuration(s, t);
      }
      ChronologicalRecordingsLast(next, events[1..]);
      var r := Run(s, events);
      assert r.saved[..|next.saved|] == next.saved;
      assert r.saved[..|s.saved|] == next.saved[..|s.saved|];
    }
  }

  /** Polls alone, at whatever times, save at most one recording: no double finalize. */
  lemma {:induction false} TicksFinalizeOnce(s: State, events: seq<Event>)
    requires forall i :: 0 <= i < |events| ==> events[i].Tick?
    ensures |s.saved| <= |Run(s, events).saved| <= |s.saved| + 1
    ensures Run(s, events).saved[..|s.saved|] == s.saved
    ensures s.audio == [] ==> Run(s, events).saved == s.saved
    decreases |events|
  {
    if events != [] {
      var t := events[0].time;
      PollFinalizes(s, t);
      if SessionEnded(s, t) {
        TicksAfterFinalize(Poll(s, t), events[1..]);
      } else {
        TicksFinalizeOnce(s, events[1..]);
      }
    }
  }

  /** Once a poll has finalized, polls change nothing more. */
  lemma {:induction false} TicksAfterFinalize(s: State, events: seq<Event>)
    requires !s.isReceiving
    requires forall i :: 0 <= i < |events| ==> events[i].Tick?
    ensures Run(s, events) == s
    decreases |events|
  {
    if events != [] {
      assert Step(s, events[0]) == s;
      TicksAfterFinalize(s, events[1..]);
    }
  }

  // ---------------------------------------------------------------------------
  // Worked runs

  /** The notification the sensor sends for counter `n` and a payload, at time `t`. */
  function Sent(t: real, n: bv16, payload: seq<byte>): Event {
    Arrive(t, Encode(Frame(n, payload), 0))
  }

  /** One full-size frame inside a session: appended, counted, and tracked. */
  lemma SentStep(s: State, t: real, n: bv16, payload: seq<byte>)
    requires !SessionEnded(s, t)
    requires |payload| == ExpectedPayloadLength
    ensures var r := Step(s, Sent(t, n, payload));
      && r.audio == s.audio + payload
      && r.framesReceived == s.framesReceived + 1
      && r.lastFrameCount == Some(n)
      && r.saved == s.saved
      && r.stats.drops == s.stats.drops + (if IsDiscontinuity(s.lastFrameCount, n) then 1 else 0)
      && r.stats.outOfOrder == s.stats.outOfOrder + (if IsBackwards(s.lastFrameCount, n) then 1 else 0)
      && r.stats.invalidSize == s.stats.invalidSize
  {
    var data := Encode(Frame(n, payload), 0);
    DecodeEncode(Frame(n, payload), 0);
    assert SequenceOf(data[0], data[1]) == n;
    FullFrameAppended(s, t, data);
    FullFrameCounted(s, t, data);
  }

  /** Four frames 20 ms apart with counters 5, 6, 8, 9: one drop, nothing out of order. */
  lemma GapRun(p1: seq<byte>, p2: seq<byte>, p3: seq<byte>, p4: seq<byte>)
    requires |p1| == |p2| == |p3| == |p4| == ExpectedPayloadLength
    ensures var r := Run(Initial(), [Sent(10.0, 5, p1), Sent(10.02, 6, p2), Sent(10.04, 8, p3), Sent(10.06, 9, p4)]);
      && r.stats == FrameStats(1, 0, 0)
      && r.audio == p1 + p2 + p3 + p4
      && r.framesReceived == 4
      && r.saved == []
  {
    var s0 := Initial();
    var e1, e2, e3, e4 := Sent(10.0, 5, p1), Sent(10.02, 6, p2), Sent(10.04, 8, p3), Sent(10.06, 9, p4);
    SentStep(s0, 10.0, 5, p1);
    var s1 := Step(s0, e1);
    SentStep(s1, 10.02, 6, p2);
    var s2 := Step(s1, e2);
    SentStep(s2, 10.04, 8, p3);
    var s3 := Step(s2, e3);
    SentStep(s3, 10.06, 9, p4);
    var s4 := Step(s3, e4);
    assert Run(s3, [e4]) == s4;
    assert Run(s2, [e3, e4]) == Run(s3, [e4]);
    assert Run(s1, [e2, e3, e4]) == Run(s2, [e3, e4]);
    assert Run(s0, [e1, e2, e3, e4]) == Run(s1, [e2, e3, e4]);
  }

  /**
   * Counters 5, 6, 4, 7: the 4 is a drop and out of order, and since the
   * tracker resynchronises to 4, the 7 is a second drop.
   */
  lemma ReorderRun(p1: seq<byte>, p2: seq<byte>, p3: seq<byte>, p4: seq<byte>)
    requires |p1| == |p2| == |p3| == |p4| == ExpectedPayloadLength
    ensures var r := Run(Initial(), [Sent(10.0, 5, p1), Sent(10.02, 6, p2), Sent(10.04, 4, p3), Sent(10.06, 7, p4)]);
      && r.stats == FrameStats(2, 1, 0)
      && r.audio == p1 + p2 + p3 + p4
      && r.framesReceived == 4
  {
    var s0 := Initial();
    var e1, e2, e3, e4 := Sent(10.0, 5, p1), Sent(10.02, 6, p2), Sent(10.04, 4, p3), Sent(10.06, 7, p4);
    SentStep(s0, 10.0, 5, p1);
    var s1 := Step(s0, e1);
    SentStep(s1, 10.02, 6, p2);
    var s2 := Step(s1, e2);
    SentStep(s2, 10.04, 4, p3);
    var s3 := Step(s2, e3);
    SentStep(s3, 10.06, 7, p4);
    var s4 := Step(s3, e4);
    assert Run(s3, [e4]) == s4;
    assert Run(s2, [e3, e4]) == Run(s3, [e4]);
    assert Run(s1, [e2, e3, e4]) == Run(s2, [e3, e4]);
    assert Run(s0, [e1, e2, e3, e4]) == Run(s1, [e2, e3, e4]);
  }

  /**
   * Counters 5, 6, 4, 5: resynchronising to 4 makes the second 5 look in
   * order, so only one drop is counted although 5 arrived twice.
   */
  lemma ResyncMasksRepeat(p1: seq<byte>, p2: seq<byte>, p3: seq<byte>, p4: seq<byte>)
    requires |p1| == |p2| == |p3| == |p4| == ExpectedPayloadLength
    ensures Run(Initial(), [Sent(10.0, 5, p1), Sent(10.02, 6, p2), Sent(10.04, 4, p3), Sent(10.06, 5, p4)]).stats
         == FrameStats(1, 1, 0)
  {
    var s0 := Initial();
    var e1, e2, e3, e4 := Sent(10.0, 5, p1), Sent(10.02, 6, p2), Sent(10.04, 4, p3), Sent(10.06, 5, p4);
    SentStep(s0, 10.0, 5, p1);
    var s1 := Step(s0, e1);
    SentStep(s1, 10.02, 6, p2);
    var s2 := Step(s1, e2);
    SentStep(s2, 10.04, 4, p3);
    var s3 := Step(s2, e3);
    SentStep(s3, 10.06, 5, p4);
    var s4 := Step(s3, e4);
    assert Run(s3, [e4]) == s4;
    assert Run(s2, [e3, e4]) == Run(s3, [e4]);
    assert Run(s1, [e2, e3, e4]) == Run(s2, [e3, e4]);
    assert Run(s0, [e1, e2, e3, e4]) == Run(s1, [e2, e3, e4]);
  }
}
