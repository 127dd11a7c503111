/**
 * The streaming receiver as an object whose methods update its fields in
 * place, each proved to make the step the corresponding `Session` function
 * describes.
 */
module Receiver {
  import opened Wrappers
  import opened Frame
  import Summary
  import opened Session

  class AudioStreamReceiver {
    var audioData: seq<byte>
    var startTime: Option<real>
    var lastProgressTime: Option<real>
    var framesReceived: nat
    var lastFrameCount: Option<bv16>
    var lastDataTime: Option<real>
    var isReceiving: bool
    var frameStats: FrameStats
    /** The recordings written so far, in order (the WAV files). */
    var recordings: seq<Recording>

    /** The receiver's fields as a state value. */
    ghost function Model(): State
      reads this
    {
      State(audioData, startTime, lastProgressTime, framesReceived, lastFrameCount,
            lastDataTime, isReceiving, frameStats, recordings)
    }

    ghost predicate Valid()
      reads this
    {
      Session.Valid(Model())
    }

    /** A fresh receiver starts in a reset session with nothing saved. */
    constructor ()
      ensures Valid() && Model() == Initial()
    {
      audioData := [];
      startTime := None;
      lastProgressTime := None;
      framesReceived := 0;
      lastFrameCount := None;
      lastDataTime := None;
      isReceiving := false;
      frameStats := NoStats;
      recordings := [];
    }

    /** `reset_session`. */
    method ResetSession()
      modifies this
      ensures Valid() && Model() == Reset(old(Model()))
    {
      audioData := [];
      startTime := None;
      lastProgressTime := None;
      framesReceived := 0;
      lastFrameCount := None;
      lastDataTime := None;
      isReceiving := false;
      frameStats := NoStats;
    }

    /** `save_wav_file`, with the file write replaced by appending to `recordings`. */
    method SaveWavFile(now: real)
      modifies this`recordings
      ensures Model() == SaveWav(old(Model()), now)
    {
      if |audioData| == 0 {
        return;
      }
      var duration := if Truthy(startTime) then now - startTime.value else 0.0;
      var warning := Summary.CompletenessWarning(|audioData|, duration);
      recordings := recordings + [Recording(audioData, framesReceived, frameStats, duration, warning)];
    }

    /** `notification_handler` for a notification `data` arriving at time `now`. */
    method NotificationHandler(now: real, data: seq<byte>)
      requires Valid()
      modifies this
      ensures Valid() && Model() == Notify(old(Model()), now, data)
    {
      if Truthy(lastDataTime) && now - lastDataTime.value > IdleThreshold {
        if isReceiving {
          SaveWavFile(now);
          ResetSession();
        }
      }
      assert Model() == Poll(old(Model()), now);

      lastDataTime := Some(now);
      isReceiving := true;
      if !Truthy(startTime) {
        startTime := Some(now);
        lastProgressTime := Some(now);
      }
      assert Model() == MarkActive(Poll(old(Model()), now), now);

      if |data| >= HeaderLength {
        AcceptFrame(now, data);
      }
      NotifyValid(old(Model()), now, data);
    }

    /** The handler's work on a notification with a full header. */
    method AcceptFrame(now: real, data: seq<byte>)
      requires |data| >= HeaderLength
      modifies this
      ensures Model() == Accept(old(Model()), now, Decode(data).value)
    {
      ghost var marked := Model();
      var frameCount := SequenceOf(data[0], data[1]);
      CheckSequence(frameCount);
      lastFrameCount := Some(frameCount);

      var payload := data[HeaderLength..];
      if |payload| != ExpectedPayloadLength {
        frameStats := frameStats.(invalidSize := frameStats.invalidSize + 1);
      }
      audioData := audioData + payload;
      framesReceived := framesReceived + 1;

      if Truthy(lastProgressTime) && now - lastProgressTime.value >= ProgressInterval {
        lastProgressTime := Some(now);
      }
      assert Model() == Accept(marked, now, Frame(frameCount, payload));
      assert Decode(data).value == Frame(frameCount, payload);
    }

    /** The continuity check of a frame's counter against the previous one. */
    method CheckSequence(frameCount: bv16)
      modifies this`frameStats
      ensures frameStats == Track(old(frameStats), lastFrameCount, frameCount)
    {
      if lastFrameCount.Some? {
        var expectedFrame := Successor(lastFrameCount.value);
        if frameCount != expectedFrame {
          assert IsDiscontinuity(lastFrameCount, frameCount);
          frameStats := frameStats.(drops := frameStats.drops + 1);
          if frameCount < lastFrameCount.value {
            assert IsBackwards(lastFrameCount, frameCount);
            frameStats := frameStats.(outOfOrder := frameStats.outOfOrder + 1);
          } else {
            assert !IsBackwards(lastFrameCount, frameCount);
          }
        } else {
          assert !IsDiscontinuity(lastFrameCount, frameCount);
        }
      } else {
        assert !IsDiscontinuity(lastFrameCount, frameCount);
      }
    }

    /** One iteration of `check_stream_status`, at time `now`. */
    method CheckStreamStatus(now: real)
      requires Valid()
      modifies this
      ensures Valid() && Model() == Poll(old(Model()), now)
    {
      PollValid(Model(), now);
      if isReceiving && Truthy(lastDataTime) && now - lastDataTime.value > IdleThreshold {
        SaveWavFile(now);
        ResetSession();
      }
    }
  }
}
