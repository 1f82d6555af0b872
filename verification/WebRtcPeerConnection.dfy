/** The connection as an object: `send`, the drain loop and `close`. */
module PeerConnections {
  import opened Bytes
  import opened SendQueues
  import Model = SendQueues

  class WebRtcPeerConnection {
    var isClosed: bool
    var sendQueue: seq<Bytes>
    var channel: ReadyState
    var bufferedAmount: nat
    var lowPending: bool
    var wire: seq<Bytes>
    var taken: nat
    var accepted: seq<Bytes>
    ghost var held: seq<Bytes>
    ghost var fates: seq<bool>

    ghost function State(): Connection
      reads this
    {
      Connection(isClosed, sendQueue, channel, bufferedAmount, lowPending, wire, taken, accepted, held, fates)
    }

    constructor ()
      ensures State() == Model.FRESH
    {
      isClosed, sendQueue, channel, bufferedAmount := false, [], Absent, 0;
      lowPending, wire, taken, accepted, held, fates := false, [], 0, [], [], [];
    }

    /** `throws` says whether the channel would throw at the frame. */
    method Send(frame: Bytes, throws: bool) returns (sent: bool)
      modifies this
      ensures State() == Model.Send(old(State()), frame, throws)
      ensures sent <==> Sendable(old(State())) && !(throws && Direct(old(State())))
    {
      if isClosed || channel != Open {
        return false;
      }
      held := held + [frame];
      if |sendQueue| > 0 || bufferedAmount >= BUFFER_HIGH_WATERMARK {
        sendQueue, accepted := sendQueue + [frame], accepted + [frame];
        return true;
      }
      if throws {
        sendQueue := sendQueue + [frame];
        return false;
      }
      wire, fates, accepted := wire + [frame], fates + [true], accepted + [frame];
      bufferedAmount := bufferedAmount + |frame|;
      return true;
    }

    method IsChannelOpen() returns (open: bool)
      ensures open == (State().channel == Open)
    {
      open := channel == Open;
    }

    /** The channel takes `good` frames before it throws, which ends the loop. */
    method DrainSendQueue(good: nat) returns (threw: bool)
      modifies this
      ensures State() == Model.DrainSendQueue(old(State()), good)
      ensures threw <==> channel == Open && DrainThrows(old(State()), good)
    {
      if channel != Open {
        return false;
      }
      var left := good;
      while |sendQueue| > 0
        invariant channel == Open && State().channel == Open
        invariant Drained(State(), left) == Drained(old(State()), good)
        invariant DrainThrows(State(), left) == DrainThrows(old(State()), good)
        decreases |sendQueue|
      {
        if bufferedAmount >= BUFFER_HIGH_WATERMARK {
          break;
        }
        var next := sendQueue[0];
        sendQueue := sendQueue[1..];
        if left == 0 {
          fates := fates + [false];
          return true;
        }
        wire, fates := wire + [next], fates + [true];
        bufferedAmount := bufferedAmount + |next|;
        left := left - 1;
      }
      return false;
    }

    method OnBufferedAmountLow(good: nat)
      modifies this
      ensures State() == LowEvent(old(State()), good)
    {
      if lowPending {
        lowPending := false;
        var _ := DrainSendQueue(good);
      }
    }

    method Close()
      modifies this
      ensures State() == Model.Close(old(State()))
    {
      if isClosed {
        return;
      }
      isClosed := true;
      sendQueue := [];
      if channel != Absent {
        channel := Closed;
      }
    }
  }
}
