/** A status client end to end: from the server's runs, through the bytes of the connection, to the
    statuses that the client's loop hands on. */
module Watch {
  import opened Base
  import opened Proto
  import opened Framing
  import opened Ipc
  import S = Server
  import Claims = ServerClaims

  /** The statuses of a list of status events are what the events carry. */
  lemma {:induction false} StatusesOf(events: seq<Event>, seen: seq<Status>)
    requires |events| == |seen| && forall k | 0 <= k < |seen| :: events[k] == StatusEvent(seen[k])
    ensures Statuses(events) == seen
  {
    if events != [] {
      StatusesOf(events[1..], seen[1..]);
    }
  }

  /** A list of frames cut anywhere is its whole frames and less than one more. */
  lemma {:induction false} CutSplits(payloads: seq<Bytes>, k: nat) returns (tail: Bytes)
    requires Sendable(payloads) && k <= |Frames(payloads)|
    ensures Frames(payloads)[..k] == Frames(payloads[..WholeFrames(payloads, k)]) + tail
    ensures !ReadFrame(tail).Message?
    ensures k == |Frames(payloads)| ==> WholeFrames(payloads, k) == |payloads| && tail == []
  {
    hide ReadFrame;
    hide Frame;
    if payloads == [] {
      tail := [];
      NothingIsEnd();
    } else if k < 4 + |payloads[0]| {
      tail := Frame(payloads[0])[..k];
      assert payloads[0] in payloads;
      CutFrameReads(payloads[0], k);
      assert Frames(payloads)[..k] == tail;
    } else {
      var l := k - 4 - |payloads[0]|;
      tail := CutSplits(payloads[1..], l);
      var j := WholeFrames(payloads[1..], l);
      FramesOfPrefix(payloads, j);
      assert Frames(payloads)[..k] == Frame(payloads[0]) + Frames(payloads[1..])[..l];
      assert Frame(payloads[0]) + (Frames(payloads[1..][..j]) + tail) ==
             (Frame(payloads[0]) + Frames(payloads[1..][..j])) + tail;
    }
  }

  lemma NothingIsEnd()
    ensures ReadFrame([]) == End
  {
  }

  lemma {:induction false} EncodedPrefix(codec: Codec, events: seq<Event>, j: nat)
    requires j <= |events|
    ensures |Encoded(codec, events)| == |events| && Encoded(codec, events)[..j] == Encoded(codec, events[..j])
  {
    if events != [] && j > 0 {
      EncodedPrefix(codec, events[1..], j - 1);
      assert events[..j][1..] == events[1..][..j - 1];
      assert Encoded(codec, events)[..j] == [codec.event(events[0])] + Encoded(codec, events[1..])[..j - 1];
    } else if events != [] {
      EncodedPrefix(codec, events[1..], 0);
    }
  }

  /** The run has opened a subscription on this connection, and nothing else was sent on it. */
  ghost predicate Following(start: S.State, steps: seq<S.Step>, id: nat) {
    && S.Start(start) && S.Allowed(start, steps)
    && id in S.Run(start, steps).conns && S.Run(start, steps).conns[id].sub.Some?
    && Claims.OnlySubscribed(S.Pending(S.Run(start, steps).conns[id]))
  }

  /** The events that the server has written on the connection, or is about to. */
  ghost function Written(start: S.State, steps: seq<S.Step>, id: nat): seq<Event>
    requires Following(start, steps, id)
  {
    Claims.ClientSeesSubscription(start, steps, id);
    var s := S.Run(start, steps);
    Claims.Events(s.ctl.log, S.Pending(s.conns[id]))
  }

  /** The statuses that the subscription has delivered. */
  ghost function Delivered(start: S.State, steps: seq<S.Step>, id: nat): seq<Status>
    requires Following(start, steps, id)
  {
    Claims.SubscriberConverges(start, steps, id);
    var s := S.Run(start, steps);
    Claims.Delivered(s.ctl.log, s.conns[id].sub.value)
  }

  lemma {:induction false} WrittenIsDelivered(start: S.State, steps: seq<S.Step>, id: nat)
    requires Following(start, steps, id)
    ensures var events, seen := Written(start, steps, id), Delivered(start, steps, id);
            |events| == |seen| && forall k | 0 <= k < |seen| :: events[k] == StatusEvent(seen[k])
  {
    hide S.Run;
    hide S.Allowed;
    hide Claims.Delivered;
    hide Claims.Events;
    Claims.ClientSeesSubscription(start, steps, id);
  }

  /** The events fit into frames, and the client decodes what the server encodes. */
  ghost predicate Understood(codec: Codec, decode: Bytes -> Option<Event>, events: seq<Event>) {
    forall e | e in events :: |codec.event(e)| < TWO_32 && decode(codec.event(e)) == Some(e)
  }

  /** The whole events within the first `k` bytes are what the subscription delivered first. */
  lemma {:induction false} BytesOfDelivered(
      codec: Codec, decode: Bytes -> Option<Event>, start: S.State, steps: seq<S.Step>, id: nat, k: nat)
    returns (j: nat, tail: Bytes)
    requires Following(start, steps, id) && Understood(codec, decode, Written(start, steps, id))
    requires k <= |Frames(Encoded(codec, Written(start, steps, id)))|
    ensures var events := Written(start, steps, id);
            && j <= |events| && !ReadFrame(tail).Message?
            && Frames(Encoded(codec, events))[..k] == Frames(Encoded(codec, events[..j])) + tail
            && j <= |Delivered(start, steps, id)| && Statuses(events[..j]) == Delivered(start, steps, id)[..j]
            && (k == |Frames(Encoded(codec, events))| ==> j == |events| && tail == [])
  {
    hide Written;
    hide Delivered;
    hide Frames;
    hide Encoded;
    hide Following;
    hide ReadFrame;
    var events, seen := Written(start, steps, id), Delivered(start, steps, id);
    WrittenIsDelivered(start, steps, id);
    EncodedSendable(codec, events);
    var payloads := Encoded(codec, events);
    tail := CutSplits(payloads, k);
    j := WholeFrames(payloads, k);
    EncodedPrefix(codec, events, j);
    StatusesOf(events[..j], seen[..j]);
  }

  /** What a status client has handed on when its connection breaks after `k` bytes, in every run of
      the server: the beginning of what its subscription has delivered, and all of it if all bytes
      came. */
  method FollowSubscription(
      input: ByteSource, codec: Codec, decode: Bytes -> Option<Event>, ghost start: S.State, ghost steps: seq<S.Step>,
      ghost id: nat, ghost k: nat)
    returns (seen: seq<Status>, ok: bool)
    requires Following(start, steps, id) && Understood(codec, decode, Written(start, steps, id))
    requires k <= |Frames(Encoded(codec, Written(start, steps, id)))|
    requires input.Valid() && input.Coming() == Frames(Encoded(codec, Written(start, steps, id)))[..k]
    modifies input
    ensures seen <= Delivered(start, steps, id)
    ensures k == |Frames(Encoded(codec, Written(start, steps, id)))| ==> ok && seen == Delivered(start, steps, id)
  {
    hide Written;
    hide Delivered;
    hide Frames;
    hide Encoded;
    hide Following;
    hide Statuses;
    ghost var j, tail := BytesOfDelivered(codec, decode, start, steps, id, k);
    WrittenIsDelivered(start, steps, id);
    seen, ok := Follow(input, codec, decode, Written(start, steps, id)[..j], tail);
    assert Delivered(start, steps, id)[..|Delivered(start, steps, id)|] == Delivered(start, steps, id);
  }
}
