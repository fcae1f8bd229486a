/**
 * The dispatch loop of `run` in src/main.rs: every record received from the
 * inputs is checked for a `"message"` field; a record without one is
 * dropped, any other is sent, unchanged, to every output channel.
 *
 * The threads and channels are not modelled: each output channel is the
 * sequence of records sent to it so far, and a record is a JSON value.
 */
module Dispatch {
  import opened Wrappers
  import opened JsonValue

  /** The field every forwarded record must have. */
  const MessageKey: string := "message"

  /** The records a stream of received records forwards, in order: never more than were received, each with a `"message"` field. */
  function Accepted(records: seq<Value>): (r: seq<Value>)
    ensures |r| <= |records|
    ensures forall v :: v in r ==> v in records && Find(v, MessageKey).Some?
    decreases |records|
  {
    if records == [] then []
    else
      var last := records[|records| - 1];
      Accepted(records[..|records| - 1]) + (if Find(last, MessageKey).Some? then [last] else [])
  }

  /** Forwarding two streams one after the other forwards each in turn. */
  lemma {:induction false} AcceptedAppend(r1: seq<Value>, r2: seq<Value>)
    ensures Accepted(r1 + r2) == Accepted(r1) + Accepted(r2)
    decreases |r2|
  {
    if r2 == [] {
      assert r1 + r2 == r1;
    } else {
      var n := |r2| - 1;
      assert (r1 + r2)[..|r1 + r2| - 1] == r1 + r2[..n];
      assert (r1 + r2)[|r1 + r2| - 1] == r2[n];
      AcceptedAppend(r1, r2[..n]);
    }
  }

  /** A record is forwarded exactly when it was received and is an object with a `"message"` member. */
  lemma {:induction false} AcceptedMembers(records: seq<Value>, v: Value)
    ensures v in Accepted(records) <==> v in records && v.Object? && MessageKey in v.members
    decreases |records|
  {
    if records != [] {
      var n := |records| - 1;
      AcceptedMembers(records[..n], v);
      assert records == records[..n] + [records[n]];
    }
  }

  /** The output side of `run`: one channel per configured output, each holding what was sent to it. */
  class Dispatcher {
    var channels: seq<seq<Value>>

    /** One empty channel per output, in configuration order. */
    constructor (outputs: nat)
      ensures |channels| == outputs
      ensures forall k :: 0 <= k < outputs ==> channels[k] == []
    {
      channels := seq(outputs, _ => []);
    }

    /** One turn of the loop: drop a record without `"message"`, otherwise send a copy to each channel in turn. */
    method Dispatch(value: Value)
      modifies this
      ensures |channels| == |old(channels)|
      ensures Find(value, MessageKey).None? ==> channels == old(channels)
      ensures Find(value, MessageKey).Some? ==>
        forall k :: 0 <= k < |channels| ==> channels[k] == old(channels)[k] + [value]
    {
      if Find(value, MessageKey).None? {
        return;
      }
      for k := 0 to |channels|
        invariant |channels| == |old(channels)|
        invariant forall j :: 0 <= j < k ==> channels[j] == old(channels)[j] + [value]
        invariant forall j :: k <= j < |channels| ==> channels[j] == old(channels)[j]
      {
        channels := channels[k := channels[k] + [value]];
      }
    }

    /** The loop over a stream of received records: every output receives the forwarded records, in order. */
    method Run(records: seq<Value>)
      modifies this
      ensures |channels| == |old(channels)|
      ensures forall k :: 0 <= k < |channels| ==> channels[k] == old(channels)[k] + Accepted(records)
    {
      for i := 0 to |records|
        invariant |channels| == |old(channels)|
        invariant forall k :: 0 <= k < |channels| ==> channels[k] == old(channels)[k] + Accepted(records[..i])
      {
        assert records[..i + 1][..i] == records[..i];
        Dispatch(records[i]);
      }
      assert records[..|records|] == records;
    }
  }
}
