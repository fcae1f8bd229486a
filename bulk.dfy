/**
 * The batching worker of `ElasticsearchOutput`
 * (src/logdrop/output/elasticsearch.rs): serialized records arrive as
 * `Chunk`s and are queued; a full queue (100 records) or a `Timeout` from
 * the timer thread turns the queue into one bulk-index body, which is
 * posted unless it is empty.
 *
 * The HTTP request, the URL and the threads are not modelled: `posted` logs
 * the bodies `send` would post, in order; `arms` counts the one-shot timers
 * the timer thread has armed. The two ghost fields record what the worker
 * has received and how it was grouped into posted batches.
 */
module Bulk {
  /** `Event`: what the worker receives. */
  datatype Event = Chunk(item: string) | Timeout

  /** What happens outside the worker: a record is fed to the output, or the timer's one-shot runs out. */
  datatype Stimulus = Feed(text: string) | Elapse

  /** `limit`: the queue length that forces a flush. */
  const Limit: nat := 100

  /** The bulk-index action line put before every record. */
  const Header: string := "{\"index\":{}}\n"

  /**
   * The body `make_body` builds: for each queued record in order, the action
   * line, the record and a newline. It is empty exactly when the queue is,
   * the only case the guard in `send` stops, and otherwise ends with a
   * newline.
   */
  function Body(queue: seq<string>): (r: string)
    ensures r == [] <==> queue == []
    ensures queue != [] ==> r[|r| - 1] == '\n'
    decreases |queue|
  {
    if queue == [] then []
    else Body(queue[..|queue| - 1]) + Header + queue[|queue| - 1] + "\n"
  }

  /** The records' own lengths, added up. */
  function TotalLength(queue: seq<string>): nat
    decreases |queue|
  {
    if queue == [] then 0 else TotalLength(queue[..|queue| - 1]) + |queue[|queue| - 1]|
  }

  /** Every record costs its own length and 14 more characters of the body. */
  lemma {:induction false} BodyLength(queue: seq<string>)
    ensures |Body(queue)| == TotalLength(queue) + 14 * |queue|
    decreases |queue|
  {
    if queue != [] {
      BodyLength(queue[..|queue| - 1]);
      assert |Header| == 13;
    }
  }

  /** Bodies concatenate as queues do: a body is the records' sections in order. */
  lemma {:induction false} BodyAppend(q1: seq<string>, q2: seq<string>)
    ensures Body(q1 + q2) == Body(q1) + Body(q2)
    decreases |q2|
  {
    if q2 == [] {
      assert q1 + q2 == q1;
    } else {
      var n := |q2| - 1;
      var section := Header + q2[n] + "\n";
      assert q1 + q2 == (q1 + q2[..n]) + [q2[n]];
      BodyAppend(q1, q2[..n]);
      BodySnoc(q1 + q2[..n], q2[n]);
      BodySnoc(q2[..n], q2[n]);
      assert (Body(q1) + Body(q2[..n])) + section == Body(q1) + (Body(q2[..n]) + section);
    }
  }

  /** One record more adds its section at the end of the body. */
  lemma BodySnoc(queue: seq<string>, item: string)
    ensures Body(queue + [item]) == Body(queue) + (Header + item + "\n")
  {
    assert (queue + [item])[..|queue|] == queue;
  }

  /** The records of a body section by section: the body of one record. */
  lemma BodyOne(item: string)
    ensures Body([item]) == "{\"index\":{}}\n" + item + "\n"
  {
    assert [item][..0] == [];
  }

  /** The batches one after the other. */
  function Flatten(batches: seq<seq<string>>): seq<string>
    decreases |batches|
  {
    if batches == [] then [] else Flatten(batches[..|batches| - 1]) + batches[|batches| - 1]
  }

  /** The records fed, in order. */
  function Fed(stimuli: seq<Stimulus>): seq<string>
    decreases |stimuli|
  {
    if stimuli == [] then []
    else Fed(stimuli[..|stimuli| - 1]) + (match stimuli[|stimuli| - 1] case Feed(text) => [text] case Elapse => [])
  }

  /** `make_body`, one record at a time. */
  method MakeBody(queue: seq<string>) returns (data: string)
    ensures data == Body(queue)
  {
    data := [];
    for i := 0 to |queue|
      invariant data == Body(queue[..i])
    {
      assert queue[..i + 1][..i] == queue[..i];
      data := data + "{\"index\":{}}\n";
      data := data + queue[i];
      data := data + "\n";
    }
    assert queue[..|queue|] == queue;
  }

  /** The worker and its end of the timer. */
  class Batcher {
    var queue: seq<string>
    var posted: seq<string>
    var arms: nat
    ghost var received: seq<string>
    ghost var batches: seq<seq<string>>

    /**
     * Nothing is lost or reordered: the posted batches, in order, then the
     * queue are exactly the records received; each batch is non-empty and
     * was posted as its body.
     */
    ghost predicate Accounted()
      reads this
    {
      && Flatten(batches) + queue == received
      && |posted| == |batches|
      && (forall i :: 0 <= i < |batches| ==> batches[i] != [] && posted[i] == Body(batches[i]))
    }

    /** Between events, moreover, the queue is below the limit. */
    ghost predicate Valid()
      reads this
    {
      |queue| < Limit && Accounted()
    }

    /** The state `new` starts the worker and the timer thread in: an empty queue and one one-shot armed. */
    constructor ()
      ensures Valid() && queue == [] && posted == [] && arms == 1 && received == [] && batches == []
    {
      queue := [];
      posted := [];
      arms := 1;
      received := [];
      batches := [];
    }

    /** `send`: an empty body is not posted. */
    method Send(data: string)
      modifies this`posted
      ensures data == [] ==> posted == old(posted)
      ensures data != [] ==> posted == old(posted) + [data]
    {
      if data == [] {
        return;
      }
      posted := posted + [data];
    }

    /**
     * The timer thread receiving on `timer_rx`: the running one-shot is
     * abandoned without a `Timeout` and a fresh one is armed.
     */
    method ResetTimer()
      modifies this`arms
      ensures arms == old(arms) + 1
    {
      arms := arms + 1;
    }

    /** The timer thread's one-shot running out: it sends `Timeout` and arms a fresh one. */
    method Expire() returns (e: Event)
      modifies this`arms
      ensures e == Timeout && arms == old(arms) + 1
    {
      arms := arms + 1;
      e := Timeout;
    }

    /**
     * One turn of the worker loop. A chunk is queued; once the queue
     * reaches the limit the timer is reset and the whole queue is posted as
     * one body. A timeout posts whatever is queued, nothing if the queue is
     * empty. Either flush empties the queue.
     */
    method Handle(e: Event)
      requires Valid()
      modifies this
      ensures Valid()
      ensures received == old(received) + (if e.Chunk? then [e.item] else [])
      ensures e.Chunk? && |old(queue)| + 1 < Limit ==>
        queue == old(queue) + [e.item] && posted == old(posted) && arms == old(arms)
      ensures e.Chunk? && |old(queue)| + 1 >= Limit ==>
        queue == [] && posted == old(posted) + [Body(old(queue) + [e.item])] && arms == old(arms) + 1
      ensures e.Timeout? ==>
        queue == [] && arms == old(arms) && posted == old(posted) + (if old(queue) == [] then [] else [Body(old(queue))])
    {
      match e
      case Chunk(chunk) =>
        Enqueued(batches, queue, received, chunk);
        queue := queue + [chunk];
        received := received + [chunk];
        if |queue| >= Limit {
          ResetTimer();
          Flush();
        }
      case Timeout =>
        Flush();
    }

    /** What both arms of the loop do to flush: `send(make_body(&queue))`, then `queue.clear()`. */
    method Flush()
      requires Accounted()
      modifies this`posted, this`queue, this`batches
      ensures Accounted() && queue == []
      ensures posted == old(posted) + (if old(queue) == [] then [] else [Body(old(queue))])
    {
      var body := MakeBody(queue);
      Send(body);
      if queue != [] {
        FlattenSnoc(batches, queue);
        batches := batches + [queue];
      } else {
        assert Flatten(batches) + queue == Flatten(batches);
      }
      queue := [];
    }

    /**
     * The worker loop over what happens outside it, a fed record reaching
     * it as a `Chunk` and an elapsed one-shot as a `Timeout`.
     */
    method Run(stimuli: seq<Stimulus>)
      requires Valid()
      modifies this
      ensures Valid()
      ensures received == old(received) + Fed(stimuli)
    {
      for i := 0 to |stimuli|
        invariant Valid()
        invariant received == old(received) + Fed(stimuli[..i])
      {
        FedNext(stimuli, i, old(received), received);
        match stimuli[i]
        case Feed(text) =>
          Handle(Chunk(text));
        case Elapse =>
          var e := Expire();
          Handle(e);
      }
      assert stimuli[..|stimuli|] == stimuli;
    }
  }

  /** One more stimulus feeds its record, if it has one, after those fed before it. */
  lemma FedNext(stimuli: seq<Stimulus>, i: nat, before: seq<string>, received: seq<string>)
    requires i < |stimuli| && received == before + Fed(stimuli[..i])
    ensures received + (match stimuli[i] case Feed(text) => [text] case Elapse => []) == before + Fed(stimuli[..i + 1])
  {
    assert stimuli[..i + 1][..i] == stimuli[..i];
  }

  /** A record queued is received last. */
  lemma Enqueued(b: seq<seq<string>>, queue: seq<string>, received: seq<string>, item: string)
    requires Flatten(b) + queue == received
    ensures Flatten(b) + (queue + [item]) == received + [item]
  {
  }

  /** A batch posted moves its records from the queue to the end of the batches. */
  lemma FlattenSnoc(b: seq<seq<string>>, queue: seq<string>)
    ensures Flatten(b + [queue]) + [] == Flatten(b) + queue
  {
    assert (b + [queue])[..|b|] == b;
  }

  /** Every record fed is posted, once and in order, or still queued. */
  lemma NothingLost(b: seq<seq<string>>, queue: seq<string>, fed: seq<string>, posted: seq<string>)
    requires Flatten(b) + queue == fed && |posted| == |b|
    requires forall i :: 0 <= i < |b| ==> posted[i] == Body(b[i])
    ensures PostedConcat(posted) + Body(queue) == Body(fed)
  {
    PostedBodies(b, posted);
    BodyAppend(Flatten(b), queue);
  }

  /** The posted bodies one after the other. */
  function PostedConcat(posted: seq<string>): string
    decreases |posted|
  {
    if posted == [] then [] else PostedConcat(posted[..|posted| - 1]) + posted[|posted| - 1]
  }

  lemma {:induction false} PostedBodies(b: seq<seq<string>>, posted: seq<string>)
    requires |posted| == |b| && forall i :: 0 <= i < |b| ==> posted[i] == Body(b[i])
    ensures PostedConcat(posted) == Body(Flatten(b))
    decreases |b|
  {
    if b != [] {
      var n := |b| - 1;
      PostedBodies(b[..n], posted[..n]);
      BodyAppend(Flatten(b[..n]), b[n]);
    }
  }
}
