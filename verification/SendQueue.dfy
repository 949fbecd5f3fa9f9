/** The bounded send queue of a client session: one write at a time, in order, and a client that does not read is cut
    off. */
module SendQueues {
  import opened Bytes
  import opened Streams

  const MAX_SEND_QUEUE_BYTES := 0x10_0000

  function Sizes(queue: seq<seq<byte>>): nat {
    if queue == [] then 0 else |queue[0]| + Sizes(queue[1..])
  }

  lemma {:induction false} SizesSnoc(queue: seq<seq<byte>>, last: seq<byte>)
    ensures Sizes(queue + [last]) == Sizes(queue) + |last|
    decreases |queue|
  {
    if queue == [] {
      assert [] + [last] == [last];
    } else {
      assert (queue + [last])[1..] == queue[1..] + [last];
      SizesSnoc(queue[1..], last);
    }
  }

  class SendQueue {
    var queue: seq<seq<byte>>
    var queuedBytes: nat
    var connected: bool
    var writing: bool
    // The buffers accepted and the bytes written to the socket.
    ghost var accepted: seq<byte>
    ghost var written: seq<byte>

    // What was written and what is queued is what was accepted; the first buffer queued is the one being written.
    ghost predicate Valid()
      reads this
    {
      && queuedBytes == Sizes(queue) <= MAX_SEND_QUEUE_BYTES
      && accepted == written + Flatten(queue)
      && (writing <==> queue != [])
    }

    constructor ()
      ensures Valid() && connected && accepted == [] && written == []
    {
      queue, queuedBytes, connected, writing, accepted, written := [], 0, true, false, [], [];
    }

    // A buffer that would exceed the limit closes the connection and is not queued.
    method Send(buffer: seq<byte>)
      requires Valid()
      modifies this
      ensures Valid() && written == old(written)
      ensures var fits := old(queuedBytes) + |buffer| <= MAX_SEND_QUEUE_BYTES;
              && accepted == (if old(connected) && fits then old(accepted) + buffer else old(accepted))
              && connected == (old(connected) && fits)
    {
      if !connected {
        return;
      }
      if queuedBytes + |buffer| > MAX_SEND_QUEUE_BYTES {
        connected := false;
        return;
      }
      SizesSnoc(queue, buffer);
      FlattenSnoc(queue, buffer);
      assert written + (Flatten(queue) + buffer) == accepted + buffer;
      var isWriting := queue != [];
      queue := queue + [buffer];
      queuedBytes := queuedBytes + |buffer|;
      accepted := accepted + buffer;
      if !isWriting {
        writing := true;
      }
    }

    // The write under way has completed.
    method OnWritten()
      requires Valid() && writing
      modifies this`queue, this`queuedBytes, this`writing, this`written
      ensures Valid() && written == old(written) + old(queue)[0] && queue == old(queue)[1..]
      ensures old(written) <= written <= accepted
    {
      queuedBytes := queuedBytes - |queue[0]|;
      written := written + queue[0];
      assert accepted == written + Flatten(queue[1..]);
      queue := queue[1..];
      writing := queue != [];
    }
  }
}
