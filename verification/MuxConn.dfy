/** The mux connection's stream table and the per-stream close, as the objects
    the gateway mutates. The table edits are those of the step model. */
module MuxConn {
  import opened Text
  import opened MuxCodec
  import opened MuxStreams

  const STATUS_GOING_AWAY := 1001

  class GwStream {
    const key: Key
    var outbound: seq<Payload>
    var queued: int
    var done: bool
    var closedWith: Option<nat>

    constructor (key: Key)
      ensures this.key == key && !done && closedWith == None && outbound == [] && queued == 0
    {
      this.key, done, closedWith, outbound, queued := key, false, None, [], 0;
    }

    /** Closes the browser side exactly once: later calls change nothing. */
    method Finish(code: nat)
      modifies this`done, this`closedWith
      ensures done
      ensures closedWith == if old(done) then old(closedWith) else Some(code)
    {
      if !done {
        done := true;
        closedWith := Some(code);
      }
    }

    /** The reader's side of the queue with nobody else at work: the payload
        goes in exactly when both bounds allow it. */
    method Enqueue(p: Payload) returns (overflow: bool)
      requires queued == QueueBytes(outbound)
      modifies this`outbound, this`queued
      ensures queued == QueueBytes(outbound)
      ensures overflow <==> old(QueueBytes(outbound)) + |p.data| > QUEUE_BYTES || |old(outbound)| >= QUEUE_FRAMES
      ensures outbound == if overflow then old(outbound) else old(outbound) + [p]
    {
      overflow := queued + |p.data| > QUEUE_BYTES;
      if !overflow {
        if |outbound| < QUEUE_FRAMES {
          QueueBytesAppend(outbound, p);
          outbound := outbound + [p];
          queued := queued + |p.data|;
        } else {
          overflow := true;
        }
      }
    }
  }

  class GwMuxConn {
    var streams: map<Key, GwStream>
    var dead: bool

    ghost predicate Valid()
      reads this
    {
      forall k :: k in streams ==> streams[k].key == k
    }

    constructor ()
      ensures Valid() && streams == map[] && !dead
    {
      streams, dead := map[], false;
    }

    method Register(st: GwStream) returns (ok: bool)
      requires Valid()
      modifies this`streams
      ensures Valid()
      ensures ok <==> st.key !in old(streams)
      ensures streams == if ok then old(streams)[st.key := st] else old(streams)
    {
      if st.key in streams {
        return false;
      }
      streams := streams[st.key := st];
      ok := true;
    }

    /** Takes out this stream only: a newer one under the same key stays. */
    method Unregister(st: GwStream, finish: bool)
      requires Valid()
      modifies this`streams, st`done, st`closedWith
      ensures Valid()
      ensures streams == Without(old(streams), st.key, st)
      ensures forall k :: k in old(streams) && old(streams)[k] != st ==> k in streams && streams[k] == old(streams)[k]
      ensures finish ==> st.done && (!old(st.done) ==> st.closedWith == Some(1000))
      ensures !finish || old(st.done) ==> st.done == old(st.done) && st.closedWith == old(st.closedWith)
    {
      if st.key in streams && streams[st.key] == st {
        streams := streams - {st.key};
      }
      if finish {
        st.Finish(STATUS_NORMAL_CLOSURE);
      }
    }

    /** Empties the table and finishes every stream that was in it, telling
        those still open that the connection is gone; once. */
    method Kill()
      requires Valid()
      modifies this, streams.Values
      ensures Valid() && dead
      ensures old(dead) ==> streams == old(streams)
      ensures !old(dead) ==> streams == map[]
      ensures forall st :: st in old(streams).Values ==>
                && (!old(dead) ==> st.done)
                && (old(dead) || old(st.done) ==> st.done == old(st.done) && st.closedWith == old(st.closedWith))
                && (!old(dead) && !old(st.done) ==> st.closedWith == Some(1001))
    {
      if dead {
        return;
      }
      dead := true;
      var todo := streams.Values;
      streams := map[];
      ghost var all := todo;
      while todo != {}
        invariant todo <= all && streams == map[] && dead
        invariant forall st :: st in todo ==> st.done == old(st.done) && st.closedWith == old(st.closedWith)
        invariant forall st :: st in all - todo ==>
                    st.done && st.closedWith == if old(st.done) then old(st.closedWith) else Some(STATUS_GOING_AWAY)
        decreases |todo|
      {
        var st :| st in todo;
        todo := todo - {st};
        st.Finish(STATUS_GOING_AWAY);
      }
    }
  }
}
