/** What the mux leg does for a stream, step by step to the end: payloads are
    queued, delivered or overflow, closes close, ends end, a kill finishes. */
module MuxServing {
  import opened Text
  import opened MuxStreams
  import opened MuxProofs

  // ---- The reader ----

  /** The stream is out of the table and finished, and everything else is as it
      was but for its record's `dropped`. */
  ghost predicate ClosedByReader(s: State, t: State, key: Key, st: nat, dropped: seq<Payload>)
    requires st in s.objs
  {
    && t.reader.Idle? && t.kill == s.kill && t.streams == s.streams - {key}
    && t.objs == s.objs[st := s.objs[st].(done := true, dropped := dropped)]
  }

  /** A CLOSE frame, from every reachable state: the stream that holds the key
      leaves the table and is finished, and nothing else changes; with no holder
      nothing changes at all. */
  lemma CloseFrameClosesItsStream(steps: seq<Step>, key: Key)
    requires After(steps).reader.Idle?
    ensures var s := After(steps);
            var t := AfterReading(s, [RecvClose(key), Remove, FinishRemoved]);
            match Holder(s.streams, key)
            case None => t == s
            case Some(st) => st in s.objs && ClosedByReader(s, t, key, st, s.objs[st].dropped) && t.log == s.log
  {
    assert Shape(After(steps)) by { InvAlways(steps); }
    CloseHandled(After(steps), key);
  }

  lemma CloseHandled(s: State, key: Key)
    requires Shape(s) && s.reader.Idle?
    ensures var t := AfterReading(s, [RecvClose(key), Remove, FinishRemoved]);
            match Holder(s.streams, key)
            case None => t == s
            case Some(st) => st in s.objs && ClosedByReader(s, t, key, st, s.objs[st].dropped) && t.log == s.log
  {
    var s1 := AfterReader(s, RecvClose(key));
    Three(s, RecvClose(key), Remove, FinishRemoved);
    if Holder(s.streams, key).Some? {
      var st := s.streams[key];
      assert s1 == s.(reader := Closing(st));
      RemovedAndFinished(s1, key, st);
    }
  }

  lemma RemovedAndFinished(s: State, key: Key, st: nat)
    requires s.reader == Closing(st) && st in s.objs && s.objs[st].key == key
    requires key in s.streams && s.streams[key] == st
    ensures ReaderEnabled(s, Remove) && ReaderEnabled(AfterReader(s, Remove), FinishRemoved)
    ensures var t := AfterReader(AfterReader(s, Remove), FinishRemoved);
            ClosedByReader(s, t, key, st, s.objs[st].dropped) && t.log == s.log
  {
  }

  function Skip(s: State, step: ReaderStep): State
  {
    if ReaderEnabled(s, step) then AfterReader(s, step) else s
  }

  lemma Three(s: State, a: ReaderStep, b: ReaderStep, c: ReaderStep)
    ensures AfterReading(s, [a, b, c]) == Skip(Skip(Skip(s, a), b), c)
  {
    assert [a, b, c][1..] == [b, c] && [b, c][1..] == [c] && [c][1..] == [];
    var t := Skip(s, a);
    assert AfterReading(Skip(t, b), [c]) == Skip(Skip(t, b), c);
    assert AfterReading(t, [b, c]) == AfterReading(Skip(t, b), [c]);
  }

  /** What is to become of a DATA frame: with room under both bounds the payload
      joins the queue behind what waits there and is counted; otherwise the
      queue stays, and the stream leaves the table and is finished; with no
      holder nothing changes but the log. */
  ghost predicate DataDone(s: State, t: State, key: Key, p: Payload)
  {
    && t.log == s.log + [Arrival(Holder(s.streams, key), p)]
    && match Holder(s.streams, key)
       case None => t == s.(log := t.log)
       case Some(st) =>
         && st in s.objs
         && var o := s.objs[st];
            if o.queued + |p.data| <= 8 * 1024 * 1024 && |o.queue| < 4096
            then t == s.(log := t.log, objs := s.objs[st := o.(queue := o.queue + [p], queued := o.queued + |p.data|)])
            else ClosedByReader(s, t, key, st, [p])
  }

  /** The reader from a DATA frame back to its next read. */
  function HandledData(s: State, key: Key, p: Payload): State
  {
    Skip(Skip(Skip(Sorted(s, key, p), Count), Remove), FinishRemoved)
  }

  /** Up to where the payload is in the queue or given up. */
  function Sorted(s: State, key: Key, p: Payload): State
  {
    Skip(Skip(Skip(s, RecvData(key, p)), Load), Send)
  }

  /** From every reachable state. */
  lemma DataFrameIsQueuedOrOverflows(steps: seq<Step>, key: Key, p: Payload)
    requires After(steps).reader.Idle?
    ensures DataDone(After(steps), HandledData(After(steps), key, p), key, p)
  {
    var s := After(steps);
    assert Shape(s) by { InvAlways(steps); }
    var h := Holder(s.streams, key);
    if h.Some? {
      var o := s.objs[h.value];
      if o.queued + |p.data| <= QUEUE_BYTES && |o.queue| < QUEUE_FRAMES {
        DataQueued(s, key, p, h.value);
      } else {
        DataOverflows(s, key, p, h.value);
      }
    }
  }

  lemma DataQueued(s: State, key: Key, p: Payload, st: nat)
    requires s.reader.Idle? && Holder(s.streams, key) == Some(st) && st in s.objs
    requires s.objs[st].queued + |p.data| <= QUEUE_BYTES && |s.objs[st].queue| < QUEUE_FRAMES
    ensures DataDone(s, HandledData(s, key, p), key, p)
  {
    var o, log := s.objs[st], s.log + [Arrival(Some(st), p)];
    assert Sorted(s, key, p) ==
           s.(log := log, reader := Sent(st, |p.data|), objs := s.objs[st := o.(queue := o.queue + [p])]);
  }

  lemma DataOverflows(s: State, key: Key, p: Payload, st: nat)
    requires s.reader.Idle? && Holder(s.streams, key) == Some(st) && st in s.objs && s.objs[st].key == key
    requires s.objs[st].queued + |p.data| > QUEUE_BYTES || |s.objs[st].queue| >= QUEUE_FRAMES
    ensures DataDone(s, HandledData(s, key, p), key, p)
  {
    var o, log := s.objs[st], s.log + [Arrival(Some(st), p)];
    var s3 := s.(log := log, reader := Closing(st), objs := s.objs[st := o.(dropped := [p])]);
    assert Sorted(s, key, p) == s3;
    RemovedAndFinished(s3, key, st);
  }

  // ---- A stream's own goroutines ----

  function Own1(o: Stream, op: Op, alive: bool): Stream
  {
    if OpEnabled(o, op, alive) then AfterOp(o, op, alive) else o
  }

  /** One round of the pump: the payload that waited longest reaches the browser
      and is taken off the counter, and the pump is ready again. */
  lemma PumpDeliversTheOldest(o: Stream, alive: bool)
    requires o.pump.Ready? && o.queue != []
    ensures Own1(Own1(Own1(o, PumpTake, alive), PumpCount, alive), PumpWrite(true), alive) ==
            o.(queue := o.queue[1..], queued := o.queued - |o.queue[0].data|, received := o.received + [o.queue[0]])
  {
  }

  /** A failed write to the browser finishes the stream, and a finished stream's
      pump can stop. */
  lemma PumpEnds(o: Stream, alive: bool)
    ensures o.pump.Sending? ==> Own1(o, PumpWrite(false), alive).done && Own1(o, PumpWrite(false), alive).pump.Stopped?
    ensures o.pump.Ready? ==> (Own1(o, PumpStop, alive).pump.Stopped? <==> o.done)
  {
  }

  /** The quarantine closure of a registered stream finishes it, and tells the
      enclave exactly while the connection lives. */
  lemma CutFinishesStream(o: Stream, alive: bool)
    requires o.cutter.CutIdle? && EverRegistered(o)
    ensures var t := Own1(Own1(Own1(o, CutCheck, alive), CutWrite, alive), CutFinish, alive);
            t.done && t.cutter.CutOver? && (t.wrote <==> o.wrote || alive)
  {
  }

  /** Serving opens with a frame to the enclave exactly while the connection
      lives, and a refused stream is finished without one. */
  lemma OpenIsWritten(o: Stream, alive: bool)
    requires o.serve.Registered?
    ensures var t := Own1(Own1(o, BeginWrite, alive), EndWrite(true), alive);
            if alive then t.serve.Serving? && t.wrote && Own1(t, PumpStart, alive).serve.Serving? else t == o
    ensures alive ==> Own1(Own1(o, BeginWrite, alive), EndWrite(false), alive) == o.(serve := Ending, passed := true)
    ensures Own1(o, Refuse, alive).done && (Own1(o, Refuse, alive).wrote <==> o.wrote)
    ensures o.pump.NotStarted? && alive ==>
              Own1(Own1(Own1(o, BeginWrite, alive), EndWrite(true), alive), PumpStart, alive).pump.Ready?
  {
  }

  // ---- The table ----

  /** A new stream is registered exactly when its key is free, and then holds it;
      the others keep theirs. */
  lemma RegisterTakesFreeKey(s: State, st: nat)
    requires TableEnabled(s, st, Register)
    ensures var t, o := AfterTable(s, st, Register), s.objs[st];
            && (t.objs[st].serve.Registered? <==> o.key !in s.streams)
            && t.streams == (if o.key in s.streams then s.streams else s.streams[o.key := st])
            && (o.key in s.streams ==> t.objs[st].serve.Rejected?)
            && forall x :: x in s.objs && x != st ==> x in t.objs && t.objs[x] == s.objs[x]
  {
  }

  /** The end of serving: out of the table if it was still in, and finished. */
  lemma ServingEndsFinished(steps: seq<Step>, st: nat)
    requires TableEnabled(After(steps), st, Unregister)
    ensures var s := After(steps);
            var t := AfterTable(s, st, Unregister);
            && !InTable(t, st) && (forall k :: k in s.streams && s.streams[k] != st ==> Holder(t.streams, k) == Some(s.streams[k]))
            && OpEnabled(t.objs[st], Finish, t.kill.Alive?)
            && AfterOp(t.objs[st], Finish, t.kill.Alive?) == t.objs[st].(serve := Gone, done := true)
  {
    assert Shape(After(steps)) by { InvAlways(steps); }
  }

  // ---- Kill ----

  function AfterKills(s: State, ks: seq<KillStep>): State
    decreases |ks|
  {
    if ks == [] then s
    else if KillEnabled(s, ks[0]) then AfterKills(AfterKill(s, ks[0]), ks[1..])
    else AfterKills(s, ks[1..])
  }

  /** A kill from every reachable state with a live connection, carried through:
      the table is empty and every stream that was in it is finished. */
  lemma KillFinishesEveryStream(steps: seq<Step>) returns (ks: seq<KillStep>)
    requires After(steps).kill.Alive?
    ensures var s := After(steps);
            var t := AfterKills(s, [Mark, Sweep] + ks);
            && t.kill == Swept({}) && t.streams == map[]
            && forall k :: k in s.streams ==> s.streams[k] in t.objs && t.objs[s.streams[k]].done
  {
    var s := After(steps);
    assert Shape(s) by { InvAlways(steps); }
    var s1 := AfterKill(s, Mark);
    var s2 := AfterKill(s1, Sweep);
    assert forall k :: k in s.streams ==> s.streams[k] in s.streams.Values;
    ks := FinishAll(s2);
    assert ([Mark, Sweep] + ks)[1..] == [Sweep] + ks && ([Sweep] + ks)[1..] == ks;
  }

  lemma {:induction false} FinishAll(s: State) returns (ks: seq<KillStep>)
    requires s.kill.Swept? && forall st :: st in s.kill.todo ==> st in s.objs
    ensures var t := AfterKills(s, ks);
            && t.kill == Swept({}) && t.streams == s.streams
            && (forall st :: st in s.kill.todo ==> st in t.objs && t.objs[st].done)
            && (forall st :: st in s.objs ==> st in t.objs && (s.objs[st].done ==> t.objs[st].done))
    decreases |s.kill.todo|
  {
    ks := [];
    if s.kill.todo != {} {
      var st :| st in s.kill.todo;
      var t := AfterKill(s, FinishSwept(st));
      var rest := FinishAll(t);
      ks := [FinishSwept(st)] + rest;
      assert ks[1..] == rest;
    }
  }
}
