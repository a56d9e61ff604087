/** What every run of a mux connection keeps. */
module MuxProofs {
  import opened Text
  import opened MuxStreams

  // ---- The stream's own steps ----

  lemma HeadOut<T>(a: seq<T>, q: seq<T>)
    requires q != []
    ensures a + [] + q == a + [q[0]] + q[1..]
  {
  }

  lemma OpKeepsOutgoing(o: Stream, op: Op, alive: bool)
    requires OpEnabled(o, op, alive)
    ensures Outgoing(AfterOp(o, op, alive)) == Outgoing(o)
  {
    match op
    case PumpTake => HeadOut(o.received, o.queue);
    case PumpWrite(_) => assert o.received + [o.pump.p] + [] == o.received + [o.pump.p];
    case _ =>
  }

  lemma OwnKeeps(s: State, st: nat, op: Op)
    requires Enabled(s, Own(st, op)) && StreamOk(s, st)
    ensures StreamOk(Next(s, Own(st, op)), st)
  {
    OwnKeepsDelivery(s, st, op);
    OwnKeepsQueue(s, st, op);
    OwnKeepsLife(s, st, op);
  }

  lemma OwnKeepsDelivery(s: State, st: nat, op: Op)
    requires Enabled(s, Own(st, op)) && DeliveryOk(s, st)
    ensures DeliveryOk(Next(s, Own(st, op)), st)
  {
    OpKeepsOutgoing(s.objs[st], op, s.kill.Alive?);
    OpKeepsRest(s.objs[st], op, s.kill.Alive?);
  }

  lemma OpKeepsRest(o: Stream, op: Op, alive: bool)
    requires OpEnabled(o, op, alive)
    ensures var o' := AfterOp(o, op, alive);
            o'.dropped == o.dropped && o'.key == o.key && (o'.serve.Fresh? <==> o.serve.Fresh?)
  {
  }

  lemma OwnKeepsQueue(s: State, st: nat, op: Op)
    requires Enabled(s, Own(st, op)) && QueueOk(s, st)
    ensures QueueOk(Next(s, Own(st, op)), st)
  {
  }

  lemma OwnKeepsLife(s: State, st: nat, op: Op)
    requires Enabled(s, Own(st, op)) && LifeOk(s, st)
    ensures LifeOk(Next(s, Own(st, op)), st)
  {
  }

  /** A stream's own step is nothing to any other stream. */
  lemma OwnKeepsOther(s: State, st: nat, op: Op, x: nat)
    requires Enabled(s, Own(st, op)) && x in s.objs && x != st && StreamOk(s, x)
    ensures StreamOk(Next(s, Own(st, op)), x)
  {
  }

  // ---- Joining and leaving the table ----

  lemma {:induction false} NothingArrivedYet(log: seq<Arrival>, st: nat)
    requires forall i :: 0 <= i < |log| ==> log[i].holder != Some(st)
    ensures Arrived(log, st) == []
  {
    if log != [] {
      NothingArrivedYet(log[..|log| - 1], st);
    }
  }

  lemma NewStreamOk(s: State, st: nat, key: Key)
    requires Shape(s) && st !in s.objs
    ensures StreamOk(AfterTable(s, st, Create(key)), st)
  {
    NothingArrivedYet(s.log, st);
  }

  lemma TableKeepsDelivery(s: State, st: nat, step: TableStep, x: nat)
    requires TableEnabled(s, st, step) && Shape(s) && x in s.objs && DeliveryOk(s, x)
    ensures DeliveryOk(AfterTable(s, st, step), x)
  {
  }

  lemma TableKeepsQueue(s: State, st: nat, step: TableStep, x: nat)
    requires TableEnabled(s, st, step) && x in s.objs && QueueOk(s, x)
    ensures QueueOk(AfterTable(s, st, step), x)
  {
  }

  lemma TableKeepsLife(s: State, st: nat, step: TableStep, x: nat)
    requires TableEnabled(s, st, step) && Shape(s) && x in s.objs && LifeOk(s, x)
    ensures LifeOk(AfterTable(s, st, step), x)
  {
  }

  // ---- The reader ----

  lemma LastArrival<T>(a: seq<T>, p: T)
    ensures a + ([] + []) + [p] == a + ([p] + [])
  {
  }

  lemma QueueTail<T>(a: seq<T>, q: seq<T>, p: T)
    ensures a + q + ([p] + []) == a + (q + [p]) + ([] + [])
  {
  }

  lemma ArrivalKeepsDelivery(s: State, key: Key, p: Payload, x: nat)
    requires s.reader.Idle? && Shape(s) && x in s.objs && DeliveryOk(s, x)
    ensures DeliveryOk(AfterReader(s, RecvData(key, p)), x)
  {
    ArrivedAppend(s.log, Arrival(Holder(s.streams, key), p), x);
    if Holder(s.streams, key) == Some(x) {
      assert InTable(s, x) && s.objs[x].dropped == [];
      LastArrival(Outgoing(s.objs[x]), p);
    }
  }

  lemma DropKeepsDelivery(s: State, x: nat)
    requires (s.reader.Looked? || s.reader.Approved?) && Shape(s) && x in s.objs && DeliveryOk(s, x)
    ensures DeliveryOk(Drop(s), x)
  {
    assert [s.reader.p] + [] == [] + [s.reader.p];
    if x == s.reader.st {
      assert InHand(s.reader, x) == [s.reader.p] && s.objs[x].dropped == [];
    }
  }

  lemma SendKeepsDelivery(s: State, x: nat)
    requires ReaderEnabled(s, Send) && Shape(s) && x in s.objs && DeliveryOk(s, x)
    ensures DeliveryOk(AfterReader(s, Send), x)
  {
    var o := s.objs[x];
    if |s.objs[s.reader.st].queue| >= QUEUE_FRAMES {
      DropKeepsDelivery(s, x);
    } else {
      QueueTail(o.received + PumpHeld(o.pump), o.queue, s.reader.p);
    }
  }

  lemma ReaderKeepsDelivery(s: State, step: ReaderStep, x: nat)
    requires ReaderEnabled(s, step) && Shape(s) && x in s.objs && DeliveryOk(s, x)
    ensures DeliveryOk(AfterReader(s, step), x)
  {
    match step
    case RecvData(key, p) => ArrivalKeepsDelivery(s, key, p, x);
    case Load => if AfterReader(s, Load) == Drop(s) { DropKeepsDelivery(s, x); }
    case Send => SendKeepsDelivery(s, x);
    case RecvClose(_) =>
    case Count =>
    case Remove =>
    case FinishRemoved =>
  }

  lemma SendKeepsQueue(s: State, x: nat)
    requires ReaderEnabled(s, Send) && x in s.objs && QueueOk(s, x)
    ensures QueueOk(AfterReader(s, Send), x)
  {
    var o, t := s.objs[x], AfterReader(s, Send);
    if x != s.reader.st || |o.queue| >= QUEUE_FRAMES {
      assert t.objs[x].queue == o.queue && t.objs[x].queued == o.queued && t.objs[x].pump == o.pump;
    } else {
      assert t.objs[x] == o.(queue := o.queue + [s.reader.p]);
      QueueBytesAppend(o.queue, s.reader.p);
    }
  }

  lemma ReaderKeepsQueue(s: State, step: ReaderStep, x: nat)
    requires ReaderEnabled(s, step) && x in s.objs && QueueOk(s, x)
    ensures QueueOk(AfterReader(s, step), x)
  {
    if step.Send? {
      SendKeepsQueue(s, x);
    }
  }

  lemma RemoveKeepsLife(s: State, x: nat)
    requires ReaderEnabled(s, Remove) && x in s.objs && LifeOk(s, x)
    ensures LifeOk(AfterReader(s, Remove), x)
  {
  }

  lemma ReaderKeepsLife(s: State, step: ReaderStep, x: nat)
    requires ReaderEnabled(s, step) && Shape(s) && x in s.objs && LifeOk(s, x)
    ensures LifeOk(AfterReader(s, step), x)
  {
    if step.Remove? {
      RemoveKeepsLife(s, x);
    }
  }

  // ---- Kill ----

  lemma KillKeepsFlow(s: State, step: KillStep, x: nat)
    requires KillEnabled(s, step) && x in s.objs && DeliveryOk(s, x) && QueueOk(s, x)
    ensures DeliveryOk(AfterKill(s, step), x) && QueueOk(AfterKill(s, step), x)
  {
  }

  lemma KillKeepsLife(s: State, step: KillStep, x: nat)
    requires KillEnabled(s, step) && x in s.objs && LifeOk(s, x)
    ensures LifeOk(AfterKill(s, step), x)
  {
    if step.Sweep? && InTable(s, x) {
      assert x in s.streams.Values;
    }
  }

  // ---- All streams, all steps ----

  lemma ReaderKeepsShape(s: State, step: ReaderStep)
    requires Shape(s) && ReaderEnabled(s, step)
    ensures Shape(AfterReader(s, step))
  {
  }

  lemma TableKeepsShape(s: State, st: nat, step: TableStep)
    requires Shape(s) && TableEnabled(s, st, step)
    ensures Shape(AfterTable(s, st, step))
  {
  }

  lemma OwnKeepsShape(s: State, st: nat, op: Op)
    requires Shape(s) && Enabled(s, Own(st, op))
    ensures Shape(Next(s, Own(st, op)))
  {
    assert EverRegistered(s.objs[st]) ==> EverRegistered(AfterOp(s.objs[st], op, s.kill.Alive?));
  }

  lemma NextKeepsShape(s: State, step: Step)
    requires Enabled(s, step) && Shape(s)
    ensures Shape(Next(s, step))
  {
    match step
    case Own(st, op) => OwnKeepsShape(s, st, op);
    case AtTable(st, t) => TableKeepsShape(s, st, t);
    case ByReader(r) => ReaderKeepsShape(s, r);
    case ByKill(k) =>
  }

  lemma NextKeepsStream(s: State, step: Step, x: nat)
    requires Enabled(s, step) && Shape(s) && x in s.objs && StreamOk(s, x)
    ensures x in Next(s, step).objs && StreamOk(Next(s, step), x)
  {
    match step
    case Own(st, op) =>
      if st == x { OwnKeeps(s, st, op); } else { OwnKeepsOther(s, st, op, x); }
    case AtTable(st, t) =>
      TableKeepsDelivery(s, st, t, x);
      TableKeepsQueue(s, st, t, x);
      TableKeepsLife(s, st, t, x);
    case ByReader(r) =>
      ReaderKeepsDelivery(s, r, x);
      ReaderKeepsQueue(s, r, x);
      ReaderKeepsLife(s, r, x);
    case ByKill(k) =>
      KillKeepsFlow(s, k, x);
      KillKeepsLife(s, k, x);
  }

  lemma NextKeepsInv(s: State, step: Step)
    requires Inv(s) && Enabled(s, step)
    ensures Inv(Next(s, step))
  {
    NextKeepsShape(s, step);
    forall x | x in Next(s, step).objs
      ensures StreamOk(Next(s, step), x)
    {
      if x in s.objs {
        NextKeepsStream(s, step, x);
      } else {
        NewStreamOk(s, x, step.table.key);
      }
    }
  }

  lemma {:induction false} InvAlways(steps: seq<Step>)
    ensures Inv(After(steps))
  {
    if steps != [] {
      var front := steps[..|steps| - 1];
      InvAlways(front);
      if Enabled(After(front), steps[|steps| - 1]) {
        NextKeepsInv(After(front), steps[|steps| - 1]);
      }
    }
  }

  // ---- What every run gives ----

  /** What a browser has received is, in order and without gaps, a prefix of
      the DATA payloads that arrived for its key while its stream held it. */
  lemma BrowserReceivesAPrefix(steps: seq<Step>, st: nat)
    requires st in After(steps).objs
    ensures After(steps).objs[st].received <= Arrived(After(steps).log, st)
    ensures Outgoing(After(steps).objs[st]) <= Arrived(After(steps).log, st)
  {
    InvAlways(steps);
    var s := After(steps);
    assert StreamOk(s, st);
  }

  /** The channel never holds more than its two bounds, in any interleaving,
      although the counter it is checked against is raised after the send and
      lowered after the receive. */
  lemma BufferIsBounded(steps: seq<Step>, st: nat)
    requires st in After(steps).objs
    ensures var s := After(steps);
            var o := s.objs[st];
            && |o.queue| <= 4096 && QueueBytes(o.queue) <= 8 * 1024 * 1024
            && QueueBytes(o.queue) == o.queued + Unadded(s.reader, st) - Unsubtracted(o.pump)
  {
    InvAlways(steps);
    assert StreamOk(After(steps), st);
  }

  /** Kill against register. Once the kill has swept, a stream for which some
      write passed the dead check is finished, or was taken out of the table by
      someone about to finish it, or is on the kill's own list. */
  lemma SweptStreamsFinish(steps: seq<Step>, st: nat)
    requires var s := After(steps); s.kill.Swept? && st in s.objs && s.objs[st].passed
    ensures var s := After(steps); s.objs[st].done || AboutToFinish(s, st)
  {
    InvAlways(steps);
    assert StreamOk(After(steps), st);
  }

  /** A stream registered after the sweep never writes a frame. */
  lemma LateStreamNeverWrites(steps: seq<Step>, st: nat)
    requires st in After(steps).objs && After(steps).objs[st].late
    ensures !After(steps).objs[st].passed && !After(steps).objs[st].wrote
  {
    InvAlways(steps);
    assert StreamOk(After(steps), st);
  }

  /** The steps that take stream `st` out of the table. */
  ghost predicate Evicts(s: State, step: Step, st: nat)
  {
    && Enabled(s, step)
    && (|| step == AtTable(st, Unregister)
        || (step == ByReader(Remove) && s.reader == Closing(st))
        || step == ByKill(Sweep))
  }

  lemma EvictionStep(s: State, step: Step, key: Key, st: nat)
    requires Enabled(s, step) && Holder(s.streams, key) == Some(st)
    requires Holder(Next(s, step).streams, key) != Some(st)
    ensures Evicts(s, step, st)
  {
  }

  /** In every run, between holding its key and not holding it a stream was
      unregistered in its own name, by its server or by the reader, or swept: a
      late unregister by an older stream with the same key never evicts it. */
  lemma {:induction false} OnlyItsOwnUnregisterEvicts(steps: seq<Step>, i: nat, key: Key, st: nat) returns (k: nat)
    requires i <= |steps| && Holder(After(steps[..i]).streams, key) == Some(st)
    requires Holder(After(steps).streams, key) != Some(st)
    ensures i <= k < |steps| && Evicts(After(steps[..k]), steps[k], st)
  {
    assert steps[..|steps|] == steps;
    var n := |steps| - 1;
    if Holder(After(steps[..n]).streams, key) == Some(st) {
      k := n;
      EvictionStep(After(steps[..n]), steps[n], key, st);
    } else {
      assert steps[..n][..i] == steps[..i];
      k := OnlyItsOwnUnregisterEvicts(steps[..n], i, key, st);
      assert steps[..n][..k] == steps[..k];
    }
  }

  function AfterReading(s: State, rs: seq<ReaderStep>): State
    decreases |rs|
  {
    if rs == [] then s
    else if ReaderEnabled(s, rs[0]) then AfterReading(AfterReader(s, rs[0]), rs[1..])
    else AfterReading(s, rs[1..])
  }

  /** The step is a frame for `key`. */
  predicate ForKey(step: ReaderStep, key: Key)
  {
    (step.RecvData? || step.RecvClose?) && step.key == key
  }

  ghost predicate Untouched(s: State, t: State, x: nat)
    requires x in s.objs
  {
    x in t.objs && t.objs[x] == s.objs[x] && InTable(t, x) == InTable(s, x)
  }

  lemma ReaderLeavesOthers(s: State, step: ReaderStep, x: nat)
    requires Shape(s) && ReaderEnabled(s, step) && x in s.objs && !ForKey(step, s.objs[x].key)
    requires s.reader.Idle? || s.reader.st != x
    ensures var t := AfterReader(s, step);
            Untouched(s, t, x) && (t.reader.Idle? || t.reader.st != x)
  {
  }

  /** However much the reader does for other keys, overflows and closes
      included, a stream's record, queue and table entry stay as they were. */
  lemma {:induction false} ReaderLeavesOtherStreams(s: State, rs: seq<ReaderStep>, x: nat)
    requires Shape(s) && x in s.objs && (s.reader.Idle? || s.reader.st != x)
    requires forall k :: 0 <= k < |rs| ==> !ForKey(rs[k], s.objs[x].key)
    ensures Untouched(s, AfterReading(s, rs), x)
    decreases |rs|
  {
    if rs != [] {
      var t := s;
      if ReaderEnabled(s, rs[0]) {
        ReaderLeavesOthers(s, rs[0], x);
        ReaderKeepsShape(s, rs[0]);
        t := AfterReader(s, rs[0]);
      }
      ReaderLeavesOtherStreams(t, rs[1..], x);
    }
  }

  /** From every reachable state. */
  lemma ReaderTouchesOneStream(steps: seq<Step>, rs: seq<ReaderStep>, x: nat)
    requires var s := After(steps); x in s.objs && (s.reader.Idle? || s.reader.st != x)
    requires forall k :: 0 <= k < |rs| ==> !ForKey(rs[k], After(steps).objs[x].key)
    ensures Untouched(After(steps), AfterReading(After(steps), rs), x)
  {
    assert Shape(After(steps)) by { InvAlways(steps); }
    ReaderLeavesOtherStreams(After(steps), rs, x);
  }

  // ---- The counter can run below zero ----

  /** Exactly when: the reader has sent a payload and not yet added it, and what
      is queued or taken and not yet subtracted is less than that payload. */
  lemma CounterNegativeIffSendUncounted(steps: seq<Step>, st: nat)
    requires st in After(steps).objs
    ensures var s := After(steps);
            var o := s.objs[st];
            o.queued < 0 <==> && s.reader.Sent? && s.reader.st == st
                              && QueueBytes(o.queue) + Unsubtracted(o.pump) < s.reader.n
  {
    InvAlways(steps);
    assert StreamOk(After(steps), st);
  }

  lemma Extend(steps: seq<Step>, step: Step) returns (more: seq<Step>)
    requires Enabled(After(steps), step)
    ensures After(more) == Next(After(steps), step)
  {
    more := steps + [step];
    assert more[..|more| - 1] == steps;
  }

  const K0: Key := Key([], 0)

  const SERVED: Stream := Stream(K0, Serving, CutIdle, Ready, [], 0, false, [], [], true, true, false)

  lemma ServedStream() returns (steps: seq<Step>)
    ensures After(steps) == State(Alive, map[K0 := 0], map[0 := SERVED], Idle, [])
  {
    steps := Extend([], AtTable(0, Create(K0)));
    steps := Extend(steps, AtTable(0, Register));
    steps := Extend(steps, Own(0, BeginWrite));
    steps := Extend(steps, Own(0, EndWrite(true)));
    steps := Extend(steps, Own(0, PumpStart));
  }

  /** The pump can take and subtract a payload the reader has sent and not yet
      added: the counter is then negative by that payload. */
  lemma CounterCanRunNegative(p: Payload)
    requires |p.data| <= QUEUE_BYTES
    ensures exists steps :: 0 in After(steps).objs && After(steps).objs[0].queued == -|p.data|
  {
    var steps := ServedStream();
    steps := Extend(steps, ByReader(RecvData(K0, p)));
    steps := Extend(steps, ByReader(Load));
    steps := Extend(steps, ByReader(Send));
    assert After(steps).objs[0].queue == [p];
    steps := Extend(steps, Own(0, PumpTake));
    steps := Extend(steps, Own(0, PumpCount));
    assert After(steps).objs[0].queued == -|p.data|;
  }
}
