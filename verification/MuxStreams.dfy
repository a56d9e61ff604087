/** One mux connection and the browser streams riding it, as concurrent
    processes: each stream's serving goroutine, its pump and its quarantine
    closure, the single demux reader, and the connection's kill. Each step is
    one critical section or one channel or atomic operation. */
module MuxStreams {
  import opened Bytes
  import opened Text
  import opened MuxCodec

  const QUEUE_FRAMES := 4096
  const QUEUE_BYTES := 0x80_0000

  datatype Payload = Payload(data: bytes)

  function QueueBytes(q: seq<Payload>): nat
  {
    if q == [] then 0 else |q[0].data| + QueueBytes(q[1..])
  }

  lemma {:induction false} QueueBytesAppend(q: seq<Payload>, p: Payload)
    ensures QueueBytes(q + [p]) == QueueBytes(q) + |p.data|
  {
    if q == [] {
      assert [p][1..] == [];
    } else {
      assert (q + [p])[1..] == q[1..] + [p];
      QueueBytesAppend(q[1..], p);
    }
  }

  datatype Key = Key(sid: bytes, stream: u64)

  /** serveSealedWSMux, from before register to after its deferred unregister. */
  datatype Serve = Fresh | Rejected | Registered | Writing | Serving | Ending | Removed | Gone

  datatype Cutter = CutIdle | CutWriting | CutFinishing | CutOver

  /** The enclave-to-browser pump. `Took` has received from the channel and not
      yet lowered the counter; `Stopped` keeps what a failed write lost. */
  datatype Pump = NotStarted | Ready | Took(p: Payload) | Sending(p: Payload) | Stopped(lost: seq<Payload>)

  datatype Stream = Stream(
    key: Key,
    serve: Serve,
    cutter: Cutter,
    pump: Pump,
    queue: seq<Payload>,
    queued: int,
    done: bool,
    received: seq<Payload>,
    dropped: seq<Payload>,
    passed: bool,   // some write for this stream passed the dead check
    wrote: bool,    // some frame for this stream was written
    late: bool)     // registered after the kill swept

  /** The demux reader. `Sent` has put a payload in the channel and not yet
      raised the counter; `Dropping` has unregistered and not yet finished. */
  datatype Reader = Idle | Looked(st: nat, p: Payload) | Approved(st: nat, p: Payload) | Sent(st: nat, n: nat)
                  | Closing(st: nat) | Dropping(st: nat)

  datatype Kill = Alive | Marked | Swept(todo: set<nat>)

  /** A DATA payload read off the wire, with the stream then holding its key. */
  datatype Arrival = Arrival(holder: Option<nat>, p: Payload)

  datatype State = State(
    kill: Kill,
    streams: map<Key, nat>,
    objs: map<nat, Stream>,
    reader: Reader,
    log: seq<Arrival>)

  const START: State := State(Alive, map[], map[], Idle, [])

  /** Steps of one stream's own goroutines that touch nothing shared. `Refuse`
      is the serving goroutine finding its route quarantined after Track. */
  datatype Op =
    | BeginWrite
    | EndWrite(ok: bool)
    | Refuse
    | Finish
    | CutCheck
    | CutWrite
    | CutFinish
    | PumpStart
    | PumpTake
    | PumpCount
    | PumpWrite(ok: bool)
    | PumpStop

  datatype TableStep = Create(key: Key) | Register | Unregister

  datatype ReaderStep =
    | RecvData(key: Key, p: Payload)
    | RecvClose(key: Key)
    | Load
    | Send
    | Count
    | Remove
    | FinishRemoved

  datatype KillStep = Mark | Sweep | FinishSwept(st: nat)

  datatype Step =
    | Own(st: nat, op: Op)
    | AtTable(st: nat, table: TableStep)
    | ByReader(read: ReaderStep)
    | ByKill(kill: KillStep)

  predicate OpEnabled(o: Stream, op: Op, alive: bool)
  {
    match op
    case BeginWrite => alive && (o.serve.Registered? || o.serve.Serving?)
    case EndWrite(_) => o.serve.Writing?
    case Refuse => o.serve.Registered?
    case Finish => o.serve.Removed?
    case CutCheck => o.cutter.CutIdle? && EverRegistered(o)
    case CutWrite => o.cutter.CutWriting?
    case CutFinish => o.cutter.CutFinishing?
    case PumpStart => o.serve.Serving? && o.pump.NotStarted?
    case PumpTake => o.pump.Ready? && o.queue != []
    case PumpCount => o.pump.Took?
    case PumpWrite(_) => o.pump.Sending?
    case PumpStop => o.pump.Ready? && o.done
  }

  function AfterOp(o: Stream, op: Op, alive: bool): Stream
    requires OpEnabled(o, op, alive)
  {
    match op
    case BeginWrite => o.(serve := Writing, passed := true)
    case EndWrite(ok) => if ok then o.(serve := Serving, wrote := true) else o.(serve := Ending)
    case Refuse => o.(serve := Ending, done := true)
    case Finish => o.(serve := Gone, done := true)
    case CutCheck => if alive then o.(cutter := CutWriting, passed := true) else o.(cutter := CutFinishing)
    case CutWrite => o.(cutter := CutFinishing, wrote := true)
    case CutFinish => o.(cutter := CutOver, done := true)
    case PumpStart => o.(pump := Ready)
    case PumpTake => o.(pump := Took(o.queue[0]), queue := o.queue[1..])
    case PumpCount => o.(pump := Sending(o.pump.p), queued := o.queued - |o.pump.p.data|)
    case PumpWrite(ok) =>
      if ok then o.(pump := Ready, received := o.received + [o.pump.p])
      else o.(pump := Stopped([o.pump.p]), done := true)
    case PumpStop => o.(pump := Stopped([]))
  }

  /** The delete in unregister: only if the key still leads to this stream. */
  function Without<V(==)>(streams: map<Key, V>, key: Key, st: V): map<Key, V>
  {
    if key in streams && streams[key] == st then streams - {key} else streams
  }

  function Holder(streams: map<Key, nat>, key: Key): Option<nat>
  {
    if key in streams then Some(streams[key]) else None
  }

  function Put(s: State, st: nat, o: Stream): State
  {
    s.(objs := s.objs[st := o])
  }

  predicate TableEnabled(s: State, st: nat, step: TableStep)
  {
    match step
    case Create(_) => st !in s.objs
    case Register => st in s.objs && s.objs[st].serve.Fresh?
    case Unregister =>
      st in s.objs && (s.objs[st].serve.Registered? || s.objs[st].serve.Serving? || s.objs[st].serve.Ending?)
  }

  function AfterTable(s: State, st: nat, step: TableStep): State
    requires TableEnabled(s, st, step)
  {
    match step
    case Create(key) =>
      Put(s, st, Stream(key, Fresh, CutIdle, NotStarted, [], 0, false, [], [], false, false, false))
    case Register =>
      var o := s.objs[st];
      if o.key in s.streams then Put(s, st, o.(serve := Rejected))
      else Put(s, st, o.(serve := Registered, late := s.kill.Swept?)).(streams := s.streams[o.key := st])
    case Unregister =>
      Put(s, st, s.objs[st].(serve := Removed)).(streams := Without(s.streams, s.objs[st].key, st))
  }

  predicate ReaderEnabled(s: State, step: ReaderStep)
  {
    (!s.reader.Idle? ==> s.reader.st in s.objs) &&
    match step
    case RecvData(_, _) => s.reader.Idle?
    case RecvClose(_) => s.reader.Idle?
    case Load => s.reader.Looked?
    case Send => s.reader.Approved?
    case Count => s.reader.Sent?
    case Remove => s.reader.Closing?
    case FinishRemoved => s.reader.Dropping?
  }

  /** The reader gives up on a payload and starts closing its stream. */
  function Drop(s: State): State
    requires (s.reader.Looked? || s.reader.Approved?) && s.reader.st in s.objs
  {
    var st := s.reader.st;
    Put(s, st, s.objs[st].(dropped := [s.reader.p])).(reader := Closing(st))
  }

  function AfterReader(s: State, step: ReaderStep): State
    requires ReaderEnabled(s, step)
  {
    match step
    case RecvData(key, p) =>
      var h := Holder(s.streams, key);
      s.(log := s.log + [Arrival(h, p)], reader := if h.Some? then Looked(h.value, p) else Idle)
    case RecvClose(key) =>
      var h := Holder(s.streams, key);
      s.(reader := if h.Some? then Closing(h.value) else Idle)
    case Load =>
      var st, p := s.reader.st, s.reader.p;
      if s.objs[st].queued + |p.data| > QUEUE_BYTES then Drop(s) else s.(reader := Approved(st, p))
    case Send =>
      var st, p := s.reader.st, s.reader.p;
      if |s.objs[st].queue| >= QUEUE_FRAMES then Drop(s)
      else Put(s, st, s.objs[st].(queue := s.objs[st].queue + [p])).(reader := Sent(st, |p.data|))
    case Count =>
      var st := s.reader.st;
      Put(s, st, s.objs[st].(queued := s.objs[st].queued + s.reader.n)).(reader := Idle)
    case Remove =>
      var st := s.reader.st;
      s.(reader := Dropping(st), streams := Without(s.streams, s.objs[st].key, st))
    case FinishRemoved =>
      var st := s.reader.st;
      Put(s, st, s.objs[st].(done := true)).(reader := Idle)
  }

  predicate KillEnabled(s: State, step: KillStep)
  {
    match step
    case Mark => s.kill.Alive?
    case Sweep => s.kill.Marked?
    case FinishSwept(st) => s.kill.Swept? && st in s.kill.todo && st in s.objs
  }

  function AfterKill(s: State, step: KillStep): State
    requires KillEnabled(s, step)
  {
    match step
    case Mark => s.(kill := Marked)
    case Sweep => s.(kill := Swept(s.streams.Values), streams := map[])
    case FinishSwept(st) => Put(s, st, s.objs[st].(done := true)).(kill := Swept(s.kill.todo - {st}))
  }

  predicate Enabled(s: State, step: Step)
  {
    match step
    case Own(st, op) => st in s.objs && OpEnabled(s.objs[st], op, s.kill.Alive?)
    case AtTable(st, t) => TableEnabled(s, st, t)
    case ByReader(r) => ReaderEnabled(s, r)
    case ByKill(k) => KillEnabled(s, k)
  }

  function Next(s: State, step: Step): State
    requires Enabled(s, step)
  {
    match step
    case Own(st, op) => Put(s, st, AfterOp(s.objs[st], op, s.kill.Alive?))
    case AtTable(st, t) => AfterTable(s, st, t)
    case ByReader(r) => AfterReader(s, r)
    case ByKill(k) => AfterKill(s, k)
  }

  function After(steps: seq<Step>): State
  {
    if steps == [] then START
    else
      var s := After(steps[..|steps| - 1]);
      if Enabled(s, steps[|steps| - 1]) then Next(s, steps[|steps| - 1]) else s
  }

  // ---- Reference: what arrived for a stream while it held its key ----

  function Arrived(log: seq<Arrival>, st: nat): seq<Payload>
  {
    if log == [] then []
    else
      var last := log[|log| - 1];
      Arrived(log[..|log| - 1], st) + if last.holder == Some(st) then [last.p] else []
  }

  lemma ArrivedAppend(log: seq<Arrival>, a: Arrival, st: nat)
    ensures Arrived(log + [a], st) == Arrived(log, st) + if a.holder == Some(st) then [a.p] else []
  {
    assert (log + [a])[..|log + [a]| - 1] == log;
  }

  // ---- The invariant ----

  function PumpHeld(pump: Pump): seq<Payload>
  {
    match pump
    case NotStarted => []
    case Ready => []
    case Took(p) => [p]
    case Sending(p) => [p]
    case Stopped(lost) => lost
  }

  /** Delivered to the browser, held by the pump, waiting in the channel. */
  function Outgoing(o: Stream): seq<Payload>
  {
    o.received + PumpHeld(o.pump) + o.queue
  }

  function InHand(r: Reader, st: nat): seq<Payload>
  {
    if (r.Looked? || r.Approved?) && r.st == st then [r.p] else []
  }

  /** Sent by the reader and not yet added to the counter. */
  function Unadded(r: Reader, st: nat): nat
  {
    if r.Sent? && r.st == st then r.n else 0
  }

  /** Received by the pump and not yet subtracted from the counter. */
  function Unsubtracted(pump: Pump): nat
  {
    if pump.Took? then |pump.p.data| else 0
  }

  predicate EverRegistered(o: Stream) { !o.serve.Fresh? && !o.serve.Rejected? }

  predicate InTable(s: State, st: nat)
    requires st in s.objs
  {
    s.objs[st].key in s.streams && s.streams[s.objs[st].key] == st
  }

  /** Someone has taken the stream out of the table and will finish it next. */
  ghost predicate AboutToFinish(s: State, st: nat)
    requires st in s.objs
  {
    || s.objs[st].serve.Removed?
    || s.reader == Dropping(st)
    || (s.kill.Swept? && st in s.kill.todo)
  }

  /** Nothing that arrived is lost, repeated or reordered on the way out. */
  ghost predicate DeliveryOk(s: State, st: nat)
    requires st in s.objs
  {
    var o := s.objs[st];
    && Arrived(s.log, st) == Outgoing(o) + (InHand(s.reader, st) + o.dropped)
    && (o.dropped != [] ==> s.reader == Closing(st) || !InTable(s, st))
    && (InHand(s.reader, st) != [] ==> o.dropped == [])
    && (o.serve.Fresh? ==> o.dropped == [])
  }

  /** The counter lags the channel by what is in transit on either side. */
  ghost predicate QueueOk(s: State, st: nat)
    requires st in s.objs
  {
    var o := s.objs[st];
    && QueueBytes(o.queue) == o.queued + Unadded(s.reader, st) - Unsubtracted(o.pump)
    && |o.queue| <= QUEUE_FRAMES
    && QueueBytes(o.queue) + (if s.reader.Approved? && s.reader.st == st then |s.reader.p.data| else 0) <= QUEUE_BYTES
  }

  /** A registered stream is in the table, or finished, or about to be; after
      the sweep nothing in the table has ever passed the dead check. */
  ghost predicate LifeOk(s: State, st: nat)
    requires st in s.objs
  {
    var o := s.objs[st];
    && (EverRegistered(o) ==> InTable(s, st) || o.done || AboutToFinish(s, st))
    && (InTable(s, st) ==> EverRegistered(o) && !o.serve.Removed? && !o.serve.Gone?)
    && (s.kill.Swept? && InTable(s, st) ==> !o.passed)
    && (o.late ==> s.kill.Swept? && !o.passed)
    && (o.wrote || o.serve.Writing? || o.cutter.CutWriting? ==> o.passed)
    && (o.passed || !o.cutter.CutIdle? ==> EverRegistered(o))
  }

  /** References between the parts of the state lead somewhere. */
  ghost predicate Shape(s: State)
  {
    && (forall k :: k in s.streams ==>
          s.streams[k] in s.objs && s.objs[s.streams[k]].key == k && EverRegistered(s.objs[s.streams[k]]))
    && (!s.reader.Idle? ==> s.reader.st in s.objs && EverRegistered(s.objs[s.reader.st]))
    && (s.kill.Swept? ==> forall st :: st in s.kill.todo ==> st in s.objs)
    && (forall i :: 0 <= i < |s.log| && s.log[i].holder.Some? ==> s.log[i].holder.value in s.objs)
  }

  ghost predicate StreamOk(s: State, st: nat)
    requires st in s.objs
  {
    DeliveryOk(s, st) && QueueOk(s, st) && LifeOk(s, st)
  }

  ghost predicate Inv(s: State)
  {
    Shape(s) && forall st :: st in s.objs ==> StreamOk(s, st)
  }
}
