/** The shared writer of a mux connection: callers check that the connection is
    alive, take the write lock, hand a frame to the buffered writer in four
    pieces and flush. The buffer may spill at any time and a write may fail at
    any point. Every interleaving of callers is a run. */
module MuxWire {
  import opened Bytes
  import opened Text
  import opened MuxCodec

  datatype Writing = Writing(frame: Frame, parts: nat)

  /** `waiting` are the frames of callers past the alive check and not yet at
      the lock; `order` the frames flushed, in lock order; `failed` the frame
      whose write broke the writer, after which it accepts nothing. */
  datatype Wire = Wire(
    dead: bool,
    waiting: multiset<Frame>,
    holder: Option<Writing>,
    buffered: bytes,
    out: bytes,
    order: seq<Frame>,
    failed: Option<Frame>)

  const IDLE: Wire := Wire(false, multiset{}, None, [], [], [], None)

  datatype Step =
    | Check(frame: Frame)
    | Die
    | Acquire(frame: Frame)
    | WritePart
    | Spill(n: nat)
    | Flush
    | Fail

  predicate Enabled(w: Wire, step: Step)
  {
    match step
    case Check(f) => !w.dead && Fits(f)
    case Die => true
    case Acquire(f) => f in w.waiting && w.holder.None?
    case WritePart => w.holder.Some? && w.holder.value.parts < 4
    case Spill(n) => w.holder.Some? && n <= |w.buffered|
    case Flush => w.holder.Some? && w.holder.value.parts == 4
    case Fail => w.holder.Some?
  }

  function Next(w: Wire, step: Step): Wire
    requires Enabled(w, step)
  {
    match step
    case Check(f) => w.(waiting := w.waiting + multiset{f})
    case Die => w.(dead := true)
    case Acquire(f) =>
      w.(waiting := w.waiting - multiset{f},
         holder := if w.failed.None? then Some(Writing(f, 0)) else None)
    case WritePart =>
      var h := w.holder.value;
      w.(buffered := w.buffered + Parts(h.frame)[h.parts], holder := Some(h.(parts := h.parts + 1)))
    case Spill(n) => w.(out := w.out + w.buffered[..n], buffered := w.buffered[n..])
    case Flush =>
      w.(out := w.out + w.buffered, buffered := [], holder := None, order := w.order + [w.holder.value.frame])
    case Fail => w.(holder := None, failed := Some(w.holder.value.frame))
  }

  function After(steps: seq<Step>): Wire
  {
    if steps == [] then IDLE
    else
      var w := After(steps[..|steps| - 1]);
      if Enabled(w, steps[|steps| - 1]) then Next(w, steps[|steps| - 1]) else w
  }

  /** The first `n` pieces of a frame. */
  function Begun(f: Frame, n: nat): bytes
    requires n <= 4
  {
    Concat(Parts(f)[..n])
  }

  lemma BegunStep(f: Frame, n: nat)
    requires n < 4
    ensures Begun(f, n + 1) == Begun(f, n) + Parts(f)[n]
  {
    assert Parts(f)[..n + 1] == Parts(f)[..n] + [Parts(f)[n]];
    ConcatAppend(Parts(f)[..n], Parts(f)[n]);
  }

  lemma BegunAll(f: Frame)
    ensures Begun(f, 4) == EncodeFrame(f)
  {
    BegunStep(f, 0);
    BegunStep(f, 1);
    BegunStep(f, 2);
    BegunStep(f, 3);
    assert Begun(f, 0) == [];
  }

  lemma {:induction false} BegunIsPrefix(f: Frame, n: nat)
    requires n <= 4
    ensures Begun(f, n) <= EncodeFrame(f)
    decreases 4 - n
  {
    if n == 4 {
      BegunAll(f);
    } else {
      BegunIsPrefix(f, n + 1);
      BegunStep(f, n);
    }
  }

  /** The frame some caller has begun and not finished, if any. */
  function Current(w: Wire): Option<Frame>
  {
    if w.holder.Some? then Some(w.holder.value.frame) else w.failed
  }

  ghost predicate Inv(w: Wire)
  {
    && (forall f :: f in w.waiting ==> Fits(f))
    && (forall i :: 0 <= i < |w.order| ==> Fits(w.order[i]))
    && (Current(w).Some? ==> Fits(Current(w).value))
    && (w.holder.Some? ==>
          && w.failed.None? && w.holder.value.parts <= 4
          && EncodeFrames(w.order) <= w.out
          && w.out + w.buffered == EncodeFrames(w.order) + Begun(w.holder.value.frame, w.holder.value.parts))
    && (w.holder.None? && w.failed.None? ==> w.buffered == [] && w.out == EncodeFrames(w.order))
    && (w.failed.Some? ==>
          EncodeFrames(w.order) <= w.out <= EncodeFrames(w.order) + EncodeFrame(w.failed.value))
  }

  lemma WritePartKeeps(w: Wire)
    requires Inv(w) && Enabled(w, WritePart)
    ensures Inv(Next(w, WritePart))
  {
    var h := w.holder.value;
    var part, done := Parts(h.frame)[h.parts], EncodeFrames(w.order);
    BegunStep(h.frame, h.parts);
    Associate(w.out, w.buffered, part);
    Associate(done, Begun(h.frame, h.parts), part);
  }

  lemma SpillKeeps(w: Wire, n: nat)
    requires Inv(w) && Enabled(w, Spill(n))
    ensures Inv(Next(w, Spill(n)))
  {
    Associate(w.out, w.buffered[..n], w.buffered[n..]);
    assert w.buffered[..n] + w.buffered[n..] == w.buffered;
  }

  lemma FlushKeeps(w: Wire)
    requires Inv(w) && Enabled(w, Flush)
    ensures Inv(Next(w, Flush))
  {
    BegunAll(w.holder.value.frame);
    EncodeFramesAppend(w.order, w.holder.value.frame);
  }

  /** What was buffered stays buffered for good when a write fails. */
  lemma FailKeeps(w: Wire)
    requires Inv(w) && Enabled(w, Fail)
    ensures Inv(Next(w, Fail))
  {
    var h, done := w.holder.value, EncodeFrames(w.order);
    BegunIsPrefix(h.frame, h.parts);
    assert w.out <= done + Begun(h.frame, h.parts);
    assert done + Begun(h.frame, h.parts) <= done + EncodeFrame(h.frame);
  }

  lemma NextKeepsInv(w: Wire, step: Step)
    requires Inv(w) && Enabled(w, step)
    ensures Inv(Next(w, step))
  {
    match step
    case WritePart => WritePartKeeps(w);
    case Spill(n) => SpillKeeps(w, n);
    case Flush => FlushKeeps(w);
    case Fail => FailKeeps(w);
    case Acquire(f) => assert Begun(f, 0) == [];
    case Check(_) =>
    case Die =>
  }

  lemma {:induction false} InvAlways(steps: seq<Step>)
    ensures Inv(After(steps))
  {
    if steps != [] {
      InvAlways(steps[..|steps| - 1]);
      var w := After(steps[..|steps| - 1]);
      if Enabled(w, steps[|steps| - 1]) {
        NextKeepsInv(w, steps[|steps| - 1]);
      }
    }
  }

  lemma OutIsFramesAndAPiece(w: Wire) returns (piece: bytes)
    requires Inv(w)
    ensures w.out == EncodeFrames(w.order) + piece
    ensures piece == [] || (Current(w).Some? && piece <= EncodeFrame(Current(w).value))
  {
    var done := EncodeFrames(w.order);
    piece := w.out[|done|..];
    if w.holder.Some? {
      var begun := Begun(w.holder.value.frame, w.holder.value.parts);
      BegunIsPrefix(w.holder.value.frame, w.holder.value.parts);
      assert piece + w.buffered == (w.out + w.buffered)[|done|..] == begun;
    } else if w.failed.Some? {
      assert (done + EncodeFrame(w.failed.value))[|done|..] == EncodeFrame(w.failed.value);
    }
  }

  /** At every moment of every run the enclave, reading frame after frame,
      decodes exactly the frames flushed so far in lock order, and at most the
      one being written besides: callers never interleave inside a frame. */
  lemma WireDecodesToWrittenFrames(steps: seq<Step>)
    ensures var w := After(steps);
            || DecodeFrames(w.out) == w.order
            || (Current(w).Some? && DecodeFrames(w.out) == w.order + [Current(w).value])
    ensures var w := After(steps);
            w.holder.None? && w.failed.None? ==> DecodeFrames(w.out) == w.order
  {
    InvAlways(steps);
    var w := After(steps);
    var piece := OutIsFramesAndAPiece(w);
    if piece != [] && piece == EncodeFrame(Current(w).value) {
      var fs := w.order + [Current(w).value];
      EncodeFramesAppend(w.order, Current(w).value);
      assert w.out == EncodeFrames(fs) + [];
      FramesRoundTrip(fs, []);
    } else {
      if piece != [] {
        TruncatedFrameIsShort(Current(w).value, piece);
      }
      FramesRoundTrip(w.order, piece);
    }
  }

  lemma Grouping(out: bytes, f: Frame)
    ensures out + Parts(f)[0] + Parts(f)[1] + Parts(f)[2] + Parts(f)[3] == out + EncodeFrame(f)
    ensures out + Parts(f)[0] + Parts(f)[1] + Parts(f)[2] <= out + EncodeFrame(f)
    ensures out + Parts(f)[0] + Parts(f)[1] <= out + EncodeFrame(f)
    ensures out + Parts(f)[0] <= out + EncodeFrame(f)
  {
  }

  /** writeFrame as one caller runs it while holding the lock, over a buffered
      writer that may send any part of its buffer at any time and, once a write
      has failed, refuses everything. */
  class MuxWriter {
    var dead: bool
    var broken: bool
    var buffered: bytes
    var out: bytes

    /** Between frames nothing is left in the buffer of a working writer. */
    ghost predicate Valid()
      reads this
    {
      !broken ==> buffered == []
    }

    constructor ()
      ensures Valid() && !dead && !broken && out == []
    {
      dead, broken, buffered, out := false, false, [], [];
    }

    /** What has been sent lies between `start` and `goal`; with what is still in
        the buffer it makes `sofar`. */
    ghost predicate Between(start: bytes, sofar: bytes, goal: bytes)
      reads this
    {
      start <= out <= goal && (!broken ==> out + buffered == sofar)
    }

    method Put(b: bytes, ghost start: bytes, ghost sofar: bytes, ghost goal: bytes) returns (ok: bool)
      requires Between(start, sofar, goal) && sofar + b <= goal
      modifies this`broken, this`buffered, this`out
      ensures Between(start, sofar + b, goal)
      ensures ok <==> !broken
      ensures old(broken) ==> broken && out == old(out)
    {
      if broken {
        return false;
      }
      var all := buffered + b;
      assert out + all == sofar + b;
      var n :| 0 <= n <= |all|;
      assert out + all == out + all[..n] + all[n..];
      out, buffered := out + all[..n], all[n..];
      broken := *;
      ok := !broken;
    }

    method Flush(ghost start: bytes, ghost sofar: bytes, ghost goal: bytes) returns (ok: bool)
      requires Between(start, sofar, goal) && sofar <= goal
      modifies this`broken, this`buffered, this`out
      ensures start <= out <= goal
      ensures ok <==> !broken
      ensures ok ==> buffered == [] && out == sofar
      ensures old(broken) ==> broken && out == old(out)
    {
      assert sofar + [] == sofar;
      ok := Put([], start, sofar, goal);
      if ok {
        out, buffered := out + buffered, [];
      }
    }

    /** All of the frame goes out, or the call fails: before anything was sent
        on a dead or broken connection, otherwise somewhere inside the frame,
        and then no later call sends anything. */
    method WriteFrame(f: Frame) returns (ok: bool)
      requires Valid()
      modifies this`broken, this`buffered, this`out
      ensures Valid()
      ensures ok ==> !dead && !old(broken) && !broken && out == old(out) + EncodeFrame(f)
      ensures dead || old(broken) ==> !ok && out == old(out) && broken == old(broken)
      ensures !ok && !dead ==> broken && old(out) <= out <= old(out) + EncodeFrame(f)
    {
      if dead {
        return false;
      }
      var hdr := new byte[14](_ => 0);
      hdr[0] := f.typ;
      hdr[1] := |f.sid| % 256;
      OneByte(|f.sid|);
      Fill(hdr, 2, BE(f.stream, 8));
      Fill(hdr, 10, BE(|f.payload|, 4));
      assert hdr[..2] == Parts(f)[0];
      assert hdr[2..14] == Parts(f)[2];
      ok := PutParts(f, hdr[..2], hdr[2..14]);
    }

    method PutParts(f: Frame, head: bytes, rest: bytes) returns (ok: bool)
      requires Valid() && head == Parts(f)[0] && rest == Parts(f)[2]
      modifies this`broken, this`buffered, this`out
      ensures Valid() && (ok <==> !broken)
      ensures ok ==> !old(broken) && out == old(out) + EncodeFrame(f)
      ensures old(broken) ==> out == old(out)
      ensures old(out) <= out <= old(out) + EncodeFrame(f)
    {
      if broken {
        return false;
      }
      Grouping(out, f);
      ghost var start, goal := out, out + EncodeFrame(f);
      assert out + buffered == start;
      ghost var a := start + head;
      ok := Put(head, start, start, goal);
      if !ok {
        return;
      }
      ok := Put(f.sid, start, a, goal);
      if !ok {
        return;
      }
      ok := Put(rest, start, a + f.sid, goal);
      if !ok {
        return;
      }
      ok := Put(f.payload, start, a + f.sid + rest, goal);
      if !ok {
        return;
      }
      ok := Flush(start, goal, goal);
    }
  }
}
