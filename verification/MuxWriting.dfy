/** What the shared writer gets done: every frame accepted is written, waiting,
    in hand or lost to a broken connection, a dead connection accepts none, and
    any frames can be written, cut anywhere. */
module MuxWriting {
  import opened Bytes
  import opened Text
  import opened MuxCodec
  import opened MuxWire

  lemma Extend(steps: seq<Step>, step: Step) returns (more: seq<Step>)
    requires Enabled(After(steps), step)
    ensures After(more) == Next(After(steps), step)
  {
    more := steps + [step];
    assert more[..|more| - 1] == steps;
  }

  // ---- Conservation ----

  /** The frames whose callers found the connection alive. */
  function Accepted(steps: seq<Step>): multiset<Frame>
  {
    if steps == [] then multiset{}
    else
      var front, step := steps[..|steps| - 1], steps[|steps| - 1];
      Accepted(front) + if step.Check? && Enabled(After(front), step) then multiset{step.frame} else multiset{}
  }

  /** Written, waiting for the lock, or being written. */
  function OnTheWay(w: Wire): multiset<Frame>
  {
    multiset(w.order) + w.waiting + if w.holder.Some? then multiset{w.holder.value.frame} else multiset{}
  }

  lemma StepConserves(w: Wire, step: Step)
    requires Enabled(w, step)
    ensures var now := OnTheWay(w) + if step.Check? then multiset{step.frame} else multiset{};
            && OnTheWay(Next(w, step)) <= now
            && (Next(w, step).failed.None? && (step.Acquire? ==> w.failed.None?) ==> OnTheWay(Next(w, step)) == now)
  {
    if step.Flush? {
      assert multiset(w.order + [w.holder.value.frame]) == multiset(w.order) + multiset{w.holder.value.frame};
    }
  }

  /** In every run: no frame is written that was not accepted, none more often
      than accepted, and while nothing has failed each accepted frame is written,
      waiting or in hand. */
  lemma {:induction false} FramesAreConserved(steps: seq<Step>)
    ensures OnTheWay(After(steps)) <= Accepted(steps)
    ensures After(steps).failed.None? ==> OnTheWay(After(steps)) == Accepted(steps)
  {
    if steps != [] {
      var front, step := steps[..|steps| - 1], steps[|steps| - 1];
      FramesAreConserved(front);
      if Enabled(After(front), step) {
        StepConserves(After(front), step);
        FailureLasts(After(front), step);
      }
    }
  }

  lemma FailureLasts(w: Wire, step: Step)
    requires Enabled(w, step)
    ensures w.failed.Some? ==> Next(w, step).failed.Some?
    ensures w.dead || step.Die? ==> Next(w, step).dead
    ensures !w.dead && !step.Die? ==> !Next(w, step).dead
  {
  }

  /** Once a connection is dead no further frame is accepted: whatever is still
      written was accepted before. */
  lemma {:induction false} DeadAcceptsNothing(steps: seq<Step>, more: seq<Step>)
    requires After(steps).dead || (more != [] && more[0].Die?)
    ensures Accepted(steps + more) == Accepted(steps)
    ensures more != [] || After(steps).dead ==> After(steps + more).dead
  {
    if more == [] {
      assert steps + more == steps;
    } else {
      var n := |more| - 1;
      assert (steps + more)[..|steps + more| - 1] == steps + more[..n];
      var w := After(steps + more[..n]);
      if n == 0 {
        assert steps + more[..n] == steps;
      } else {
        DeadAcceptsNothing(steps, more[..n]);
      }
      if Enabled(w, more[n]) {
        FailureLasts(w, more[n]);
      }
    }
  }

  /** A writer that has failed writes no more frames. */
  lemma BrokenWritesNothing(w: Wire, step: Step)
    requires Inv(w) && w.failed.Some? && Enabled(w, step)
    ensures Next(w, step).order == w.order && Next(w, step).out == w.out
  {
  }

  // ---- Any frames can be written ----

  /** The writer at rest with these frames sent. */
  function Rest(fs: seq<Frame>): Wire
  {
    IDLE.(out := EncodeFrames(fs), order := fs)
  }

  /** With `n` pieces of the frame in the buffer. */
  function Midway(fs: seq<Frame>, f: Frame, n: nat): Wire
    requires n <= 4
  {
    Rest(fs).(holder := Some(Writing(f, n)), buffered := Begun(f, n))
  }

  lemma {:induction false} PiecesRun(steps: seq<Step>, fs: seq<Frame>, f: Frame, n: nat) returns (more: seq<Step>)
    requires n <= 4 && After(steps) == Midway(fs, f, n)
    ensures After(more) == Midway(fs, f, 4)
    decreases 4 - n
  {
    if n == 4 {
      more := steps;
    } else {
      BegunStep(f, n);
      more := Extend(steps, WritePart);
      more := PiecesRun(more, fs, f, n + 1);
    }
  }

  lemma BegunRun(steps: seq<Step>, fs: seq<Frame>, f: Frame) returns (more: seq<Step>)
    requires Fits(f) && After(steps) == Rest(fs)
    ensures After(more) == Midway(fs, f, 4)
  {
    more := Extend(steps, Check(f));
    more := Extend(more, Acquire(f));
    assert Begun(f, 0) == [];
    more := PiecesRun(more, fs, f, 0);
  }

  /** Every sequence of fitting frames can be written, in that order. */
  lemma {:induction false} WrittenRun(fs: seq<Frame>) returns (steps: seq<Step>)
    requires forall i :: 0 <= i < |fs| ==> Fits(fs[i])
    ensures After(steps) == Rest(fs)
  {
    if fs == [] {
      steps := [];
    } else {
      var n := |fs| - 1;
      var f := fs[n];
      steps := WrittenRun(fs[..n]);
      steps := BegunRun(steps, fs[..n], f);
      BegunAll(f);
      EncodeFramesAppend(fs[..n], f);
      assert fs[..n] + [f] == fs;
      steps := Extend(steps, Flush);
    }
  }

  /** And the enclave can see it stop at any octet of the next. */
  lemma CutAnywhere(fs: seq<Frame>, f: Frame, k: nat) returns (steps: seq<Step>)
    requires (forall i :: 0 <= i < |fs| ==> Fits(fs[i])) && Fits(f) && k <= |EncodeFrame(f)|
    ensures After(steps).order == fs && After(steps).out == EncodeFrames(fs) + EncodeFrame(f)[..k]
  {
    steps := WrittenRun(fs);
    steps := BegunRun(steps, fs, f);
    BegunAll(f);
    steps := Extend(steps, Spill(k));
  }
}
