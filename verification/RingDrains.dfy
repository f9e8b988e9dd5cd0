/** Calls on the ring that run alone return, and such a flush drains the ring into the files. */
module RingDrains {
  import opened LogFiles
  import opened RingCalls
  import opened RingProtocol
  import opened RingRefinesLogger
  import opened Streams
  import opened Wrappers
  import L = LoggerModel

  // A flush that runs alone.

  function Runs(t: nat, k: nat): seq<Event> {
    seq(k, i => Run(t))
  }

  lemma RunsUnroll(t: nat, k: nat)
    requires k > 0
    ensures Runs(t, k) == [Run(t)] + Runs(t, k - 1)
  {
  }

  lemma {:induction false} RunsAreSeparate(s: State, t: nat, k: nat)
    requires Consistent(s)
    ensures OneAtATime(s, Runs(t, k)) && Calls(s, Runs(t, k)) == []
    decreases k
  {
    hide Consistent, Step, Quiet;
    if k > 0 {
      RunsUnroll(t, k);
      StepKeepsConsistency(s, Run(t));
      assert Runs(t, k)[1..] == Runs(t, k - 1);
      RunsAreSeparate(Step(s, Run(t)), t, k - 1);
    }
  }

  lemma {:induction false} FlushIsSeparate(s: State, t: nat, k: nat)
    requires Consistent(s) && Quiet(s)
    ensures OneAtATime(s, [FlushAll(t)] + Runs(t, k)) && Calls(s, [FlushAll(t)] + Runs(t, k)) == [L.FlushEvent]
  {
    assert At(s, t) == Idle;
    hide Consistent, Step;
    StepKeepsConsistency(s, FlushAll(t));
    assert ([FlushAll(t)] + Runs(t, k))[1..] == Runs(t, k);
    RunsAreSeparate(Step(s, FlushAll(t)), t, k);
  }

  lemma QuietRingIsClean(s: State, u: nat)
    requires Consistent(s) && Solo(s, u) && Quiet(s) && forall i :: 0 <= i < |s.slots| ==> View(s).slots[i].None?
    ensures forall i :: 0 <= i < |s.slots| ==> s.slots[i].status == CLEAN
  {
    assert At(s, u) == Idle;
    forall i | 0 <= i < |s.slots| ensures s.slots[i].status == CLEAN {
      SoloFinds(s, u, i);
      SlotOfView(s, i);
    }
  }

  lemma {:induction false} FlushedLogger(s: State, u: nat, t: nat, k: nat) returns (v: nat)
    requires OnItsWay(s, u) && Quiet(s) && L.Sound(View(s))
    requires Quiet(Exec(s, [FlushAll(t)] + Runs(t, k)))
    ensures OnItsWay(Exec(s, [FlushAll(t)] + Runs(t, k)), v)
    ensures View(Exec(s, [FlushAll(t)] + Runs(t, k))) == L.FlushAll(View(s))
  {
    hide Consistent, Solo, Behind, Quiet, Fits, Exec, L.Sound, Future, View, Runs, L.Flush;
    AlwaysFits(s, u);
    FlushIsSeparate(s, t, k);
    QuietFuture(s, u);
    v := RunRefines(s, u, [FlushAll(t)] + Runs(t, k), L.Started(View(s)));
    QuietFuture(Exec(s, [FlushAll(t)] + Runs(t, k)), v);
    OneFlush(L.Started(View(s)));
  }

  lemma {:induction false} OneFlush(r: L.Run)
    requires L.Sound(r.log)
    ensures L.Exec(r, [L.FlushEvent]).log == L.FlushAll(r.log)
  {
    L.StepKeepsSound(r, L.FlushEvent);
    hide L.Sound, L.FlushAll;
    assert [L.FlushEvent][1..] == [];
  }

  /** A flush that runs alone, after calls that do not overlap, drains the ring: when it has returned
      every slot is clean, and the files hold exactly the written messages, each whole and once, in
      the order of the calls that put them. */
  lemma {:induction false} FlushDrains(n: nat, limit: nat, events: seq<Event>, t: nat, k: nat)
    requires n > 0 && OneAtATime(Init(n, limit), events) && Quiet(Exec(Init(n, limit), events))
    requires Quiet(Exec(Exec(Init(n, limit), events), [FlushAll(t)] + Runs(t, k)))
    ensures var s := Exec(Exec(Init(n, limit), events), [FlushAll(t)] + Runs(t, k));
      && (forall i :: 0 <= i < |s.slots| ==> s.slots[i].status == CLEAN)
      && s.written == multiset(s.emitted) && Flatten(s.files) == Flatten(s.emitted)
      && Flatten(s.files) == Flatten(Submitted(Init(n, limit), events))
  {
    hide OneAtATime, Consistent, Solo, Behind, Quiet, Exec, Calls, L.Exec, View, Runs, Counted, Framed, Submitted,
         Flatten, L.Stream, L.Flush, Waits;
    NothingYet(n, limit);
    InitHolds(n, limit);
    var u := QuietRuns(n, limit, events);
    var before := Exec(Init(n, limit), events);
    var s := Exec(before, [FlushAll(t)] + Runs(t, k));
    var v := FlushedLogger(before, u, t, k);
    ExecKeepsAll(Init(n, limit), events);
    ExecKeepsAll(before, [FlushAll(t)] + Runs(t, k));
    FilesHoldCallsInOrder(n, limit, events);
    AlwaysFits(before, u);
    AlwaysFits(s, v);
    FlushedIsClean(before, s);
    QuietRingIsClean(s, v);
    DrainedState(s);
  }

  /** After a flush nothing waits, and all that waited is in the files. */
  lemma FlushedIsClean(before: State, s: State)
    requires |before.files| > 0 && before.cursor < |before.slots| && L.Sound(View(before))
    requires |s.files| > 0 && View(s) == L.FlushAll(View(before))
    ensures forall i :: 0 <= i < |s.slots| ==> View(s).slots[i].None?
    ensures Flatten(s.files) == Flatten(before.files) + Waits(before)
  {
    hide View, Flatten, L.Dirty, L.Rotated, L.FilesFrom, L.Flush, L.StreamAt;
    L.FlushKeepsSound(View(before), before.cursor);
    L.FlushKeepsStream(View(before), before.cursor);
    StreamIsFiles(before);
    StreamIsFiles(s);
    L.CleanRingIsEmpty(|s.slots|, s.cursor);
    assert Flatten(s.files) + "" == Flatten(s.files);
  }

  // A call that runs alone returns.

  function Phase(pc: PC): nat {
    match pc
    case Idle => 0
    case Copy(_, _, _) => 1
    case SetLength(_, _) => 2
    case TryWrite(_, _) => 3
    case AwaitFlushed(_, _) => 4
    case Rotate(_) => 4
    case Emit(_, _, _, _) => 5
    case Scan(_, _, _) => 5
    case TryLock(_, _) => 6
    case CheckDirty(_, _) => 7
    case LoadStart => 7
    case AwaitAvailable(_, _) => 8
    case ClaimSlot(_, _) => 9
    case LoadCursor(_) => 10
  }

  /** Visits left, twice, and whether the slot visited is still to be looked at. */
  function VisitsLeft(n: nat, pc: PC): nat {
    match pc
    case Scan(_, _, visited) => if visited <= n then 2 * (n - visited) + 1 else 0
    case Emit(_, _, visited, _) => if visited <= n then 2 * (n - visited) else 0
    case _ => 0
  }

  function BytesLeft(slots: seq<Slot>, pc: PC): nat {
    match pc
    case Copy(_, i, done) => if i < |slots| && done <= slots[i].len then slots[i].len - done else 0
    case Emit(_, start, visited, done) =>
      if |slots| > 0 && done <= slots[Visiting(|slots|, start, visited)].len
      then slots[Visiting(|slots|, start, visited)].len - done else 0
    case _ => 0
  }

  predicate GetsOn(s: State, r: State, t: nat) {
    var a, b := At(s, t), At(r, t);
    || Phase(b) < Phase(a)
    || (Phase(b) == Phase(a) && VisitsLeft(|r.slots|, b) < VisitsLeft(|s.slots|, a))
    || (Phase(b) == Phase(a) && VisitsLeft(|r.slots|, b) == VisitsLeft(|s.slots|, a)
        && BytesLeft(r.slots, b) < BytesLeft(s.slots, a))
  }

  lemma ScanGetsOn(s: State, t: nat, resume: Resume, start: nat, visited: nat)
    requires |s.slots| > 0 && At(s, t) == Scan(resume, start, visited) && visited <= |s.slots|
    ensures GetsOn(s, ScanStep(s, t, resume, start, visited), t)
  {
    hide Visiting;
  }

  lemma EmitGetsOn(s: State, t: nat, resume: Resume, start: nat, visited: nat, done: nat)
    requires |s.slots| > 0 && |s.files| > 0 && At(s, t) == Emit(resume, start, visited, done) && visited < |s.slots|
    requires var slot := s.slots[Visiting(|s.slots|, start, visited)]; slot.len <= |slot.ctx|
    ensures GetsOn(s, EmitStep(s, t, resume, start, visited, done), t)
  {
    hide Visiting, Contents;
  }

  lemma LoadGetsOn(s: State, t: nat)
    requires Consistent(s) && Solo(s, t) && !HoldsLock(At(s, t)) && !IsWriter(At(s, t))
    requires var pc := At(s, t); pc.LoadCursor? || pc.AwaitAvailable? || pc.CheckDirty? || pc.LoadStart?
    ensures PCOk(s.slots, At(s, t)) && GetsOn(s, Goto(s, t, AfterLoad(s, At(s, t))), t)
  {
    ThreadIsOk(s, t);
    if At(s, t).AwaitAvailable? {
      SoloFinds(s, t, At(s, t).slot);
    }
    hide Consistent, Solo, BytesLeft;
  }

  lemma CopyGetsOn(s: State, t: nat, msg: string, i: nat, done: nat)
    requires At(s, t) == Copy(msg, i, done) && i < |s.slots| && done <= s.slots[i].len <= |s.slots[i].ctx|
    requires s.slots[i].len <= |msg|
    ensures GetsOn(s, CopyStep(s, t, msg, i, done), t)
  {
    hide Stored;
  }

  /** Every step of a call that runs alone brings it nearer its end. */
  lemma RunGetsOn(s: State, t: nat)
    requires OnItsWay(s, t) && At(s, t) != Idle
    ensures GetsOn(s, RunStep(s, t), t)
  {
    ThreadIsOk(s, t);
    FindsSlot(s, t);
    assert !At(s, t).AwaitFlushed?;
    var pc := At(s, t);
    if pc.Copy? {
      CopiesItsMessage(s, t);
    }
    hide Consistent, Solo, BytesLeft, AfterLoad, ScanStep, EmitStep, CopyStep, RotationDue;
    match pc
    case Copy(msg, i, done) => CopyGetsOn(s, t, msg, i, done);
    case Scan(resume, start, visited) => ScanGetsOn(s, t, resume, start, visited);
    case Emit(resume, start, visited, done) => EmitGetsOn(s, t, resume, start, visited, done);
    case ClaimSlot(_, _) =>
    case TryWrite(_, _) =>
    case SetLength(_, _) =>
    case TryLock(_, _) =>
    case Rotate(_) =>
    case _ => LoadGetsOn(s, t);
  }

  lemma {:induction false} SoloReturns(s: State, t: nat) returns (k: nat)
    requires OnItsWay(s, t)
    ensures Quiet(Exec(s, Runs(t, k)))
    decreases Phase(At(s, t)), VisitsLeft(|s.slots|, At(s, t)), BytesLeft(s.slots, At(s, t))
  {
    if At(s, t) == Idle {
      k := 0;
      assert Runs(t, 0) == [];
    } else {
      hide Consistent, Solo, Behind, RunStep, Phase, VisitsLeft, BytesLeft, Quiet;
      RunGetsOn(s, t);
      OwnRunRefines(s, t);
      assert Step(s, Run(t)) == RunStep(s, t);
      var more := SoloReturns(Step(s, Run(t)), t);
      k := more + 1;
      RunsUnroll(t, k);
      assert Runs(t, k)[1..] == Runs(t, more);
    }
  }

  /** Whatever calls came and went before, one at a time: a call that runs alone returns. */
  lemma {:induction false} EveryCallReturns(n: nat, limit: nat, events: seq<Event>, e: Event)
    requires n > 0 && OneAtATime(Init(n, limit), events) && Quiet(Exec(Init(n, limit), events)) && !e.Run?
    ensures exists k: nat :: Quiet(Exec(Exec(Init(n, limit), events), [e] + Runs(e.tid, k)))
  {
    hide Consistent, Solo, Behind, Quiet, Init, Step, Calls, View, L.Exec;
    NothingYet(n, limit);
    var u := QuietRuns(n, limit, events);
    var s := Exec(Init(n, limit), events);
    CallRefines(s, u, e);
    var k := SoloReturns(Step(s, e), e.tid);
    assert ([e] + Runs(e.tid, k))[1..] == Runs(e.tid, k);
    assert Exec(s, [e] + Runs(e.tid, k)) == Exec(Step(s, e), Runs(e.tid, k));
  }
}
