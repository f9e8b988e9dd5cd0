/** What one flush of the ring does while other threads keep writing: between taking and releasing
    the mutex it looks at every slot once, and emits whatever was waiting when it took the mutex. */
module RingFlush {
  import opened LogFiles
  import opened Products
  import opened RingProtocol
  import opened Wrappers

  // The order of the visits.

  lemma VisitingIs(n: nat, start: nat, j: nat)
    requires start < n && j < n
    ensures Visiting(n, start, j) == if start + j < n then start + j else start + j - n
  {
    Successor(0, n);
    hide Times;
    if start + j < n {
      QuotientIs(start + j, n, 0, start + j);
    } else {
      QuotientIs(start + j, n, 1, start + j - n);
    }
  }

  /** When a flush from `start` comes to slot i. */
  function Turn(n: nat, start: nat, i: nat): (j: nat)
    requires start < n && i < n
    ensures j < n
  {
    if start <= i then i - start else n - start + i
  }

  /** The visits are a bijection between turns and slots. */
  lemma EachSlotHasOneTurn(n: nat, start: nat, i: nat, j: nat)
    requires start < n && i < n && j < n
    ensures Visiting(n, start, Turn(n, start, i)) == i
    ensures Visiting(n, start, j) == i ==> j == Turn(n, start, i)
  {
    VisitingIs(n, start, Turn(n, start, i));
    VisitingIs(n, start, j);
  }

  // While the mutex is held.

  /** Thread t takes no step by which it would leave the flush it is in. */
  ghost predicate StaysInFlush(s: State, t: nat, events: seq<Event>)
    requires Consistent(s)
    decreases |events|
  {
    && HoldsLock(At(s, t))
    && (events == [] ||
        (StepKeepsConsistency(s, events[0]);
         !(events[0] == Run(t) && At(s, t).Rotate?) && StaysInFlush(Step(s, events[0]), t, events[1..])))
  }

  function Look(s: State, t: nat, e: Event): seq<nat>
    requires Consistent(s)
  {
    if e == Run(t) && At(s, t).Scan? && At(s, t).visited < |s.slots|
    then [Visiting(|s.slots|, At(s, t).start, At(s, t).visited)]
    else []
  }

  /** The slots that t's scan looks at, in order. */
  function Looks(s: State, t: nat, events: seq<Event>): seq<nat>
    requires Consistent(s)
    decreases |events|
  {
    if events == [] then []
    else
      StepKeepsConsistency(s, events[0]);
      Look(s, t, events[0]) + Looks(Step(s, events[0]), t, events[1..])
  }

  /** What the first k slots visited owe the file. */
  function Owed(slots: seq<Slot>, start: nat, k: nat): multiset<string>
    requires k <= |slots|
  {
    if k == 0 then multiset{}
    else Owed(slots, start, k - 1) + Share(slots[Visiting(|slots|, start, k - 1)])
  }

  function Since(a: seq<string>, b: seq<string>): multiset<string> {
    if |a| <= |b| then multiset(b[|a|..]) else multiset{}
  }

  /** The slots from turn k on that were dirty are as they were. */
  predicate Untouched(before: seq<Slot>, slots: seq<Slot>, start: nat, k: nat) {
    |slots| == |before| &&
    forall j :: k <= j < |slots| ==>
      var i := Visiting(|slots|, start, j); before[i].status == DIRTY ==> slots[i] == before[i]
  }

  /** How far a flush that took the mutex in state a has got. */
  predicate Underway(a: State, slots: seq<Slot>, emitted: seq<string>, start: nat, visited: nat) {
    && visited <= |slots| == |a.slots| && a.emitted <= emitted
    && Owed(a.slots, start, visited) <= Since(a.emitted, emitted)
    && Untouched(a.slots, slots, start, visited)
  }

  /** The slots as if slot i were not being flushed yet. */
  function Waiting(slots: seq<Slot>, i: nat): seq<Slot>
    requires i < |slots|
  {
    slots[i := slots[i].(status := DIRTY)]
  }

  predicate Progress(a: State, s: State, t: nat, start: nat) {
    match At(s, t)
    case Scan(_, from, visited) => from == start && Underway(a, s.slots, s.emitted, start, visited)
    case Emit(_, from, visited, _) =>
      && from == start && visited < |s.slots| == |a.slots|
      && Underway(a, Waiting(s.slots, Visiting(|s.slots|, start, visited)), s.emitted, start, visited)
    case Rotate(_) => Underway(a, s.slots, s.emitted, start, |s.slots|)
    case _ => false
  }

  /** The visits completed, counting the one whose slot is being emitted. */
  function Done(n: nat, pc: PC): nat {
    match pc
    case Scan(_, _, visited) => visited
    case Emit(_, _, visited, _) => visited + 1
    case _ => n
  }

  lemma SinceGrows(a: seq<string>, b: seq<string>, more: string)
    requires a <= b
    ensures a <= b + [more] && Since(a, b + [more]) == Since(a, b) + multiset{more}
  {
    assert (b + [more])[|a|..] == b[|a|..] + [more];
  }

  /** Slots that wait or are being emitted, and what is emitted, are as before. */
  predicate LeavesWaiting(s: State, r: State, t: nat) {
    && At(r, t) == At(s, t) && r.emitted == s.emitted && |r.slots| == |s.slots|
    && forall i :: 0 <= i < |s.slots| && (s.slots[i].status == DIRTY || s.slots[i].status == FLUSHING) ==>
         r.slots[i] == s.slots[i]
  }

  lemma WriterLeavesWaiting(s: State, u: nat, t: nat, i: nat, msg: string, done: nat)
    requires i < |s.slots| && u != t
    ensures LeavesWaiting(s, TryWriteStep(s, u, msg, i), t)
    ensures s.slots[i].status == WRITING ==> LeavesWaiting(s, SetLengthStep(s, u, msg, i), t)
    ensures s.slots[i].status == WRITING && s.slots[i].len <= |s.slots[i].ctx| && s.slots[i].len <= |msg| ==>
              LeavesWaiting(s, CopyStep(s, u, msg, i, done), t)
  {
    hide Stored, Capped;
  }

  lemma OtherMovesLeaveWaiting(s: State, u: nat, t: nat, pc: PC)
    requires u != t
    ensures LeavesWaiting(s, Goto(s, u, pc), t)
    ensures |s.slots| > 0 ==> forall msg, seen :: LeavesWaiting(s, ClaimStep(s, u, msg, seen), t)
    ensures forall resume, start :: LeavesWaiting(s, LockStep(s, u, resume, start), t)
  {
  }

  /** So they are after a step of any other thread than the one that flushes. */
  lemma OthersLeaveWaiting(s: State, e: Event, t: nat)
    requires Consistent(s) && s.lock == Some(t) && HoldsLock(At(s, t)) && (e.tid != t || !e.Run?)
    ensures LeavesWaiting(s, Step(s, e), t)
  {
    var u := e.tid;
    assert PCOk(s.slots, At(s, u));
    assert u != t ==> !HoldsLock(At(s, u));
    hide Consistent, PCsOk, AfterLoad, ClaimStep, LockStep, TryWriteStep, SetLengthStep, CopyStep, LeavesWaiting;
    if u == t {
      NothingChanges(s, t);
    } else {
      OtherMovesLeaveWaiting(s, u, t, AfterLoad(s, At(s, u)));
      match At(s, u)
      case TryWrite(msg, i) => WriterLeavesWaiting(s, u, t, i, msg, 0);
      case SetLength(msg, i) => WriterLeavesWaiting(s, u, t, i, msg, 0);
      case Copy(msg, i, done) => WriterLeavesWaiting(s, u, t, i, msg, done);
      case _ =>
        NothingChanges(s, t);
        OtherMovesLeaveWaiting(s, u, t, LoadStart);
        OtherMovesLeaveWaiting(s, u, t, if e.Put? then LoadCursor(e.msg) else LoadStart);
    }
  }

  lemma NothingChanges(s: State, t: nat)
    ensures LeavesWaiting(s, s, t)
  {
  }

  lemma OthersKeepProgress(a: State, s: State, e: Event, t: nat, start: nat)
    requires Consistent(s) && s.lock == Some(t) && HoldsLock(At(s, t)) && (e.tid != t || !e.Run?)
    requires Progress(a, s, t, start)
    ensures Progress(a, Step(s, e), t, start)
  {
    assert PCOk(s.slots, At(s, t));
    OthersLeaveWaiting(s, e, t);
    hide Consistent, Step, Owed, Visiting, At;
  }

  lemma ScanKeepsProgress(a: State, s: State, t: nat, resume: Resume, start: nat, visited: nat)
    requires |s.slots| > 0 && At(s, t) == Scan(resume, start, visited) && Progress(a, s, t, start)
    requires forall i :: 0 <= i < |a.slots| ==> a.slots[i].status != FLUSHING
    ensures Progress(a, ScanStep(s, t, resume, start, visited), t, start)
  {
    hide Visiting;
    if visited < |s.slots| {
      var i := Visiting(|s.slots|, start, visited);
      if s.slots[i].status == DIRTY {
        var r := ScanStep(s, t, resume, start, visited);
        assert s.slots[i := r.slots[i].(status := DIRTY)] == s.slots;
        assert r.slots[i := r.slots[i].(status := DIRTY)] == s.slots;
      } else {
        assert a.slots[i].status != DIRTY;
      }
    }
  }

  /** Emitting the slot whose turn it is. */
  lemma EmitFinishes(a: State, slots: seq<Slot>, emitted: seq<string>, start: nat, visited: nat)
    requires start < |slots| && visited < |slots| == |a.slots|
    requires forall i :: 0 <= i < |a.slots| ==> a.slots[i].status != FLUSHING
    requires var i := Visiting(|slots|, start, visited);
      slots[i].status == FLUSHING && Underway(a, Waiting(slots, i), emitted, start, visited)
    ensures var i := Visiting(|slots|, start, visited);
      Underway(a, slots[i := slots[i].(status := CLEAN)], emitted + [Contents(slots[i])], start, visited + 1)
  {
    hide Visiting, Contents;
    var i := Visiting(|slots|, start, visited);
    SinceGrows(a.emitted, emitted, Contents(slots[i]));
    EmittedIsOwed(a, slots, i);
    forall j | visited < j < |slots| ensures Visiting(|slots|, start, j) != i {
      EachSlotHasOneTurn(|slots|, start, i, j);
      EachSlotHasOneTurn(|slots|, start, i, visited);
    }
  }

  lemma EmitKeepsProgress(a: State, s: State, t: nat, resume: Resume, start: nat, visited: nat, done: nat)
    requires At(s, t) == Emit(resume, start, visited, done) && Progress(a, s, t, start) && |s.files| > 0
    requires start < |s.slots| && forall i :: 0 <= i < |a.slots| ==> a.slots[i].status != FLUSHING
    requires var slot := s.slots[Visiting(|s.slots|, start, visited)]; slot.len <= |slot.ctx| && slot.status == FLUSHING
    ensures Progress(a, EmitStep(s, t, resume, start, visited, done), t, start)
  {
    hide Underway, Visiting, Contents;
    if done >= s.slots[Visiting(|s.slots|, start, visited)].len {
      EmitFinishes(a, s.slots, s.emitted, start, visited);
    }
  }

  lemma EmittedIsOwed(a: State, slots: seq<Slot>, i: nat)
    requires |a.slots| == |slots| && i < |slots| && a.slots[i].status != FLUSHING
    requires a.slots[i].status == DIRTY ==> slots[i].(status := DIRTY) == a.slots[i]
    ensures Share(a.slots[i]) <= multiset{Contents(slots[i])}
  {
  }

  lemma OwnStepKeepsProgress(a: State, s: State, t: nat, start: nat)
    requires Consistent(s) && HoldsLock(At(s, t)) && !At(s, t).Rotate? && Progress(a, s, t, start)
    requires forall i :: 0 <= i < |a.slots| ==> a.slots[i].status != FLUSHING
    ensures Progress(a, Step(s, Run(t)), t, start)
  {
    ThreadIsOk(s, t);
    hide Consistent, Progress, ScanStep, EmitStep;
    match At(s, t)
    case Scan(resume, from, visited) =>
      ProgressStarts(a, s, t, start);
      ScanKeepsProgress(a, s, t, resume, start, visited);
    case Emit(resume, from, visited, done) =>
      ProgressStarts(a, s, t, start);
      EmitKeepsProgress(a, s, t, resume, start, visited, done);
  }

  lemma ProgressStarts(a: State, s: State, t: nat, start: nat)
    requires Progress(a, s, t, start) && (At(s, t).Scan? || At(s, t).Emit?)
    ensures At(s, t).start == start
  {
  }

  lemma LockIsHeld(s: State, t: nat)
    requires Consistent(s) && HoldsLock(At(s, t))
    ensures s.lock == Some(t)
  {
  }

  lemma StepKeepsProgress(a: State, s: State, e: Event, t: nat, start: nat)
    requires Consistent(s) && HoldsLock(At(s, t)) && !(e == Run(t) && At(s, t).Rotate?) && Progress(a, s, t, start)
    requires forall i :: 0 <= i < |a.slots| ==> a.slots[i].status != FLUSHING
    ensures Progress(a, Step(s, e), t, start)
  {
    hide Consistent, Progress, Step;
    LockIsHeld(s, t);
    if e.tid == t && e.Run? {
      assert e == Run(t);
      OwnStepKeepsProgress(a, s, t, start);
    } else {
      OthersKeepProgress(a, s, e, t, start);
    }
  }

  /** A step looks at the slot whose turn it is, or at none. */
  lemma StepLooksOnce(s: State, e: Event, t: nat)
    requires Consistent(s) && HoldsLock(At(s, t)) && !(e == Run(t) && At(s, t).Rotate?)
    ensures var n, before := |s.slots|, Done(|s.slots|, At(s, t)); var after := Done(n, At(Step(s, e), t));
      && n > 0
      && HoldsLock(At(Step(s, e), t))
      && (!At(Step(s, e), t).Rotate? && !At(s, t).Rotate? ==> At(Step(s, e), t).start == At(s, t).start)
      && (if Look(s, t, e) == [] then after == before
          else after == before + 1 && !At(s, t).Rotate? && Look(s, t, e) == [Visiting(n, At(s, t).start, before)])
      && (At(s, t).Rotate? ==> At(Step(s, e), t) == At(s, t))
  {
    ThreadIsOk(s, t);
    LockIsHeld(s, t);
    if e.tid != t || !e.Run? {
      OthersLeaveWaiting(s, e, t);
      hide Step;
    }
    hide Consistent, Visiting;
  }

  /** The slots of turns lo up to, not including, hi. */
  function Turns(n: nat, start: nat, lo: nat, hi: nat): seq<nat>
    requires n > 0 && lo <= hi
    decreases hi - lo
  {
    if lo == hi then [] else [Visiting(n, start, lo)] + Turns(n, start, lo + 1, hi)
  }

  lemma {:induction false} TurnsAt(n: nat, start: nat, lo: nat, hi: nat, j: nat)
    requires n > 0 && lo <= j < hi
    ensures |Turns(n, start, lo, hi)| == hi - lo
    ensures Turns(n, start, lo, hi)[j - lo] == Visiting(n, start, j)
    decreases hi - lo
  {
    hide Visiting;
    if lo + 1 < hi {
      TurnsAt(n, start, lo + 1, hi, if lo < j then j else lo + 1);
    }
  }

  lemma {:induction false} FlushProgresses(a: State, s: State, t: nat, start: nat, events: seq<Event>)
    requires Consistent(s) && StaysInFlush(s, t, events) && Progress(a, s, t, start)
    requires forall i :: 0 <= i < |a.slots| ==> a.slots[i].status != FLUSHING
    ensures Progress(a, Exec(s, events), t, start)
    decreases |events|
  {
    hide Consistent, Progress, Step;
    if events != [] {
      StepKeepsConsistency(s, events[0]);
      StepKeepsProgress(a, s, events[0], t, start);
      FlushProgresses(a, Step(s, events[0]), t, start, events[1..]);
    }
  }

  lemma {:induction false} TurnsStep(n: nat, start: nat, lo: nat, mid: nat, hi: nat, look: seq<nat>)
    requires n > 0 && mid <= hi
    requires if look == [] then mid == lo else mid == lo + 1 && look == [Visiting(n, start, lo)]
    ensures lo <= hi && look + Turns(n, start, mid, hi) == Turns(n, start, lo, hi)
  {
    hide Visiting;
  }

  lemma {:induction false} NoTurns(n: nat, start: nat, at: nat)
    requires n > 0
    ensures Turns(n, start, at, at) == []
  {
  }

  /** The looks are the turns in order, from where the scan stands to where it gets. */
  lemma {:induction false} LooksAreTurns(s: State, t: nat, start: nat, events: seq<Event>)
    requires Consistent(s) && StaysInFlush(s, t, events) && (!At(s, t).Rotate? ==> At(s, t).start == start)
    ensures var n, r := |s.slots|, Exec(s, events);
      && n > 0 && HoldsLock(At(r, t)) && Done(n, At(s, t)) <= Done(n, At(r, t))
      && Looks(s, t, events) == Turns(n, start, Done(n, At(s, t)), Done(n, At(r, t)))
    decreases |events|
  {
    ThreadIsOk(s, t);
    hide Consistent, Step, Done, Look, Visiting, At, HoldsLock, Turns;
    NoTurns(|s.slots|, start, Done(|s.slots|, At(s, t)));
    var n := |s.slots|;
    if events != [] {
      StepKeepsConsistency(s, events[0]);
      StepLooksOnce(s, events[0], t);
      var next := Step(s, events[0]);
      LooksAreTurns(next, t, start, events[1..]);
      TurnsStep(n, start, Done(n, At(s, t)), Done(n, At(next, t)), Done(n, At(Exec(next, events[1..]), t)),
                Look(s, t, events[0]));
    }
  }

  // What is waiting, slot by slot and turn by turn.

  lemma {:induction false} HeldJoins(a: seq<Slot>, b: seq<Slot>)
    ensures Held(a + b) == Held(a) + Held(b)
  {
    hide Share;
    if b == [] {
      assert a + b == a;
    } else {
      assert (a + b)[..|a + b| - 1] == a + b[..|b| - 1];
      HeldJoins(a, b[..|b| - 1]);
    }
  }

  lemma {:induction false} OwedIsHeld(slots: seq<Slot>, start: nat, k: nat)
    requires start < |slots| && k <= |slots|
    ensures Owed(slots, start, k) == Held((slots[start..] + slots[..start])[..k])
  {
    hide Share, Visiting;
    if k > 0 {
      var round := slots[start..] + slots[..start];
      OwedIsHeld(slots, start, k - 1);
      VisitingIs(|slots|, start, k - 1);
      assert round[..k][..k - 1] == round[..k - 1];
      assert round[k - 1] == slots[Visiting(|slots|, start, k - 1)];
    }
  }

  /** A whole round owes what all slots hold. */
  lemma {:induction false} RoundOwesAll(slots: seq<Slot>, start: nat)
    requires start < |slots|
    ensures Owed(slots, start, |slots|) == Held(slots)
  {
    hide *;
    var round := slots[start..] + slots[..start];
    OwedIsHeld(slots, start, |slots|);
    assert round[..|slots|] == round;
    HeldJoins(slots[start..], slots[..start]);
    HeldJoins(slots[..start], slots[start..]);
    assert slots == slots[..start] + slots[start..];
  }

  lemma TakesLock(s: State, t: nat)
    requires Consistent(s) && At(s, t).TryLock? && s.lock.None?
    ensures var a := Step(s, Run(t));
      && a.slots == s.slots && a.emitted == s.emitted
      && At(a, t) == Scan(At(s, t).resume, At(s, t).start, 0)
      && At(s, t).start < |s.slots|
      && forall i :: 0 <= i < |s.slots| ==> s.slots[i].status != FLUSHING
  {
    ThreadIsOk(s, t);
  }

  lemma ProgressBegins(a: State, t: nat, resume: Resume, start: nat)
    requires At(a, t) == Scan(resume, start, 0)
    ensures Progress(a, a, t, start)
  {
  }

  lemma {:induction false} RoundCoversAll(n: nat, start: nat, i: nat)
    requires start < n && i < n
    ensures i in Turns(n, start, 0, n)
  {
    hide Visiting;
    EachSlotHasOneTurn(n, start, i, Turn(n, start, i));
    TurnsAt(n, start, 0, n, Turn(n, start, i));
    assert Turns(n, start, 0, n)[Turn(n, start, i) - 0] == i;
  }

  /** However other threads interleave: by the time a flush is about to release the mutex it took in
      state s, it has looked at each of the n slots, once, and everything that waited in s, in any
      slot, has been emitted since. */
  lemma {:induction false} FlushSeesEverySlotOnce(s: State, t: nat, events: seq<Event>)
    requires Consistent(s) && At(s, t).TryLock? && s.lock.None?
    requires Consistent(Step(s, Run(t))) && StaysInFlush(Step(s, Run(t)), t, events)
    requires At(Exec(Step(s, Run(t)), events), t).Rotate?
    ensures var r, looks := Exec(Step(s, Run(t)), events), Looks(Step(s, Run(t)), t, events);
      && |looks| == |s.slots| && (forall i :: 0 <= i < |s.slots| ==> i in looks)
      && s.emitted <= r.emitted && Held(s.slots) <= Since(s.emitted, r.emitted)
  {
    hide Consistent, Step, Visiting, Share, At;
    var a, start, n := Step(s, Run(t)), At(s, t).start, |s.slots|;
    TakesLock(s, t);
    ProgressBegins(a, t, At(s, t).resume, start);
    FlushProgresses(a, a, t, start, events);
    LooksAreTurns(a, t, start, events);
    var r := Exec(a, events);
    assert Underway(a, r.slots, r.emitted, start, n);
    RoundOwesAll(s.slots, start);
    TurnsAt(n, start, 0, n, 0);
    forall i | 0 <= i < n ensures i in Looks(a, t, events) {
      RoundCoversAll(n, start, i);
    }
  }
}
