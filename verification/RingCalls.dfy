/** What becomes of the messages of put calls, over whole runs of the ring. */
module RingCalls {
  import opened LogFiles
  import opened RingProtocol
  import opened Wrappers

  // Every call is accounted for.

  function CarriedOn(resume: Resume): multiset<string> {
    match resume
    case ThenWrite(msg, _) => multiset{Stored(msg)}
    case ThenStop => multiset{}
  }

  /** The message a thread inside put still has to deliver. */
  function Carries(pc: PC): multiset<string> {
    match pc
    case Idle => multiset{}
    case LoadCursor(msg) => multiset{Stored(msg)}
    case ClaimSlot(msg, _) => multiset{Stored(msg)}
    case AwaitAvailable(msg, _) => multiset{Stored(msg)}
    case CheckDirty(msg, _) => multiset{Stored(msg)}
    case AwaitFlushed(msg, _) => multiset{Stored(msg)}
    case TryWrite(msg, _) => multiset{Stored(msg)}
    case SetLength(msg, _) => multiset{Stored(msg)}
    case Copy(msg, _, _) => multiset{Stored(msg)}
    case LoadStart => multiset{}
    case TryLock(resume, _) => CarriedOn(resume)
    case Scan(resume, _, _) => CarriedOn(resume)
    case Emit(resume, _, _, _) => CarriedOn(resume)
    case Rotate(resume) => CarriedOn(resume)
  }

  /** What the threads below `threads` carry. */
  function Carried(s: State, threads: nat): multiset<string> {
    if threads == 0 then multiset{} else Carried(s, threads - 1) + Carries(At(s, threads - 1))
  }

  /** The message of a call that an event makes. */
  function Called(s: State, e: Event): multiset<string> {
    if e.Put? && At(s, e.tid) == Idle then multiset{Stored(e.msg)} else multiset{}
  }

  function Accepted(s: State, events: seq<Event>): multiset<string>
    requires Consistent(s)
    decreases |events|
  {
    if events == [] then multiset{}
    else
      StepKeepsConsistency(s, events[0]);
      Called(s, events[0]) + Accepted(Step(s, events[0]), events[1..])
  }

  function Accounted(s: State, threads: nat): multiset<string> {
    s.written + s.dropped + Carried(s, threads)
  }

  /** A step of t moves no thread but t, and loses no message. */
  predicate KeepsMessage(s: State, r: State, t: nat) {
    && r.written + r.dropped + Carries(At(r, t)) == s.written + s.dropped + Carries(At(s, t))
    && (r == s || r.threads == s.threads[t := At(r, t)])
  }

  lemma LoadKeepsMessage(s: State, t: nat)
    requires PCOk(s.slots, At(s, t))
    ensures KeepsMessage(s, Goto(s, t, AfterLoad(s, At(s, t))), t)
  {
    hide PCOk, Stored;
  }

  lemma WriteKeepsMessage(s: State, t: nat, msg: string, i: nat)
    requires i < |s.slots|
    ensures At(s, t) == TryWrite(msg, i) ==> KeepsMessage(s, TryWriteStep(s, t, msg, i), t)
    ensures At(s, t) == SetLength(msg, i) ==> KeepsMessage(s, SetLengthStep(s, t, msg, i), t)
    ensures At(s, t) == ClaimSlot(msg, i) ==> KeepsMessage(s, ClaimStep(s, t, msg, i), t)
  {
    hide Stored;
  }

  lemma CopyKeepsMessage(s: State, t: nat, msg: string, i: nat, done: nat)
    requires i < |s.slots| && s.slots[i].len <= |s.slots[i].ctx| && s.slots[i].len <= |msg|
    requires At(s, t) == Copy(msg, i, done)
    ensures KeepsMessage(s, CopyStep(s, t, msg, i, done), t)
  {
    hide Stored;
  }

  lemma LockKeepsMessage(s: State, t: nat, resume: Resume, start: nat)
    requires At(s, t) == TryLock(resume, start)
    ensures KeepsMessage(s, LockStep(s, t, resume, start), t)
  {
    hide Stored;
  }

  lemma ScanKeepsMessage(s: State, t: nat, resume: Resume, start: nat, visited: nat)
    requires |s.slots| > 0 && At(s, t) == Scan(resume, start, visited)
    ensures KeepsMessage(s, ScanStep(s, t, resume, start, visited), t)
  {
    hide CarriedOn, Visiting, KeepsMessage;
    var r := ScanStep(s, t, resume, start, visited);
    if visited == |s.slots| {
      MovesOnly(s, r, t, Rotate(resume));
    } else if s.slots[Visiting(|s.slots|, start, visited)].status == DIRTY {
      MovesOnly(s, r, t, Emit(resume, start, visited, 0));
    } else {
      MovesOnly(s, r, t, Scan(resume, start, visited + 1));
    }
  }

  lemma MovesOnly(s: State, r: State, t: nat, pc: PC)
    requires r.written == s.written && r.dropped == s.dropped && r.threads == s.threads[t := pc]
    requires Carries(pc) == Carries(At(s, t))
    ensures KeepsMessage(s, r, t)
  {
    hide Carries;
  }

  lemma RotateKeepsMessage(s: State, t: nat, resume: Resume)
    requires |s.files| > 0 && At(s, t) == Rotate(resume)
    ensures KeepsMessage(s, RotateStep(s, t, resume), t)
  {
    hide Stored, RotationDue;
  }

  lemma EmitKeepsMessage(s: State, t: nat, resume: Resume, start: nat, visited: nat, done: nat)
    requires |s.slots| > 0 && |s.files| > 0 && At(s, t) == Emit(resume, start, visited, done)
    requires var slot := s.slots[Visiting(|s.slots|, start, visited)]; slot.len <= |slot.ctx|
    ensures KeepsMessage(s, EmitStep(s, t, resume, start, visited, done), t)
  {
    hide CarriedOn, Contents, Visiting, KeepsMessage;
    var r := EmitStep(s, t, resume, start, visited, done);
    if done < s.slots[Visiting(|s.slots|, start, visited)].len {
      MovesOnly(s, r, t, Emit(resume, start, visited, done + 1));
    } else {
      MovesOnly(s, r, t, Scan(resume, start, visited + 1));
    }
  }

  lemma RunKeepsMessage(s: State, t: nat)
    requires Consistent(s)
    ensures KeepsMessage(s, RunStep(s, t), t)
  {
    hide Consistent, KeepsMessage, AfterLoad, ClaimStep, TryWriteStep, SetLengthStep, CopyStep, LockStep, ScanStep,
         EmitStep, RotateStep;
    ThreadIsOk(s, t);
    match At(s, t)
    case Idle => IdleKeepsMessage(s, t);
    case ClaimSlot(msg, seen) => WriteKeepsMessage(s, t, msg, seen);
    case TryWrite(msg, i) => WriteKeepsMessage(s, t, msg, i);
    case SetLength(msg, i) => WriteKeepsMessage(s, t, msg, i);
    case Copy(msg, i, done) => CopyKeepsMessage(s, t, msg, i, done);
    case TryLock(resume, start) => LockKeepsMessage(s, t, resume, start);
    case Scan(resume, start, visited) => ScanKeepsMessage(s, t, resume, start, visited);
    case Emit(resume, start, visited, done) => EmitKeepsMessage(s, t, resume, start, visited, done);
    case Rotate(resume) => RotateKeepsMessage(s, t, resume);
    case _ => LoadKeepsMessage(s, t);
  }

  lemma IdleKeepsMessage(s: State, t: nat)
    ensures KeepsMessage(s, s, t)
  {
  }

  lemma CallCarries(s: State, e: Event)
    requires Consistent(s) && !e.Run?
    ensures var r, t := Step(s, e), e.tid;
      && r.written == s.written && r.dropped == s.dropped
      && Carries(At(r, t)) == Carries(At(s, t)) + Called(s, e)
      && (r == s || r.threads == s.threads[t := At(r, t)])
  {
    hide Consistent, Stored;
  }

  lemma StepKeepsMessage(s: State, e: Event)
    requires Consistent(s)
    ensures var r, t := Step(s, e), e.tid;
      && r.written + r.dropped + Carries(At(r, t)) == s.written + s.dropped + Carries(At(s, t)) + Called(s, e)
      && (r == s || r.threads == s.threads[t := At(r, t)])
  {
    hide RunStep, Consistent, Carries;
    if e.Run? {
      RunKeepsMessage(s, e.tid);
    } else {
      CallCarries(s, e);
      hide Step, Called, At;
    }
  }

  lemma {:induction false} CarriedSame(s: State, r: State, threads: nat)
    requires forall u: nat :: u < threads ==> At(r, u) == At(s, u)
    ensures Carried(r, threads) == Carried(s, threads)
  {
    hide Carries;
    if threads > 0 {
      CarriedSame(s, r, threads - 1);
    }
  }

  lemma {:induction false} CarriedChange(s: State, r: State, t: nat, threads: nat)
    requires t < threads && forall u: nat :: u != t ==> At(r, u) == At(s, u)
    ensures Carried(r, threads) + Carries(At(s, t)) == Carried(s, threads) + Carries(At(r, t))
  {
    hide Carries, At;
    if threads == t + 1 {
      CarriedSame(s, r, t);
    } else {
      CarriedChange(s, r, t, threads - 1);
      assert At(r, threads - 1) == At(s, threads - 1);
      AddBoth(Carried(s, threads - 1), Carried(r, threads - 1), Carries(At(s, t)), Carries(At(r, t)),
              Carries(At(s, threads - 1)));
    }
  }

  lemma AddBoth(a: multiset<string>, a': multiset<string>, own: multiset<string>, own': multiset<string>,
                more: multiset<string>)
    requires a' + own == a + own'
    ensures a' + more + own == a + more + own'
  {
    assert a' + more + own == a' + own + more;
    assert a + more + own' == a + own' + more;
  }

  lemma StepAccounts(s: State, e: Event, threads: nat)
    requires Consistent(s) && e.tid < threads
    ensures Accounted(Step(s, e), threads) == Accounted(s, threads) + Called(s, e)
  {
    StepKeepsMessage(s, e);
    var r := Step(s, e);
    forall u: nat | u != e.tid ensures At(r, u) == At(s, u) {
    }
    CarriedChange(s, r, e.tid, threads);
    hide Carries, Carried, Called, Consistent, Step, At;
    Balance(s.written + s.dropped, Carried(s, threads), Carries(At(s, e.tid)), Called(s, e),
            r.written + r.dropped, Carried(r, threads), Carries(At(r, e.tid)));
  }

  lemma Balance(w: multiset<string>, all: multiset<string>, own: multiset<string>, call: multiset<string>,
                w': multiset<string>, all': multiset<string>, own': multiset<string>)
    requires w' + own' == w + own + call && all' + own == all + own'
    ensures w' + all' == w + all + call
  {
    forall msg ensures (w' + all')[msg] == (w + all + call)[msg] {
      assert (w' + own')[msg] == (w + own + call)[msg];
      assert (all' + own)[msg] == (all + own')[msg];
    }
  }

  lemma {:induction false} RunAccounts(s: State, events: seq<Event>, threads: nat)
    requires Consistent(s) && forall i :: 0 <= i < |events| ==> events[i].tid < threads
    ensures Accounted(Exec(s, events), threads) == Accounted(s, threads) + Accepted(s, events)
    decreases |events|
  {
    hide Consistent, Accounted, Called, Step;
    if events != [] {
      StepKeepsConsistency(s, events[0]);
      StepAccounts(s, events[0], threads);
      RunAccounts(Step(s, events[0]), events[1..], threads);
    }
  }

  lemma {:induction false} NothingCarried(n: nat, limit: nat, threads: nat)
    requires n > 0
    ensures Carried(Init(n, limit), threads) == multiset{}
  {
    if threads > 0 {
      NothingCarried(n, limit, threads - 1);
    }
  }

  /** Over every run the messages of all put calls are those written, those dropped, and those that
      calls under way still carry, each as often as it was put. */
  lemma {:induction false} EveryCallIsAccountedFor(n: nat, limit: nat, events: seq<Event>, threads: nat)
    requires n > 0 && forall i :: 0 <= i < |events| ==> events[i].tid < threads
    ensures var s := Exec(Init(n, limit), events);
      Accepted(Init(n, limit), events) == s.written + s.dropped + Carried(s, threads)
  {
    RunAccounts(Init(n, limit), events, threads);
    NothingCarried(n, limit, threads);
    hide Accepted, Exec;
  }

  // Calls that do not overlap.

  ghost predicate Quiet(s: State) {
    forall t :: t in s.threads ==> s.threads[t] == Idle
  }

  /** Every call begins when no other is under way. */
  ghost predicate OneAtATime(s: State, events: seq<Event>)
    requires Consistent(s)
    decreases |events|
  {
    events == [] ||
    (StepKeepsConsistency(s, events[0]);
     (events[0].Run? || At(s, events[0].tid) != Idle || Quiet(s)) && OneAtATime(Step(s, events[0]), events[1..]))
  }

  /** How far a call that runs alone has got: a slot it is about to write is clean. */
  predicate SoloPC(slots: seq<Slot>, pc: PC) {
    match pc
    case AwaitFlushed(_, _) => false
    case TryWrite(_, i) => i < |slots| && slots[i].status == CLEAN
    case TryLock(ThenWrite(_, i), start) => i == start
    case Scan(ThenWrite(_, i), start, visited) =>
      i == start < |slots| && (visited > 0 ==> slots[i].status == CLEAN)
    case Emit(ThenWrite(_, i), start, visited, _) =>
      i == start < |slots| && (visited > 0 ==> slots[i].status == CLEAN)
    case Rotate(ThenWrite(_, i)) => i < |slots| && slots[i].status == CLEAN
    case _ => true
  }

  /** Only t is inside a call, and nobody else has left a slot half written. */
  ghost predicate Solo(s: State, t: nat) {
    && (forall u :: u in s.threads && u != t ==> s.threads[u] == Idle)
    && SoloPC(s.slots, At(s, t))
    && forall i :: 0 <= i < |s.slots| && s.slots[i].status == WRITING ==> IsWriter(At(s, t)) && At(s, t).slot == i
  }

  /** Alone, a thread finds the mutex free, and a slot nobody works on clean or dirty. */
  lemma SoloFinds(s: State, t: nat, i: nat)
    requires Consistent(s) && Solo(s, t) && i < |s.slots| && Working(|s.slots|, At(s, t)) != Some(i)
    ensures s.slots[i].status == CLEAN || s.slots[i].status == DIRTY
    ensures !HoldsLock(At(s, t)) ==> s.lock.None?
  {
    if s.lock.Some? {
      assert At(s, s.lock.value) != Idle;
    }
  }

  ghost predicate SoloStep(s: State, r: State, t: nat) {
    Solo(r, t) && r.dropped == s.dropped
  }

  lemma SoloLoads(s: State, t: nat)
    requires Consistent(s) && Solo(s, t) && !HoldsLock(At(s, t)) && !IsWriter(At(s, t))
    ensures SoloStep(s, Goto(s, t, AfterLoad(s, At(s, t))), t)
  {
    var pc := At(s, t);
    assert PCOk(s.slots, pc);
    if pc.AwaitAvailable? || pc.CheckDirty? {
      SoloFinds(s, t, pc.slot);
    }
    hide PCsOk, LockOk, WritersApart, FlushingOwned;
  }

  lemma SoloWrites(s: State, t: nat, msg: string, i: nat)
    requires Solo(s, t) && i < |s.slots|
    ensures At(s, t) == TryWrite(msg, i) ==> SoloStep(s, TryWriteStep(s, t, msg, i), t)
    ensures At(s, t) == SetLength(msg, i) ==> SoloStep(s, SetLengthStep(s, t, msg, i), t)
    ensures At(s, t) == ClaimSlot(msg, i) ==> SoloStep(s, ClaimStep(s, t, msg, i), t)
  {
  }

  lemma SoloCopies(s: State, t: nat, msg: string, i: nat, done: nat)
    requires Solo(s, t) && i < |s.slots| && s.slots[i].len <= |s.slots[i].ctx| && s.slots[i].len <= |msg|
    requires At(s, t) == Copy(msg, i, done)
    ensures SoloStep(s, CopyStep(s, t, msg, i, done), t)
  {
  }

  lemma SoloLocks(s: State, t: nat, resume: Resume, start: nat)
    requires Solo(s, t) && s.lock.None? && start < |s.slots| && At(s, t) == TryLock(resume, start)
    ensures SoloStep(s, LockStep(s, t, resume, start), t)
  {
  }

  lemma SoloScans(s: State, t: nat, resume: Resume, start: nat, visited: nat)
    requires Solo(s, t) && At(s, t) == Scan(resume, start, visited) && start < |s.slots| && visited <= |s.slots|
    requires visited < |s.slots| ==>
               var status := s.slots[Visiting(|s.slots|, start, visited)].status; status == CLEAN || status == DIRTY
    ensures SoloStep(s, ScanStep(s, t, resume, start, visited), t)
  {
    FirstVisited(|s.slots|, start);
    hide Visiting;
  }

  lemma FirstVisited(n: nat, start: nat)
    requires start < n
    ensures Visiting(n, start, 0) == start
  {
  }

  lemma SoloEmits(s: State, t: nat, resume: Resume, start: nat, visited: nat, done: nat)
    requires Solo(s, t) && At(s, t) == Emit(resume, start, visited, done) && start < |s.slots| && |s.files| > 0
    requires var slot := s.slots[Visiting(|s.slots|, start, visited)];
             slot.len <= |slot.ctx| && slot.status == FLUSHING
    ensures SoloStep(s, EmitStep(s, t, resume, start, visited, done), t)
  {
    FirstVisited(|s.slots|, start);
    hide Visiting, Contents;
  }

  lemma SoloRotates(s: State, t: nat, resume: Resume)
    requires Solo(s, t) && At(s, t) == Rotate(resume) && |s.files| > 0
    ensures SoloStep(s, RotateStep(s, t, resume), t)
  {
    hide RotationDue;
  }

  lemma SoloRun(s: State, t: nat)
    requires Consistent(s) && Solo(s, t)
    ensures SoloStep(s, RunStep(s, t), t)
  {
    var pc := At(s, t);
    assert PCOk(s.slots, pc);
    if pc.TryLock? {
      SoloFinds(s, t, pc.start);
    } else if pc.Scan? && pc.visited < |s.slots| {
      SoloFinds(s, t, Visiting(|s.slots|, pc.start, pc.visited));
    }
    hide PCsOk, LockOk, WritersApart, FlushingOwned, Solo, AfterLoad, ClaimStep, TryWriteStep, SetLengthStep,
         CopyStep, LockStep, ScanStep, EmitStep, RotateStep;
    match pc
    case Idle => IdleRunIsNothing(s, t);
    case ClaimSlot(msg, seen) => SoloWrites(s, t, msg, seen);
    case TryWrite(msg, i) => SoloWrites(s, t, msg, i);
    case SetLength(msg, i) => SoloWrites(s, t, msg, i);
    case Copy(msg, i, done) => SoloCopies(s, t, msg, i, done);
    case TryLock(resume, start) => SoloLocks(s, t, resume, start);
    case Scan(resume, start, visited) => SoloScans(s, t, resume, start, visited);
    case Emit(resume, start, visited, done) => SoloEmits(s, t, resume, start, visited, done);
    case Rotate(resume) => SoloRotates(s, t, resume);
    case _ => SoloLoads(s, t);
  }

  lemma IdleRunIsNothing(s: State, t: nat)
    requires Consistent(s) && At(s, t) == Idle
    ensures RunStep(s, t) == s
  {
  }

  lemma SoloSteps(s: State, t: nat, e: Event) returns (u: nat)
    requires Consistent(s) && Solo(s, t) && (e.Run? || At(s, e.tid) != Idle || Quiet(s))
    ensures Solo(Step(s, e), u) && Step(s, e).dropped == s.dropped
  {
    u := t;
    if e.Run? {
      if e.tid == t {
        SoloRun(s, t);
      } else {
        IdleRunIsNothing(s, e.tid);
      }
    } else if At(s, e.tid) == Idle {
      u := e.tid;
      hide Consistent;
      assert forall v: nat :: At(s, v) == Idle;
    }
  }

  lemma {:induction false} SoloRuns(s: State, t: nat, events: seq<Event>)
    requires Consistent(s) && Solo(s, t) && OneAtATime(s, events)
    ensures Exec(s, events).dropped == s.dropped
    decreases |events|
  {
    hide Consistent, Solo, Quiet, Step;
    if events != [] {
      StepKeepsConsistency(s, events[0]);
      var u := SoloSteps(s, t, events[0]);
      SoloRuns(Step(s, events[0]), u, events[1..]);
    }
  }

  lemma InitIsSolo(n: nat, limit: nat)
    requires n > 0
    ensures Solo(Init(n, limit), 0)
  {
  }

  /** Calls that do not overlap lose nothing, on a ring of any size: nothing is dropped, and once
      all have returned the written messages are exactly those put. */
  lemma {:induction false} SeparateCallsLoseNothing(n: nat, limit: nat, events: seq<Event>, threads: nat)
    requires n > 0 && OneAtATime(Init(n, limit), events)
    requires forall i :: 0 <= i < |events| ==> events[i].tid < threads
    ensures var s := Exec(Init(n, limit), events);
      && s.dropped == multiset{}
      && (Quiet(s) ==> s.written == Accepted(Init(n, limit), events))
  {
    hide Consistent, Solo, Quiet, Carried, Init;
    NothingYet(n, limit);
    InitIsSolo(n, limit);
    SoloRuns(Init(n, limit), 0, events);
    EveryCallIsAccountedFor(n, limit, events, threads);
    if Quiet(Exec(Init(n, limit), events)) {
      QuietCarriesNothing(Exec(Init(n, limit), events), threads);
    }
  }

  lemma NothingYet(n: nat, limit: nat)
    requires n > 0
    ensures Consistent(Init(n, limit)) && Init(n, limit).dropped == multiset{}
  {
  }

  lemma {:induction false} QuietCarriesNothing(s: State, threads: nat)
    requires Quiet(s)
    ensures Carried(s, threads) == multiset{}
  {
    if threads > 0 {
      QuietCarriesNothing(s, threads - 1);
    }
  }
}
