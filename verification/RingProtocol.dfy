/** The logger's shared ring under any interleaving of any number of threads. Every load,
    compare-and-swap, store and copied byte is a step of its own; memory is sequentially
    consistent. A thread is any natural number; one that never took a step is idle. */
module RingProtocol {
  import opened LogFiles
  import opened Streams
  import opened Wrappers

  datatype Status = CLEAN | WRITING | DIRTY | FLUSHING

  datatype Slot = Slot(status: Status, len: nat, ctx: string)

  /** What a thread does once the flush it runs is over. */
  datatype Resume = ThenWrite(msg: string, slot: nat) | ThenStop

  /** Where a thread stands inside put, flushAll, flush or a slot's write and flush. */
  datatype PC =
    | Idle
    | LoadCursor(msg: string)
    | ClaimSlot(msg: string, seen: nat)
    | AwaitAvailable(msg: string, slot: nat)
    | CheckDirty(msg: string, slot: nat)
    | AwaitFlushed(msg: string, slot: nat)
    | TryWrite(msg: string, slot: nat)
    | SetLength(msg: string, slot: nat)
    | Copy(msg: string, slot: nat, done: nat)
    | LoadStart
    | TryLock(resume: Resume, start: nat)
    | Scan(resume: Resume, start: nat, visited: nat)
    | Emit(resume: Resume, start: nat, visited: nat, done: nat)
    | Rotate(resume: Resume)

  /** The shared variables, the program counters, and four history variables: the messages
      whose write returned 0, those whose write returned -1, and the messages flushed so far. */
  datatype State = State(
    slots: seq<Slot>,
    cursor: nat,
    lock: Option<nat>,
    files: seq<string>,
    threads: map<nat, PC>,
    limit: nat,
    written: multiset<string>,
    dropped: multiset<string>,
    emitted: seq<string>)

  datatype Event =
    | Put(tid: nat, msg: string)
    | FlushAll(tid: nat)
    | Run(tid: nat)

  function At(s: State, t: nat): PC {
    if t in s.threads then s.threads[t] else Idle
  }

  function Goto(s: State, t: nat, pc: PC): State {
    s.(threads := s.threads[t := pc])
  }

  function SetStatus(s: State, i: nat, status: Status): State
    requires i < |s.slots|
  {
    s.(slots := s.slots[i := s.slots[i].(status := status)])
  }

  function After(resume: Resume): PC {
    match resume
    case ThenWrite(msg, slot) => TryWrite(msg, slot)
    case ThenStop => Idle
  }

  /** The slot a flush started at `start` looks at after `visited` others. */
  function Visiting(n: nat, start: nat, visited: nat): (i: nat)
    requires n > 0
    ensures i < n
  {
    (start + visited) % n
  }

  function Contents(slot: Slot): string {
    if slot.len <= |slot.ctx| then slot.ctx[..slot.len] else slot.ctx
  }

  // What every reachable state satisfies.

  predicate IsWriter(pc: PC) {
    pc.SetLength? || pc.Copy?
  }

  predicate HoldsLock(pc: PC) {
    pc.Scan? || pc.Emit? || pc.Rotate?
  }

  predicate ResumeOk(n: nat, resume: Resume) {
    resume.ThenWrite? ==> resume.slot < n
  }

  predicate SlotOk(slot: Slot) {
    |slot.ctx| == MSG_SIZE && slot.len <= MSG_SIZE
  }

  /** A thread's claims about the slot it works on. */
  predicate PCOk(slots: seq<Slot>, pc: PC) {
    match pc
    case Idle => true
    case LoadCursor(_) => true
    case ClaimSlot(_, seen) => seen < |slots|
    case AwaitAvailable(_, i) => i < |slots|
    case CheckDirty(_, i) => i < |slots|
    case AwaitFlushed(_, i) => i < |slots|
    case TryWrite(_, i) => i < |slots|
    case SetLength(_, i) => i < |slots| && slots[i].status == WRITING
    case Copy(msg, i, done) =>
      && i < |slots| && slots[i].status == WRITING
      && slots[i].len == Capped(|msg|) && done <= slots[i].len <= |slots[i].ctx|
      && slots[i].ctx[..done] == msg[..done]
    case LoadStart => true
    case TryLock(resume, start) => start < |slots| && ResumeOk(|slots|, resume)
    case Scan(resume, start, visited) => start < |slots| && visited <= |slots| && ResumeOk(|slots|, resume)
    case Emit(resume, start, visited, done) =>
      && start < |slots| && visited < |slots| && ResumeOk(|slots|, resume)
      && var slot := slots[Visiting(|slots|, start, visited)];
         slot.status == FLUSHING && done <= slot.len
    case Rotate(resume) => ResumeOk(|slots|, resume)
  }

  /** The slot a thread has to itself, if any. */
  function Working(n: nat, pc: PC): Option<nat>
    requires n > 0
  {
    match pc
    case SetLength(_, i) => Some(i)
    case Copy(_, i, _) => Some(i)
    case Emit(_, start, visited, _) => Some(Visiting(n, start, visited))
    case _ => None
  }

  ghost predicate PCsOk(slots: seq<Slot>, threads: map<nat, PC>) {
    forall t :: t in threads ==> PCOk(slots, threads[t])
  }

  /** The mutex is held by exactly the threads that stand inside a flush. */
  ghost predicate LockOk(lock: Option<nat>, threads: map<nat, PC>) {
    && (forall t :: t in threads && HoldsLock(threads[t]) ==> lock == Some(t))
    && (lock.Some? ==> lock.value in threads && HoldsLock(threads[lock.value]))
  }

  ghost predicate WritersApart(threads: map<nat, PC>) {
    forall t, u | t in threads && u in threads && t != u && IsWriter(threads[t]) && IsWriter(threads[u])
      :: threads[t].slot != threads[u].slot
  }

  /** A FLUSHING slot is the one the holder of the mutex is emitting. */
  ghost predicate FlushingOwned(slots: seq<Slot>, lock: Option<nat>, threads: map<nat, PC>)
    requires |slots| > 0 && LockOk(lock, threads)
  {
    forall i | 0 <= i < |slots| && slots[i].status == FLUSHING
      :: lock.Some? && Working(|slots|, threads[lock.value]) == Some(i)
  }

  ghost predicate Consistent(s: State) {
    && |s.slots| > 0 && s.cursor < |s.slots| && |s.files| > 0
    && (forall i :: 0 <= i < |s.slots| ==> SlotOk(s.slots[i]))
    && PCsOk(s.slots, s.threads)
    && LockOk(s.lock, s.threads)
    && WritersApart(s.threads)
    && FlushingOwned(s.slots, s.lock, s.threads)
  }

  // The steps, one per place in the code.

  function ClaimStep(s: State, t: nat, msg: string, seen: nat): State
    requires |s.slots| > 0
  {
    if s.cursor == seen then Goto(s.(cursor := (seen + 1) % |s.slots|), t, AwaitAvailable(msg, seen))
    else Goto(s, t, LoadCursor(msg))
  }

  /** The loads in put's loops and tests: a waiting loop stays where it is until its load lets
      it on. */
  function AfterLoad(s: State, pc: PC): PC
    requires PCOk(s.slots, pc)
  {
    match pc
    case LoadCursor(msg) => ClaimSlot(msg, s.cursor)
    case AwaitAvailable(msg, i) =>
      if s.slots[i].status == CLEAN || s.slots[i].status == DIRTY then CheckDirty(msg, i) else pc
    case CheckDirty(msg, i) =>
      if s.slots[i].status == DIRTY then TryLock(ThenWrite(msg, i), i) else TryWrite(msg, i)
    case AwaitFlushed(msg, i) =>
      if s.slots[i].status == DIRTY then pc else TryWrite(msg, i)
    case LoadStart => TryLock(ThenStop, s.cursor)
    case _ => pc
  }

  function TryWriteStep(s: State, t: nat, msg: string, i: nat): State
    requires i < |s.slots|
  {
    if s.slots[i].status == CLEAN then Goto(SetStatus(s, i, WRITING), t, SetLength(msg, i))
    else Goto(s, t, Idle).(dropped := s.dropped + multiset{Stored(msg)})
  }

  function SetLengthStep(s: State, t: nat, msg: string, i: nat): State
    requires i < |s.slots|
  {
    Goto(s.(slots := s.slots[i := s.slots[i].(len := Capped(|msg|))]), t, Copy(msg, i, 0))
  }

  function CopyStep(s: State, t: nat, msg: string, i: nat, done: nat): State
    requires i < |s.slots| && s.slots[i].len <= |s.slots[i].ctx| && s.slots[i].len <= |msg|
  {
    var slot := s.slots[i];
    if done < slot.len then
      Goto(s.(slots := s.slots[i := slot.(ctx := slot.ctx[done := msg[done]])]), t, Copy(msg, i, done + 1))
    else
      Goto(SetStatus(s, i, DIRTY), t, Idle).(written := s.written + multiset{Stored(msg)})
  }

  function LockStep(s: State, t: nat, resume: Resume, start: nat): State {
    if s.lock.None? then Goto(s.(lock := Some(t)), t, Scan(resume, start, 0))
    else Goto(s, t, if resume.ThenWrite? then AwaitFlushed(resume.msg, resume.slot) else Idle)
  }

  function ScanStep(s: State, t: nat, resume: Resume, start: nat, visited: nat): State
    requires |s.slots| > 0
  {
    if visited == |s.slots| then Goto(s, t, Rotate(resume))
    else
      var i := Visiting(|s.slots|, start, visited);
      if s.slots[i].status == DIRTY then Goto(SetStatus(s, i, FLUSHING), t, Emit(resume, start, visited, 0))
      else Goto(s, t, Scan(resume, start, visited + 1))
  }

  function EmitStep(s: State, t: nat, resume: Resume, start: nat, visited: nat, done: nat): State
    requires |s.slots| > 0 && |s.files| > 0
    requires var slot := s.slots[Visiting(|s.slots|, start, visited)]; slot.len <= |slot.ctx|
  {
    var i := Visiting(|s.slots|, start, visited);
    var last := |s.files| - 1;
    if done < s.slots[i].len then
      Goto(s.(files := s.files[last := s.files[last] + [s.slots[i].ctx[done]]]), t, Emit(resume, start, visited, done + 1))
    else
      Goto(SetStatus(s, i, CLEAN), t, Scan(resume, start, visited + 1)).(emitted := s.emitted + [Contents(s.slots[i])])
  }

  function RotateStep(s: State, t: nat, resume: Resume): State
    requires |s.files| > 0
  {
    var files := if RotationDue(s.limit, |s.files[|s.files| - 1]|) then s.files + [""] else s.files;
    Goto(s.(files := files, lock := None), t, After(resume))
  }

  /** One atomic step of thread t. */
  function RunStep(s: State, t: nat): (r: State)
    requires Consistent(s)
    ensures |r.slots| == |s.slots|
  {
    assert PCOk(s.slots, At(s, t));
    match At(s, t)
    case Idle => s
    case ClaimSlot(msg, seen) => ClaimStep(s, t, msg, seen)
    case TryWrite(msg, i) => TryWriteStep(s, t, msg, i)
    case SetLength(msg, i) => SetLengthStep(s, t, msg, i)
    case Copy(msg, i, done) => CopyStep(s, t, msg, i, done)
    case TryLock(resume, start) => LockStep(s, t, resume, start)
    case Scan(resume, start, visited) => ScanStep(s, t, resume, start, visited)
    case Emit(resume, start, visited, done) => EmitStep(s, t, resume, start, visited, done)
    case Rotate(resume) => RotateStep(s, t, resume)
    case pc => Goto(s, t, AfterLoad(s, pc))
  }

  /** An idle thread may call put or flushAll; otherwise the chosen thread takes its next step. */
  function Step(s: State, e: Event): (r: State)
    requires Consistent(s)
    ensures |r.slots| == |s.slots|
  {
    match e
    case Put(t, msg) => if At(s, t) == Idle then Goto(s, t, LoadCursor(msg)) else s
    case FlushAll(t) => if At(s, t) == Idle then Goto(s, t, LoadStart) else s
    case Run(t) => RunStep(s, t)
  }

  function Blank(): Slot {
    Slot(CLEAN, 0, seq(MSG_SIZE, i => '\0'))
  }

  function Init(n: nat, limit: nat): State
    requires n > 0
  {
    State(seq(n, i => Blank()), 0, None, [""], map[], limit, multiset{}, multiset{}, [])
  }

  /** What a consistent state says of one thread and of the ring. */
  lemma ThreadIsOk(s: State, t: nat)
    requires Consistent(s)
    ensures |s.slots| > 0 && |s.files| > 0 && PCOk(s.slots, At(s, t))
    ensures forall i :: 0 <= i < |s.slots| ==> SlotOk(s.slots[i])
  {
  }

  /** Steps that touch no slot and neither take nor release the lock. */
  lemma MoveKeepsConsistency(s: State, t: nat, pc: PC)
    requires Consistent(s) && PCOk(s.slots, pc)
    requires !IsWriter(At(s, t)) && !IsWriter(pc)
    requires HoldsLock(At(s, t)) == HoldsLock(pc) && !At(s, t).Emit?
    ensures Consistent(Goto(s, t, pc))
  {
  }

  lemma LoadKeepsConsistency(s: State, t: nat)
    requires Consistent(s) && PCOk(s.slots, At(s, t))
    requires var pc := At(s, t); !HoldsLock(pc) && !IsWriter(pc)
    ensures Consistent(Goto(s, t, AfterLoad(s, At(s, t))))
  {
    MoveKeepsConsistency(s, t, AfterLoad(s, At(s, t)));
  }

  lemma ClaimKeepsConsistency(s: State, t: nat, msg: string, seen: nat)
    requires Consistent(s) && At(s, t) == ClaimSlot(msg, seen)
    ensures Consistent(ClaimStep(s, t, msg, seen))
  {
    assert PCOk(s.slots, At(s, t));
    if s.cursor == seen {
      MoveKeepsConsistency(s.(cursor := (seen + 1) % |s.slots|), t, AwaitAvailable(msg, seen));
    } else {
      MoveKeepsConsistency(s, t, LoadCursor(msg));
    }
  }

  lemma LockKeepsConsistency(s: State, t: nat, resume: Resume, start: nat)
    requires Consistent(s) && At(s, t) == TryLock(resume, start)
    ensures Consistent(LockStep(s, t, resume, start))
  {
    assert PCOk(s.slots, At(s, t));
    if s.lock.Some? {
      MoveKeepsConsistency(s, t, if resume.ThenWrite? then AwaitFlushed(resume.msg, resume.slot) else Idle);
    }
  }

  lemma RotateKeepsConsistency(s: State, t: nat, resume: Resume)
    requires Consistent(s) && At(s, t) == Rotate(resume)
    ensures Consistent(RotateStep(s, t, resume))
  {
    assert PCOk(s.slots, At(s, t));
  }

  /** Nobody but t works on slot i. */
  ghost predicate Alone(s: State, t: nat, i: nat)
    requires |s.slots| > 0
  {
    forall u :: u in s.threads && u != t ==> Working(|s.slots|, s.threads[u]) != Some(i)
  }

  /** A slot neither WRITING nor FLUSHING has nobody inside; a working thread is alone. */
  lemma WorkersAreAlone(s: State, t: nat, i: nat)
    requires Consistent(s) && i < |s.slots|
    requires s.slots[i].status == CLEAN || s.slots[i].status == DIRTY || Working(|s.slots|, At(s, t)) == Some(i)
    ensures Alone(s, t, i)
  {
    forall u | u in s.threads && u != t ensures Working(|s.slots|, s.threads[u]) != Some(i) {
      assert PCOk(s.slots, s.threads[u]);
      assert PCOk(s.slots, At(s, t));
    }
  }

  lemma ElsewhereUndisturbed(slots: seq<Slot>, i: nat, slot: Slot, pc: PC)
    requires i < |slots| && PCOk(slots, pc) && Working(|slots|, pc) != Some(i)
    ensures PCOk(slots[i := slot], pc)
  {
  }

  /** A step by which t changes slot i, while nobody else works on it. */
  lemma SlotStepKeepsConsistency(s: State, t: nat, i: nat, slot: Slot, pc: PC)
    requires Consistent(s) && i < |s.slots| && SlotOk(slot) && Alone(s, t, i)
    requires PCOk(s.slots[i := slot], pc)
    requires HoldsLock(pc) == HoldsLock(At(s, t))
    requires IsWriter(pc) ==> pc.slot == i
    requires Working(|s.slots|, At(s, t)).Some? ==> Working(|s.slots|, At(s, t)) == Some(i)
    requires slot.status == FLUSHING ==> HoldsLock(pc) && Working(|s.slots|, pc) == Some(i)
    ensures Consistent(Goto(s.(slots := s.slots[i := slot]), t, pc))
  {
    var slots, threads := s.slots[i := slot], s.threads[t := pc];
    assert PCsOk(slots, threads) by {
      forall u | u in threads ensures PCOk(slots, threads[u]) {
        if u != t {
          ElsewhereUndisturbed(s.slots, i, slot, s.threads[u]);
        }
      }
    }
    hide PCOk, PCsOk;
    assert LockOk(s.lock, threads);
    assert WritersApart(threads) by {
      forall u | u in threads && u != t && IsWriter(threads[u]) && IsWriter(pc) ensures threads[u].slot != pc.slot {
        assert Working(|s.slots|, s.threads[u]) == Some(s.threads[u].slot);
      }
    }
    assert FlushingOwned(slots, s.lock, threads);
  }

  lemma TryWriteKeepsConsistency(s: State, t: nat, msg: string, i: nat)
    requires Consistent(s) && At(s, t) == TryWrite(msg, i) && i < |s.slots|
    ensures Consistent(TryWriteStep(s, t, msg, i))
  {
    if s.slots[i].status == CLEAN {
      WorkersAreAlone(s, t, i);
      SlotStepKeepsConsistency(s, t, i, s.slots[i].(status := WRITING), SetLength(msg, i));
    } else {
      MoveKeepsConsistency(s, t, Idle);
    }
  }

  lemma SetLengthKeepsConsistency(s: State, t: nat, msg: string, i: nat)
    requires Consistent(s) && At(s, t) == SetLength(msg, i) && i < |s.slots|
    ensures Consistent(SetLengthStep(s, t, msg, i))
  {
    assert PCOk(s.slots, At(s, t));
    WorkersAreAlone(s, t, i);
    SlotStepKeepsConsistency(s, t, i, s.slots[i].(len := Capped(|msg|)), Copy(msg, i, 0));
  }

  lemma CopyKeepsConsistency(s: State, t: nat, msg: string, i: nat, done: nat)
    requires Consistent(s) && At(s, t) == Copy(msg, i, done) && PCOk(s.slots, At(s, t))
    ensures Consistent(CopyStep(s, t, msg, i, done))
  {
    var slot := s.slots[i];
    WorkersAreAlone(s, t, i);
    if done < slot.len {
      var ctx := slot.ctx[done := msg[done]];
      assert ctx[..done + 1] == msg[..done + 1];
      SlotStepKeepsConsistency(s, t, i, slot.(ctx := ctx), Copy(msg, i, done + 1));
    } else {
      SlotStepKeepsConsistency(s, t, i, slot.(status := DIRTY), Idle);
    }
  }

  lemma ScanKeepsConsistency(s: State, t: nat, resume: Resume, start: nat, visited: nat)
    requires Consistent(s) && At(s, t) == Scan(resume, start, visited) && PCOk(s.slots, At(s, t))
    ensures Consistent(ScanStep(s, t, resume, start, visited))
  {
    if visited == |s.slots| {
      MoveKeepsConsistency(s, t, Rotate(resume));
    } else {
      var i := Visiting(|s.slots|, start, visited);
      if s.slots[i].status == DIRTY {
        WorkersAreAlone(s, t, i);
        SlotStepKeepsConsistency(s, t, i, s.slots[i].(status := FLUSHING), Emit(resume, start, visited, 0));
      } else {
        MoveKeepsConsistency(s, t, Scan(resume, start, visited + 1));
      }
    }
  }

  lemma EmitKeepsConsistency(s: State, t: nat, resume: Resume, start: nat, visited: nat, done: nat)
    requires Consistent(s) && At(s, t) == Emit(resume, start, visited, done) && PCOk(s.slots, At(s, t))
    ensures Consistent(EmitStep(s, t, resume, start, visited, done))
  {
    var i := Visiting(|s.slots|, start, visited);
    var slot := s.slots[i];
    WorkersAreAlone(s, t, i);
    if done < slot.len {
      var pc := Emit(resume, start, visited, done + 1);
      assert s.slots[i := slot] == s.slots;
      assert PCOk(s.slots, pc);
      hide PCOk, PCsOk, LockOk, WritersApart, FlushingOwned;
      SlotStepKeepsConsistency(s, t, i, slot, pc);
    } else {
      SlotStepKeepsConsistency(s, t, i, slot.(status := CLEAN), Scan(resume, start, visited + 1));
    }
  }

  lemma StepKeepsConsistency(s: State, e: Event)
    requires Consistent(s)
    ensures Consistent(Step(s, e))
  {
    var t := e.tid;
    assert PCOk(s.slots, At(s, t));
    hide PCsOk, LockOk, WritersApart, FlushingOwned, ClaimStep, TryWriteStep, SetLengthStep, CopyStep,
         LockStep, ScanStep, EmitStep, RotateStep, AfterLoad;
    match e {
      case Put(_, msg) => if At(s, t) == Idle { MoveKeepsConsistency(s, t, LoadCursor(msg)); }
      case FlushAll(_) => if At(s, t) == Idle { MoveKeepsConsistency(s, t, LoadStart); }
      case Run(_) =>
        match At(s, t)
        case Idle =>
        case ClaimSlot(msg, seen) => ClaimKeepsConsistency(s, t, msg, seen);
        case TryWrite(msg, i) => TryWriteKeepsConsistency(s, t, msg, i);
        case SetLength(msg, i) => SetLengthKeepsConsistency(s, t, msg, i);
        case Copy(msg, i, done) => CopyKeepsConsistency(s, t, msg, i, done);
        case TryLock(resume, start) => LockKeepsConsistency(s, t, resume, start);
        case Scan(resume, start, visited) => ScanKeepsConsistency(s, t, resume, start, visited);
        case Emit(resume, start, visited, done) => EmitKeepsConsistency(s, t, resume, start, visited, done);
        case Rotate(resume) => RotateKeepsConsistency(s, t, resume);
        case _ => LoadKeepsConsistency(s, t);
    }
  }

  function Exec(s: State, events: seq<Event>): (r: State)
    requires Consistent(s)
    ensures Consistent(r) && |r.slots| == |s.slots|
    decreases |events|
  {
    if events == [] then s
    else
      StepKeepsConsistency(s, events[0]);
      Exec(Step(s, events[0]), events[1..])
  }

  // Mutual exclusion.

  /** In every reachable state a slot has at most one writer or flusher inside it, at most one
      slot is FLUSHING, and a slot somebody works on is marked WRITING or FLUSHING. */
  lemma {:induction false} MutualExclusion(n: nat, limit: nat, events: seq<Event>)
    requires n > 0
    ensures
      var s := Exec(Init(n, limit), events);
      && (forall t, u, i | t != u && Working(|s.slots|, At(s, t)) == Some(i)
            :: Working(|s.slots|, At(s, u)) != Some(i))
      && (forall i, j | 0 <= i < |s.slots| && 0 <= j < |s.slots|
            && s.slots[i].status == FLUSHING && s.slots[j].status == FLUSHING :: i == j)
      && (forall t, i | Working(|s.slots|, At(s, t)) == Some(i)
            :: i < |s.slots| && s.slots[i].status == if At(s, t).Emit? then FLUSHING else WRITING)
  {
    var s := Exec(Init(n, limit), events);
    forall t, i | Working(|s.slots|, At(s, t)) == Some(i)
      ensures i < |s.slots| && s.slots[i].status == if At(s, t).Emit? then FLUSHING else WRITING
    {
      assert PCOk(s.slots, At(s, t));
    }
    forall t, u, i | t != u && Working(|s.slots|, At(s, t)) == Some(i)
      ensures Working(|s.slots|, At(s, u)) != Some(i)
    {
      WorkersAreAlone(s, t, i);
    }
  }

  // Conservation.

  /** What a slot owes the file. */
  function Share(slot: Slot): multiset<string> {
    if slot.status == DIRTY || slot.status == FLUSHING then multiset{Contents(slot)} else multiset{}
  }

  function Held(slots: seq<Slot>): multiset<string> {
    if slots == [] then multiset{} else Held(slots[..|slots| - 1]) + Share(slots[|slots| - 1])
  }

  lemma {:induction false} HeldUpdate(slots: seq<Slot>, i: nat, slot: Slot)
    requires i < |slots|
    ensures Held(slots[i := slot]) + Share(slots[i]) == Held(slots) + Share(slot)
  {
    hide Share;
    var k := |slots| - 1;
    if i == k {
      assert slots[i := slot][..k] == slots[..k];
    } else {
      HeldUpdate(slots[..k], i, slot);
      assert slots[i := slot][..k] == slots[..k][i := slot];
      var before, after := Held(slots[..k]), Held(slots[..k][i := slot]);
      assert Held(slots[i := slot]) == after + Share(slots[k]);
      assert after + Share(slots[k]) + Share(slots[i]) == (after + Share(slots[i])) + Share(slots[k]);
    }
  }

  lemma HeldSame(slots: seq<Slot>, i: nat, slot: Slot)
    requires i < |slots| && Share(slot) == Share(slots[i])
    ensures Held(slots[i := slot]) == Held(slots)
  {
    hide Share;
    HeldUpdate(slots, i, slot);
    assert Held(slots) == (Held(slots) + Share(slot)) - Share(slot);
    assert Held(slots[i := slot]) == (Held(slots[i := slot]) + Share(slot)) - Share(slot);
  }

  /** The bytes of the slot being emitted that are already in the file. */
  function Partial(s: State): string
    requires Consistent(s)
  {
    if s.lock.Some? && s.threads[s.lock.value].Emit? then
      var Emit(_, start, visited, done) := s.threads[s.lock.value];
      assert PCOk(s.slots, s.threads[s.lock.value]);
      s.slots[Visiting(|s.slots|, start, visited)].ctx[..done]
    else ""
  }

  /** Every successful write is either flushed or held by a slot that owes it, once. */
  ghost predicate Counted(s: State) {
    s.written == multiset(s.emitted) + Held(s.slots)
  }

  /** The files hold the flushed messages, whole and in order, then part of at most one more. */
  ghost predicate Framed(s: State)
    requires Consistent(s)
  {
    Flatten(s.files) == Flatten(s.emitted) + Partial(s)
  }

  /** Once the copy is complete the slot holds the whole message. */
  lemma CopyCompletes(s: State, t: nat)
    requires Consistent(s) && At(s, t).Copy?
    ensures At(s, t).slot < |s.slots|
    ensures var slot := s.slots[At(s, t).slot];
            slot.status == WRITING && (At(s, t).done >= slot.len ==> Contents(slot) == Stored(At(s, t).msg))
  {
    assert PCOk(s.slots, At(s, t));
  }

  lemma CopyKeepsCount(s: State, t: nat, msg: string, i: nat, done: nat)
    requires Counted(s) && i < |s.slots| && s.slots[i].len <= |s.slots[i].ctx| && s.slots[i].len <= |msg|
    requires s.slots[i].status == WRITING && (done >= s.slots[i].len ==> Contents(s.slots[i]) == Stored(msg))
    ensures Counted(CopyStep(s, t, msg, i, done))
  {
    hide Stored, Held;
    var r := CopyStep(s, t, msg, i, done);
    if done < s.slots[i].len {
      HeldSame(s.slots, i, r.slots[i]);
    } else {
      HeldUpdate(s.slots, i, r.slots[i]);
      assert Held(r.slots) == Held(s.slots) + multiset{Stored(msg)};
    }
  }

  lemma EmitKeepsCount(s: State, t: nat, resume: Resume, start: nat, visited: nat, done: nat)
    requires Counted(s) && |s.slots| > 0 && |s.files| > 0
    requires var slot := s.slots[Visiting(|s.slots|, start, visited)];
             slot.len <= |slot.ctx| && slot.status == FLUSHING
    ensures Counted(EmitStep(s, t, resume, start, visited, done))
  {
    hide Contents, Held;
    var i := Visiting(|s.slots|, start, visited);
    var r := EmitStep(s, t, resume, start, visited, done);
    if done >= s.slots[i].len {
      HeldUpdate(s.slots, i, r.slots[i]);
      assert Held(s.slots) == Held(r.slots) + multiset{Contents(s.slots[i])};
    }
  }

  lemma TryWriteKeepsCount(s: State, t: nat, msg: string, i: nat)
    requires Counted(s) && i < |s.slots|
    ensures Counted(TryWriteStep(s, t, msg, i))
  {
    hide Contents, Stored, Held;
    if s.slots[i].status == CLEAN {
      HeldSame(s.slots, i, s.slots[i].(status := WRITING));
    }
  }

  lemma SetLengthKeepsCount(s: State, t: nat, msg: string, i: nat)
    requires Counted(s) && i < |s.slots| && s.slots[i].status == WRITING
    ensures Counted(SetLengthStep(s, t, msg, i))
  {
    hide Contents, Stored, Held;
    HeldSame(s.slots, i, s.slots[i].(len := Capped(|msg|)));
  }

  lemma ScanKeepsCount(s: State, t: nat, resume: Resume, start: nat, visited: nat)
    requires Counted(s) && |s.slots| > 0
    ensures Counted(ScanStep(s, t, resume, start, visited))
  {
    hide Held;
    if visited != |s.slots| {
      var i := Visiting(|s.slots|, start, visited);
      if s.slots[i].status == DIRTY {
        HeldSame(s.slots, i, s.slots[i].(status := FLUSHING));
      }
    }
  }

  lemma WriterKeepsCount(s: State, t: nat)
    requires Consistent(s) && Counted(s) && IsWriter(At(s, t))
    ensures Counted(RunStep(s, t))
  {
    hide Held, Contents, Stored, Counted, CopyStep, SetLengthStep, LockOk, WritersApart, FlushingOwned;
    var pc := At(s, t);
    assert PCOk(s.slots, pc);
    if pc.Copy? {
      CopyCompletes(s, t);
      CopyKeepsCount(s, t, pc.msg, pc.slot, pc.done);
    } else {
      SetLengthKeepsCount(s, t, pc.msg, pc.slot);
    }
  }

  /** The steps that touch neither a slot nor the messages. */
  lemma OtherStepsKeepCount(s: State, t: nat)
    requires Consistent(s) && Counted(s)
    requires var pc := At(s, t); !IsWriter(pc) && !pc.Emit? && !pc.TryWrite? && !pc.Scan?
    ensures Counted(RunStep(s, t))
  {
    hide Consistent, Held, Contents, Stored, AfterLoad, RotationDue, PCOk;
  }

  lemma RunKeepsCount(s: State, t: nat)
    requires Consistent(s) && Counted(s)
    ensures Counted(RunStep(s, t))
  {
    hide Consistent, PCsOk, Held, Contents, Stored, Counted, TryWriteStep, SetLengthStep, CopyStep, ScanStep, EmitStep,
         AfterLoad, ClaimStep, LockStep, RotateStep;
    ThreadIsOk(s, t);
    match At(s, t)
    case Copy(_, _, _) => WriterKeepsCount(s, t);
    case SetLength(_, _) => WriterKeepsCount(s, t);
    case Emit(resume, start, visited, done) => EmitKeepsCount(s, t, resume, start, visited, done);
    case TryWrite(msg, i) => TryWriteKeepsCount(s, t, msg, i);
    case Scan(resume, start, visited) => ScanKeepsCount(s, t, resume, start, visited);
    case _ => OtherStepsKeepCount(s, t);
  }

  lemma StepKeepsCount(s: State, e: Event)
    requires Consistent(s) && Counted(s)
    ensures Counted(Step(s, e))
  {
    hide Consistent, Held, RunStep;
    RunKeepsCount(s, e.tid);
  }

  /** A step of a thread outside the flush, on a slot nobody flushes, leaves the partial
      emission as it is. */
  lemma PartialUntouched(s: State, r: State, t: nat)
    requires Consistent(s) && Consistent(r)
    requires !HoldsLock(At(s, t)) && s.lock == r.lock && |s.slots| == |r.slots|
    requires forall u :: u != t ==> At(s, u) == At(r, u)
    requires forall i | 0 <= i < |s.slots| && s.slots[i].status == FLUSHING :: r.slots[i] == s.slots[i]
    ensures Partial(r) == Partial(s)
  {
    if s.lock.Some? {
      var u := s.lock.value;
      assert At(r, u) == At(s, u);
      assert PCOk(s.slots, s.threads[u]);
    }
  }

  /** What the holder of the mutex has written of a message it has not finished. */
  lemma PartialOfHolder(s: State, t: nat)
    requires Consistent(s) && HoldsLock(At(s, t))
    ensures s.lock == Some(t)
    ensures !At(s, t).Emit? ==> Partial(s) == ""
    ensures At(s, t).Emit? ==>
              var Emit(_, start, visited, done) := At(s, t);
              && |s.slots| > 0
              && var slot := s.slots[Visiting(|s.slots|, start, visited)];
                 done <= slot.len <= |slot.ctx| && Partial(s) == slot.ctx[..done]
  {
    assert PCOk(s.slots, At(s, t));
    hide PCsOk, WritersApart, FlushingOwned;
  }

  lemma EmitKeepsFrame(s: State, t: nat, resume: Resume, start: nat, visited: nat, done: nat)
    requires Consistent(s) && Framed(s) && At(s, t) == Emit(resume, start, visited, done) && PCOk(s.slots, At(s, t))
    requires Consistent(EmitStep(s, t, resume, start, visited, done))
    ensures Framed(EmitStep(s, t, resume, start, visited, done))
  {
    hide Consistent, Partial, PCOk, Flatten, Visiting;
    ThreadIsOk(s, t);
    PartialOfHolder(s, t);
    var slot := s.slots[Visiting(|s.slots|, start, visited)];
    var r := EmitStep(s, t, resume, start, visited, done);
    PartialOfHolder(r, t);
    if done < slot.len {
      FlattenGrowLast(s.files, [slot.ctx[done]]);
      assert Partial(r) == slot.ctx[..done + 1] == slot.ctx[..done] + [slot.ctx[done]];
      Regroup(Flatten(s.emitted), slot.ctx[..done], [slot.ctx[done]]);
    } else {
      assert Partial(r) == "";
      FlattenSnoc(s.emitted, Contents(slot));
      assert Flatten(s.emitted) + Contents(slot) + "" == Flatten(s.emitted) + Contents(slot);
    }
  }

  lemma HolderKeepsFrame(s: State, t: nat)
    requires Consistent(s) && Consistent(RunStep(s, t)) && Framed(s)
    requires At(s, t).Scan? || At(s, t).Rotate? || (At(s, t).TryLock? && s.lock.None?)
    ensures Framed(RunStep(s, t))
  {
    hide PCOk, PCsOk, WritersApart, FlushingOwned, Flatten;
    var r := RunStep(s, t);
    assert Partial(s) == "" && Partial(r) == "";
    hide Partial, Consistent;
    FlattenSnoc(s.files, "");
  }

  lemma OthersKeepFrame(s: State, t: nat)
    requires Consistent(s) && Consistent(RunStep(s, t)) && Framed(s)
    requires !HoldsLock(At(s, t)) && (At(s, t).TryLock? ==> s.lock.Some?)
    ensures Framed(RunStep(s, t))
  {
    hide WritersApart, FlushingOwned, LockOk, Partial, AfterLoad, Flatten;
    var r := RunStep(s, t);
    assert PCOk(s.slots, At(s, t));
    hide PCsOk;
    PartialUntouched(s, r, t);
  }

  lemma StepKeepsFrame(s: State, e: Event)
    requires Consistent(s) && Framed(s)
    ensures Consistent(Step(s, e)) && Framed(Step(s, e))
  {
    StepKeepsConsistency(s, e);
    var t := e.tid;
    assert PCOk(s.slots, At(s, t));
    hide PCsOk, WritersApart, FlushingOwned, LockOk, Partial, ClaimStep, TryWriteStep, SetLengthStep, CopyStep,
         LockStep, ScanStep, EmitStep, RotateStep, AfterLoad;
    if e.Run? {
      match At(s, t)
      case Emit(resume, start, visited, done) => EmitKeepsFrame(s, t, resume, start, visited, done);
      case Scan(_, _, _) => HolderKeepsFrame(s, t);
      case Rotate(_) => HolderKeepsFrame(s, t);
      case TryLock(_, _) => if s.lock.None? { HolderKeepsFrame(s, t); } else { OthersKeepFrame(s, t); }
      case _ => OthersKeepFrame(s, t);
    } else if At(s, t) == Idle {
      PartialUntouched(s, Step(s, e), t);
    }
  }

  lemma {:induction false} ExecKeepsAll(s: State, events: seq<Event>)
    requires Consistent(s) && Counted(s) && Framed(s)
    ensures Counted(Exec(s, events)) && Framed(Exec(s, events))
    decreases |events|
  {
    hide PCOk, PCsOk, WritersApart, FlushingOwned, LockOk, Partial, Held, RunStep;
    if events != [] {
      StepKeepsCount(s, events[0]);
      StepKeepsFrame(s, events[0]);
      ExecKeepsAll(Step(s, events[0]), events[1..]);
    }
  }

  lemma {:induction false} NothingHeld(slots: seq<Slot>)
    requires forall i :: 0 <= i < |slots| ==> slots[i].status == CLEAN || slots[i].status == WRITING
    ensures Held(slots) == multiset{}
  {
    if slots != [] {
      NothingHeld(slots[..|slots| - 1]);
    }
  }

  lemma InitHolds(n: nat, limit: nat)
    requires n > 0
    ensures Counted(Init(n, limit)) && Framed(Init(n, limit))
  {
    NothingHeld(Init(n, limit).slots);
    assert [""][..0] == [];
  }

  /** The emission under way has copied the whole slot but not yet released it. */
  predicate EmissionComplete(s: State)
    requires Consistent(s)
  {
    s.lock.Some? && s.threads[s.lock.value].Emit? &&
    var Emit(_, start, visited, done) := s.threads[s.lock.value];
    done >= s.slots[Visiting(|s.slots|, start, visited)].len
  }

  /** The messages that are in the files from first to last byte, in file order. */
  function InFiles(s: State): seq<string>
    requires Consistent(s)
  {
    if EmissionComplete(s) then s.emitted + [Partial(s)] else s.emitted
  }

  /** The messages of the DIRTY slots and of a FLUSHING slot not yet wholly emitted. */
  function NotInFiles(s: State): multiset<string>
    requires Consistent(s)
  {
    if EmissionComplete(s) then Held(s.slots) - multiset{Partial(s)} else Held(s.slots)
  }

  function Torn(s: State): string
    requires Consistent(s)
  {
    if EmissionComplete(s) then "" else Partial(s)
  }

  lemma {:induction false} HeldContains(slots: seq<Slot>, i: nat)
    requires i < |slots| && (slots[i].status == DIRTY || slots[i].status == FLUSHING)
    ensures Contents(slots[i]) in Held(slots)
  {
    if i < |slots| - 1 {
      HeldContains(slots[..|slots| - 1], i);
    }
  }

  lemma EmissionUnderWay(s: State)
    requires Consistent(s) && s.lock.Some? && s.threads[s.lock.value].Emit?
    ensures exists msg :: msg in Held(s.slots) && Partial(s) <= msg && (EmissionComplete(s) <==> Partial(s) == msg)
  {
    assert PCOk(s.slots, s.threads[s.lock.value]);
    var Emit(_, start, visited, done) := s.threads[s.lock.value];
    var i := Visiting(|s.slots|, start, visited);
    HeldContains(s.slots, i);
    assert Partial(s) == Contents(s.slots[i])[..done];
    if Partial(s) == Contents(s.slots[i]) {
      assert |Partial(s)| == done;
    }
  }

  lemma ConservationSplits(s: State)
    requires Consistent(s) && Counted(s) && Framed(s)
    ensures s.written == multiset(InFiles(s)) + NotInFiles(s)
    ensures Flatten(s.files) == Flatten(InFiles(s)) + Torn(s)
    ensures Torn(s) != "" ==> exists msg :: msg in NotInFiles(s) && Torn(s) < msg
  {
    if s.lock.Some? && s.threads[s.lock.value].Emit? {
      EmissionUnderWay(s);
    }
    hide Held, PCOk, PCsOk, WritersApart, FlushingOwned, LockOk;
    if EmissionComplete(s) {
      CompleteEmissionSplits(s);
    }
  }

  lemma CompleteEmissionSplits(s: State)
    requires Consistent(s) && Counted(s) && Framed(s)
    requires EmissionComplete(s) && Partial(s) in Held(s.slots)
    ensures s.written == multiset(InFiles(s)) + NotInFiles(s)
    ensures Flatten(s.files) == Flatten(InFiles(s)) + Torn(s)
  {
    hide Held, Consistent, EmissionComplete, Partial, Flatten;
    FlattenSnoc(s.emitted, Partial(s));
    assert Held(s.slots) == NotInFiles(s) + multiset{Partial(s)};
  }

  /** For any number of threads and any interleaving: the messages whose write returned 0 are
      the messages wholly in the files plus those of the slots still to be emitted, each
      counted once; and the files hold nothing else, except a prefix of one such message. */
  lemma {:induction false} EveryWriteEmittedOnce(n: nat, limit: nat, events: seq<Event>)
    requires n > 0
    ensures
      var s := Exec(Init(n, limit), events);
      && s.written == multiset(InFiles(s)) + NotInFiles(s)
      && Flatten(s.files) == Flatten(InFiles(s)) + Torn(s)
      && (Torn(s) != "" ==> exists msg :: msg in NotInFiles(s) && Torn(s) < msg)
  {
    InitHolds(n, limit);
    ExecKeepsAll(Init(n, limit), events);
    ConservationSplits(Exec(Init(n, limit), events));
  }

  /** Once every slot is clean the files hold exactly the successfully written messages, each
      whole and once. */
  lemma {:induction false} DrainedRing(n: nat, limit: nat, events: seq<Event>)
    requires n > 0
    requires forall i :: 0 <= i < n ==> Exec(Init(n, limit), events).slots[i].status == CLEAN
    ensures
      var s := Exec(Init(n, limit), events);
      s.written == multiset(s.emitted) && Flatten(s.files) == Flatten(s.emitted)
  {
    InitHolds(n, limit);
    ExecKeepsAll(Init(n, limit), events);
    DrainedState(Exec(Init(n, limit), events));
  }

  lemma DrainedState(s: State)
    requires Consistent(s) && Counted(s) && Framed(s)
    requires forall i :: 0 <= i < |s.slots| ==> s.slots[i].status == CLEAN
    ensures s.written == multiset(s.emitted) && Flatten(s.files) == Flatten(s.emitted)
  {
    NothingHeld(s.slots);
    if s.lock.Some? && s.threads[s.lock.value].Emit? {
      EmissionUnderWay(s);
    }
  }

  // Not every put is written.

  /** A put loses its message exactly when its last compare-and-swap finds the slot not clean. */
  lemma DropsExactlyWhenSlotIsTaken(s: State, e: Event)
    requires Consistent(s)
    requires At(s, e.tid).TryWrite? ==> At(s, e.tid).slot < |s.slots|
    ensures Step(s, e).dropped != s.dropped
       <==> e.Run? && At(s, e.tid).TryWrite? && s.slots[At(s, e.tid).slot].status != CLEAN
    ensures Step(s, e).dropped != s.dropped ==> Step(s, e).dropped == s.dropped + multiset{Stored(At(s, e.tid).msg)}
  {
    assert PCOk(s.slots, At(s, e.tid));
    hide PCsOk, LockOk, WritersApart, FlushingOwned, AfterLoad;
    if At(s, e.tid).TryWrite? {
      assert |s.dropped + multiset{Stored(At(s, e.tid).msg)}| == |s.dropped| + 1;
    }
  }

  /** Put's two waits: the first lasts while the slot is being written or emitted, the second while it
      is dirty, and not a step longer. */
  lemma WaitsExactlyWhile(s: State, t: nat)
    requires Consistent(s) && (At(s, t).AwaitAvailable? || At(s, t).AwaitFlushed?)
    ensures At(s, t).slot < |s.slots|
    ensures var status := s.slots[At(s, t).slot].status;
      Step(s, Run(t)) == s <==> if At(s, t).AwaitAvailable? then status in {WRITING, FLUSHING} else status == DIRTY
  {
    assert PCOk(s.slots, At(s, t));
    hide Consistent, PCsOk;
    assert s.threads[t := At(s, t)] == s.threads;
    assert At(Step(s, Run(t)), t) == AfterLoad(s, At(s, t));
  }

  lemma {:induction false} ExecSnoc(s: State, events: seq<Event>, e: Event)
    requires Consistent(s)
    ensures Exec(s, events + [e]) == Step(Exec(s, events), e)
    decreases |events|
  {
    hide Consistent, PCOk, RunStep;
    if events == [] {
      assert ([] + [e])[1..] == [];
      StepKeepsConsistency(s, e);
    } else {
      StepKeepsConsistency(s, events[0]);
      assert (events + [e])[1..] == events[1..] + [e];
      ExecSnoc(Step(s, events[0]), events[1..], e);
    }
  }
}
