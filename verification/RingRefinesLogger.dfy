/** Calls that do not overlap make the interleaved ring, step by atomic step, do what the logger of
    LoggerModel does call by call. */
module RingRefinesLogger {
  import opened LogFiles
  import opened RingCalls
  import opened RingFlush
  import opened RingProtocol
  import opened Streams
  import opened Wrappers
  import L = LoggerModel

  // The ring as a logger.

  function SlotView(slot: Slot): Option<string> {
    if slot.status == DIRTY then Some(Contents(slot)) else None
  }

  /** The files in order are the revisions 0, 1, 2 and so on; nothing compresses them. */
  function View(s: State): (l: L.Logger)
    requires |s.files| > 0
    ensures |l.slots| == |s.slots| && l.cursor == s.cursor
  {
    var last := |s.files| - 1;
    L.Logger(seq(|s.slots|, i requires 0 <= i < |s.slots| => SlotView(s.slots[i])), s.cursor, s.files[last],
             map r: nat | 0 <= r < last :: s.files[r], map[], last, 0, [], None, 0, s.limit, 0, false)
  }

  // What the call under way will have done when it returns.

  function WriteAt(l: L.Logger, i: nat, msg: string): L.Logger
    requires i < |l.slots|
  {
    l.(slots := l.slots[i := Some(Stored(msg))])
  }

  /** A put that has claimed slot i. */
  function Claimed(l: L.Logger, i: nat, msg: string): L.Logger
    requires i < |l.slots|
  {
    WriteAt(if l.slots[i].Some? then L.Flush(l, i) else l, i, msg)
  }

  function Resumed(l: L.Logger, resume: Resume): L.Logger
    requires ResumeOk(|l.slots|, resume)
  {
    match resume
    case ThenWrite(msg, i) => WriteAt(l, i, msg)
    case ThenStop => l
  }

  /** What is still to be emitted of a slot. */
  function Rest(slot: Slot, done: nat): string {
    if done <= |Contents(slot)| then Contents(slot)[done..] else ""
  }

  function Emitted(l: L.Logger, rest: string): L.Logger {
    l.(active := l.active + rest)
  }

  function Flushed(l: L.Logger, start: nat, resume: Resume): L.Logger
    requires start < |l.slots| && ResumeOk(|l.slots|, resume)
  {
    Resumed(L.Flush(l, start), resume)
  }

  function Completed(s: State, pc: PC): L.Logger
    requires |s.files| > 0 && s.cursor < |s.slots| && PCOk(s.slots, pc)
  {
    match pc
    case Idle => View(s)
    case LoadCursor(msg) => L.Put(View(s), msg)
    case ClaimSlot(msg, _) => L.Put(View(s), msg)
    case AwaitAvailable(msg, i) => Claimed(View(s), i, msg)
    case CheckDirty(msg, i) => Claimed(View(s), i, msg)
    case AwaitFlushed(_, _) => View(s)
    case TryWrite(msg, i) => WriteAt(View(s), i, msg)
    case SetLength(msg, i) => WriteAt(View(s), i, msg)
    case Copy(msg, i, _) => WriteAt(View(s), i, msg)
    case LoadStart => L.Flush(View(s), s.cursor)
    case TryLock(resume, start) => Flushed(View(s), start, resume)
    case Scan(resume, start, _) => Flushed(View(s), start, resume)
    case Emit(resume, start, visited, done) =>
      Flushed(Emitted(View(s), Rest(s.slots[Visiting(|s.slots|, start, visited)], done)), start, resume)
    case Rotate(resume) => Flushed(View(s), 0, resume)
  }

  predicate VisitedClean(slots: seq<Slot>, start: nat, visited: nat) {
    |slots| > 0 && forall j :: 0 <= j < visited ==> slots[Visiting(|slots|, start, j)].status == CLEAN
  }

  /** Alone, a call finds the cursor where it read it, and the slots its flush has visited clean. */
  predicate Behind(slots: seq<Slot>, cursor: nat, pc: PC) {
    match pc
    case ClaimSlot(_, seen) => seen == cursor
    case Scan(_, start, visited) => VisitedClean(slots, start, visited)
    case Emit(_, start, visited, _) => VisitedClean(slots, start, visited)
    case Rotate(_) => forall i :: 0 <= i < |slots| ==> slots[i].status == CLEAN
    case _ => true
  }

  predicate Fits(s: State, t: nat) {
    |s.files| > 0 && s.cursor < |s.slots| && PCOk(s.slots, At(s, t))
  }

  function Future(s: State, t: nat): L.Logger
    requires Fits(s, t)
  {
    Completed(s, At(s, t))
  }

  /** A step of t, alone, that leaves what its call will have done as it was. */
  predicate SameFuture(s: State, r: State, t: nat)
    requires Fits(s, t)
  {
    Fits(r, t) && Behind(r.slots, r.cursor, At(r, t)) && Future(r, t) == Future(s, t)
  }

  lemma AlwaysFits(s: State, t: nat)
    requires Consistent(s)
    ensures Fits(s, t)
  {
  }

  // Views.

  lemma ViewOfUpdate(s: State, i: nat, slot: Slot)
    requires |s.files| > 0 && i < |s.slots|
    ensures View(s.(slots := s.slots[i := slot])) == View(s).(slots := View(s).slots[i := SlotView(slot)])
    ensures SlotView(slot) == SlotView(s.slots[i]) ==> View(s.(slots := s.slots[i := slot])) == View(s)
  {
    hide SlotView;
    var t := s.(slots := s.slots[i := slot]);
    assert View(t).slots == View(s).slots[i := SlotView(slot)];
    assert SlotView(slot) == SlotView(s.slots[i]) ==> View(s).slots[i := SlotView(slot)] == View(s).slots;
  }

  lemma ViewIgnoresThreads(s: State, t: nat, pc: PC)
    requires |s.files| > 0
    ensures View(Goto(s, t, pc)) == View(s)
  {
    hide SlotView;
    assert View(Goto(s, t, pc)).slots == View(s).slots;
  }

  // Steps.

  lemma LoadsKeepFuture(s: State, t: nat)
    requires Fits(s, t) && !HoldsLock(At(s, t)) && !IsWriter(At(s, t)) && !At(s, t).AwaitFlushed?
    requires Fits(Goto(s, t, AfterLoad(s, At(s, t))), t)
    requires Behind(s.slots, s.cursor, At(s, t))
    ensures SameFuture(s, Goto(s, t, AfterLoad(s, At(s, t))), t)
  {
    hide L.Put, L.Flush, View, Contents, WriteAt;
    ViewIgnoresThreads(s, t, AfterLoad(s, At(s, t)));
    var pc := At(s, t);
    if pc.CheckDirty? {
      SlotOfView(s, pc.slot);
    }
  }

  lemma SlotOfView(s: State, i: nat)
    requires |s.files| > 0 && i < |s.slots|
    ensures View(s).slots[i].Some? <==> s.slots[i].status == DIRTY
  {
  }

  lemma ClaimKeepsFuture(s: State, t: nat, msg: string, seen: nat)
    requires At(s, t) == ClaimSlot(msg, seen) && Fits(s, t) && seen == s.cursor
    requires Fits(ClaimStep(s, t, msg, seen), t)
    ensures SameFuture(s, ClaimStep(s, t, msg, seen), t)
  {
    hide L.Flush, SlotView;
    var r := ClaimStep(s, t, msg, seen);
    assert View(r).slots == View(s).slots;
    assert View(r) == View(s).(cursor := (seen + 1) % |s.slots|);
  }

  lemma LockKeepsFuture(s: State, t: nat, resume: Resume, start: nat)
    requires At(s, t) == TryLock(resume, start) && Fits(s, t) && s.lock.None? && |s.slots| > 0
    requires Fits(LockStep(s, t, resume, start), t)
    ensures SameFuture(s, LockStep(s, t, resume, start), t)
  {
    hide L.Flush, SlotView, Flushed;
    var r := LockStep(s, t, resume, start);
    assert View(r).slots == View(s).slots;
  }

  lemma TryWriteKeepsFuture(s: State, t: nat, msg: string, i: nat)
    requires At(s, t) == TryWrite(msg, i) && Fits(s, t) && s.slots[i].status == CLEAN
    requires Fits(TryWriteStep(s, t, msg, i), t)
    ensures SameFuture(s, TryWriteStep(s, t, msg, i), t)
  {
    hide View, Contents, WriteAt;
    ViewOfUpdate(s, i, s.slots[i].(status := WRITING));
    ViewIgnoresThreads(SetStatus(s, i, WRITING), t, SetLength(msg, i));
  }

  lemma SetLengthKeepsFuture(s: State, t: nat, msg: string, i: nat)
    requires At(s, t) == SetLength(msg, i) && Fits(s, t)
    requires Fits(SetLengthStep(s, t, msg, i), t)
    ensures SameFuture(s, SetLengthStep(s, t, msg, i), t)
  {
    hide View, Contents, WriteAt;
    var slot := s.slots[i].(len := Capped(|msg|));
    ViewOfUpdate(s, i, slot);
    ViewIgnoresThreads(s.(slots := s.slots[i := slot]), t, Copy(msg, i, 0));
  }

  lemma CopyKeepsFuture(s: State, t: nat, msg: string, i: nat, done: nat)
    requires At(s, t) == Copy(msg, i, done) && Fits(s, t)
    requires done >= s.slots[i].len ==> Contents(s.slots[i]) == Stored(msg)
    requires s.slots[i].len <= |msg| && Fits(CopyStep(s, t, msg, i, done), t)
    ensures SameFuture(s, CopyStep(s, t, msg, i, done), t)
  {
    hide View, Stored, WriteAt;
    var slot := s.slots[i];
    if done < slot.len {
      var copied := slot.(ctx := slot.ctx[done := msg[done]]);
      ViewOfUpdate(s, i, copied);
      ViewIgnoresThreads(s.(slots := s.slots[i := copied]), t, Copy(msg, i, done + 1));
    } else {
      ViewOfUpdate(s, i, slot.(status := DIRTY));
      assert SlotView(slot.(status := DIRTY)) == Some(Stored(msg));
      ViewIgnoresThreads(SetStatus(s, i, DIRTY), t, Idle);
      ViewIgnoresWritten(Goto(SetStatus(s, i, DIRTY), t, Idle), s.written + multiset{Stored(msg)});
      hide Contents, SlotView;
      assert Future(s, t) == WriteAt(View(s), i, msg);
      assert View(CopyStep(s, t, msg, i, done)) == View(s).(slots := View(s).slots[i := Some(Stored(msg))]);
      WriteAtIs(View(s), i, msg);
    }
  }

  lemma WriteAtIs(l: L.Logger, i: nat, msg: string)
    requires i < |l.slots|
    ensures WriteAt(l, i, msg) == l.(slots := l.slots[i := Some(Stored(msg))])
  {
  }

  lemma ViewIgnoresWritten(s: State, written: multiset<string>)
    requires |s.files| > 0
    ensures View(s.(written := written)) == View(s)
  {
    hide SlotView;
    assert View(s.(written := written)).slots == View(s).slots;
  }

  // A flush, slot by slot.

  lemma {:induction false} FirstDirty(round: seq<Option<string>>, k: nat, msg: string)
    requires k < |round| && round[k] == Some(msg) && forall j :: 0 <= j < k ==> round[j].None?
    ensures Flatten(L.Dirty(round)) == msg + Flatten(L.Dirty(round[k := None]))
  {
    var front, rest := round[..k], round[k + 1..];
    SkipsFront(front, Some(msg), rest);
    SkipsFront(front, None, rest);
    assert round == front + [Some(msg)] + rest;
    assert round[k := None] == front + [None] + rest;
    assert [] + L.Dirty(rest) == L.Dirty(rest);
    FlattenAppend([msg], L.Dirty(rest));
    FlattenOne(msg);
  }

  lemma FlattenOne(msg: string)
    ensures Flatten([msg]) == msg
  {
    FlattenSnoc([], msg);
    assert [] + [msg] == [msg];
    assert "" + msg == msg;
  }

  lemma {:induction false} SkipsFront(front: seq<Option<string>>, x: Option<string>, rest: seq<Option<string>>)
    requires forall j :: 0 <= j < |front| ==> front[j].None?
    ensures L.Dirty(front + [x] + rest) == (if x.Some? then [x.value] else []) + L.Dirty(rest)
  {
    L.DirtyOfClean(front);
    L.DirtyAppend(front, [x]);
    L.DirtyAppend(front + [x], rest);
    assert [x][..0] == [];
    assert L.Dirty([x]) == if x.Some? then [x.value] else [];
  }

  lemma RotatedVisits(slots: seq<Option<string>>, start: nat, j: nat)
    requires start < |slots| && j < |slots|
    ensures L.Rotated(slots, start)[j] == slots[Visiting(|slots|, start, j)]
  {
    VisitingIs(|slots|, start, j);
  }

  lemma RotatedUpdates(slots: seq<Option<string>>, start: nat, k: nat, x: Option<string>)
    requires start < |slots| && k < |slots|
    ensures L.Rotated(slots[Visiting(|slots|, start, k) := x], start) == L.Rotated(slots, start)[k := x]
  {
    hide Visiting;
    VisitingIs(|slots|, start, k);
    var i := Visiting(|slots|, start, k);
    if start + k < |slots| {
      assert slots[i := x][start..] == slots[start..][k := x];
      assert slots[i := x][..start] == slots[..start];
    } else {
      assert slots[i := x][start..] == slots[start..];
      assert slots[i := x][..start] == slots[..start][i := x];
    }
  }

  /** Emitting the first dirty slot of the round first makes no difference. */
  lemma FlushFirst(l: L.Logger, start: nat, k: nat, msg: string)
    requires start < |l.slots| && k < |l.slots| && l.slots[Visiting(|l.slots|, start, k)] == Some(msg)
    requires forall j :: 0 <= j < k ==> l.slots[Visiting(|l.slots|, start, j)].None?
    ensures var i := Visiting(|l.slots|, start, k);
      L.Flush(Emitted(l.(slots := l.slots[i := None]), msg), start) == L.Flush(l, start)
  {
    hide Visiting, L.Dirty, Flatten, L.NextRevision, RotationDue, L.Rotated;
    var round := L.Rotated(l.slots, start);
    forall j | 0 <= j < k ensures round[j].None? {
      RotatedVisits(l.slots, start, j);
    }
    RotatedVisits(l.slots, start, k);
    FirstDirty(round, k, msg);
    RotatedUpdates(l.slots, start, k, None);
    Regroup(l.active, msg, Flatten(L.Dirty(round[k := None])));
  }

  /** With nothing dirty a flush only rotates, wherever it starts. */
  lemma CleanFlush(l: L.Logger, start: nat)
    requires start <= |l.slots| && forall i :: 0 <= i < |l.slots| ==> l.slots[i].None?
    ensures L.Flush(l, start) == if RotationDue(l.limit, |l.active|) then L.NextRevision(l) else l
  {
    hide Flatten, L.Dirty, L.NextRevision, RotationDue;
    assert l.slots == L.AllClean(|l.slots|);
    L.CleanRingIsEmpty(|l.slots|, start);
    assert l.active + "" == l.active;
  }

  lemma ScanOnKeepsFuture(s: State, t: nat, resume: Resume, start: nat, visited: nat)
    requires At(s, t) == Scan(resume, start, visited) && Fits(s, t) && VisitedClean(s.slots, start, visited)
    requires visited < |s.slots| && s.slots[Visiting(|s.slots|, start, visited)].status == CLEAN
    ensures SameFuture(s, ScanStep(s, t, resume, start, visited), t)
  {
    hide View, Flushed, Visiting;
    ViewIgnoresThreads(s, t, Scan(resume, start, visited + 1));
  }

  lemma StartEmitKeepsFuture(s: State, t: nat, resume: Resume, start: nat, visited: nat)
    requires At(s, t) == Scan(resume, start, visited) && Fits(s, t) && VisitedClean(s.slots, start, visited)
    requires visited < |s.slots| && s.slots[Visiting(|s.slots|, start, visited)].status == DIRTY
    requires Fits(ScanStep(s, t, resume, start, visited), t)
    ensures SameFuture(s, ScanStep(s, t, resume, start, visited), t)
  {
    hide View, L.Flush, Visiting, Contents, Resumed;
    var i := Visiting(|s.slots|, start, visited);
    var slot := s.slots[i].(status := FLUSHING);
    SlotOfView(s, i);
    ViewAt(s, i);
    forall j | 0 <= j < visited ensures View(s).slots[Visiting(|s.slots|, start, j)].None? {
      SlotOfView(s, Visiting(|s.slots|, start, j));
    }
    FlushFirst(View(s), start, visited, Contents(s.slots[i]));
    ViewOfUpdate(s, i, slot);
    ViewIgnoresThreads(s.(slots := s.slots[i := slot]), t, Emit(resume, start, visited, 0));
    SameContents(s.slots[i], slot);
  }

  lemma ViewAt(s: State, i: nat)
    requires |s.files| > 0 && i < |s.slots|
    ensures View(s).slots[i] == SlotView(s.slots[i])
  {
  }

  lemma SameContents(slot: Slot, slot': Slot)
    requires slot.len == slot'.len && slot.ctx == slot'.ctx
    ensures Contents(slot) == Contents(slot') == Rest(slot', 0)
  {
  }

  lemma StartRotateKeepsFuture(s: State, t: nat, resume: Resume, start: nat)
    requires At(s, t) == Scan(resume, start, |s.slots|) && Fits(s, t) && VisitedClean(s.slots, start, |s.slots|)
    requires Fits(ScanStep(s, t, resume, start, |s.slots|), t)
    ensures SameFuture(s, ScanStep(s, t, resume, start, |s.slots|), t)
  {
    hide View, L.Flush, Visiting, Resumed;
    forall i | 0 <= i < |s.slots| ensures s.slots[i].status == CLEAN && View(s).slots[i].None? {
      EachSlotHasOneTurn(|s.slots|, start, i, Turn(|s.slots|, start, i));
      assert s.slots[Visiting(|s.slots|, start, Turn(|s.slots|, start, i))].status == CLEAN;
      SlotOfView(s, i);
    }
    CleanFlush(View(s), start);
    CleanFlush(View(s), 0);
    ViewIgnoresThreads(s, t, Rotate(resume));
  }

  lemma ViewGrows(s: State, c: char)
    requires |s.files| > 0
    ensures var last := |s.files| - 1;
      View(s.(files := s.files[last := s.files[last] + [c]])) == View(s).(active := View(s).active + [c])
  {
    hide SlotView;
    var last := |s.files| - 1;
    var r := s.(files := s.files[last := s.files[last] + [c]]);
    assert View(r).slots == View(s).slots;
    assert View(r).closed == View(s).closed;
  }

  lemma RestStep(slot: Slot, done: nat)
    requires slot.len <= |slot.ctx| && done <= slot.len
    ensures done < slot.len ==> Rest(slot, done) == [slot.ctx[done]] + Rest(slot, done + 1)
    ensures done >= slot.len ==> Rest(slot, done) == ""
  {
  }

  lemma EmitByteKeepsFuture(s: State, t: nat, resume: Resume, start: nat, visited: nat, done: nat)
    requires At(s, t) == Emit(resume, start, visited, done) && Fits(s, t) && VisitedClean(s.slots, start, visited)
    requires var slot := s.slots[Visiting(|s.slots|, start, visited)]; slot.len <= |slot.ctx| && done < slot.len
    requires Fits(EmitStep(s, t, resume, start, visited, done), t)
    ensures SameFuture(s, EmitStep(s, t, resume, start, visited, done), t)
  {
    hide View, L.Flush, Visiting, Resumed, Rest;
    var slot, last := s.slots[Visiting(|s.slots|, start, visited)], |s.files| - 1;
    RestStep(slot, done);
    ViewGrows(s, slot.ctx[done]);
    ViewIgnoresThreads(s.(files := s.files[last := s.files[last] + [slot.ctx[done]]]), t,
                       Emit(resume, start, visited, done + 1));
    Regroup(View(s).active, [slot.ctx[done]], Rest(slot, done + 1));
  }

  lemma EmitEndKeepsFuture(s: State, t: nat, resume: Resume, start: nat, visited: nat, done: nat)
    requires At(s, t) == Emit(resume, start, visited, done) && Fits(s, t) && VisitedClean(s.slots, start, visited)
    requires var slot := s.slots[Visiting(|s.slots|, start, visited)]; slot.len <= |slot.ctx| && done >= slot.len
    requires Fits(EmitStep(s, t, resume, start, visited, done), t)
    ensures SameFuture(s, EmitStep(s, t, resume, start, visited, done), t)
  {
    hide View, L.Flush, Visiting, Resumed, Rest, Contents;
    var i := Visiting(|s.slots|, start, visited);
    var slot := s.slots[i];
    RestStep(slot, done);
    ViewOfUpdate(s, i, slot.(status := CLEAN));
    ViewIgnoresThreads(SetStatus(s, i, CLEAN), t, Scan(resume, start, visited + 1));
    ViewIgnoresEmitted(Goto(SetStatus(s, i, CLEAN), t, Scan(resume, start, visited + 1)), s.emitted + [Contents(slot)]);
    assert View(s).active + "" == View(s).active;
  }

  lemma ViewIgnoresEmitted(s: State, emitted: seq<string>)
    requires |s.files| > 0
    ensures View(s.(emitted := emitted)) == View(s)
  {
    hide SlotView;
    assert View(s.(emitted := emitted)).slots == View(s).slots;
  }

  lemma ViewRotates(s: State, r: State)
    requires |s.files| > 0 && r.slots == s.slots && r.cursor == s.cursor && r.limit == s.limit
    ensures r.files == s.files ==> View(r) == View(s)
    ensures r.files == s.files + [""] ==> View(r) == L.NextRevision(View(s))
  {
    hide SlotView;
    assert |r.files| > 0 ==> View(r).slots == View(s).slots;
    if r.files == s.files + [""] {
      assert View(r).closed == View(s).closed[View(s).cur := View(s).active] - {View(s).cur + 1};
    }
  }

  lemma RotateKeepsFuture(s: State, t: nat, resume: Resume)
    requires At(s, t) == Rotate(resume) && Fits(s, t) && Behind(s.slots, s.cursor, At(s, t))
    requires Fits(RotateStep(s, t, resume), t)
    ensures SameFuture(s, RotateStep(s, t, resume), t)
  {
    hide View, L.Flush, L.NextRevision, WriteAt, RotationDue;
    forall i | 0 <= i < |s.slots| ensures View(s).slots[i].None? {
      SlotOfView(s, i);
    }
    CleanFlush(View(s), 0);
    ViewActive(s);
    ViewRotates(s, RotateStep(s, t, resume));
  }

  lemma ViewActive(s: State)
    requires |s.files| > 0
    ensures View(s).active == s.files[|s.files| - 1] && View(s).limit == s.limit
  {
  }

  // Runs.

  lemma CopiesItsMessage(s: State, t: nat)
    requires Consistent(s) && At(s, t).Copy?
    ensures At(s, t).slot < |s.slots|
    ensures s.slots[At(s, t).slot].len <= |At(s, t).msg|
    ensures At(s, t).done >= s.slots[At(s, t).slot].len ==> Contents(s.slots[At(s, t).slot]) == Stored(At(s, t).msg)
  {
    CopyCompletes(s, t);
    assert PCOk(s.slots, At(s, t));
    hide Contents, Stored;
  }

  /** What a thread that runs alone finds in the slot it turns to. */
  lemma FindsSlot(s: State, t: nat)
    requires Consistent(s) && Solo(s, t)
    ensures !HoldsLock(At(s, t)) ==> s.lock.None?
    ensures At(s, t).TryWrite? ==> At(s, t).slot < |s.slots| && s.slots[At(s, t).slot].status == CLEAN
    ensures At(s, t).Scan? && At(s, t).visited < |s.slots| ==>
              var status := s.slots[Visiting(|s.slots|, At(s, t).start, At(s, t).visited)].status;
              status == CLEAN || status == DIRTY
    ensures At(s, t).Emit? ==>
              && At(s, t).visited < |s.slots|
              && var slot := s.slots[Visiting(|s.slots|, At(s, t).start, At(s, t).visited)]; slot.len <= |slot.ctx|
    ensures At(s, t).Scan? ==> At(s, t).visited <= |s.slots|
  {
    ThreadIsOk(s, t);
    var pc := At(s, t);
    if pc.Scan? && pc.visited < |s.slots| {
      SoloFinds(s, t, Visiting(|s.slots|, pc.start, pc.visited));
    }
    if s.lock.Some? {
      assert At(s, s.lock.value) != Idle;
    }
  }

  /** Only t is inside a call, and as far as a call gets that runs alone. */
  ghost predicate OnItsWay(s: State, t: nat) {
    Consistent(s) && Solo(s, t) && Behind(s.slots, s.cursor, At(s, t))
  }

  lemma RunKeepsFuture(s: State, t: nat)
    requires OnItsWay(s, t)
    ensures Fits(s, t) && SameFuture(s, RunStep(s, t), t)
  {
    ThreadIsOk(s, t);
    FindsSlot(s, t);
    assert !At(s, t).AwaitFlushed?;
    StepKeepsConsistency(s, Run(t));
    assert Step(s, Run(t)) == RunStep(s, t);
    AlwaysFits(s, t);
    AlwaysFits(RunStep(s, t), t);
    hide Consistent, Solo, Fits, SameFuture, AfterLoad, ClaimStep, TryWriteStep, SetLengthStep, CopyStep, LockStep,
         ScanStep, EmitStep, RotateStep, PCOk, Contents, Visiting;
    match At(s, t)
    case Idle => StandsStill(s, t);
    case ClaimSlot(msg, seen) => ClaimKeepsFuture(s, t, msg, seen);
    case TryWrite(msg, i) => TryWriteKeepsFuture(s, t, msg, i);
    case SetLength(msg, i) => SetLengthKeepsFuture(s, t, msg, i);
    case Copy(msg, i, done) =>
      CopiesItsMessage(s, t);
      CopyKeepsFuture(s, t, msg, i, done);
    case TryLock(resume, start) => LockKeepsFuture(s, t, resume, start);
    case Scan(resume, start, visited) =>
      if visited == |s.slots| {
        StartRotateKeepsFuture(s, t, resume, start);
      } else if s.slots[Visiting(|s.slots|, start, visited)].status == DIRTY {
        StartEmitKeepsFuture(s, t, resume, start, visited);
      } else {
        ScanOnKeepsFuture(s, t, resume, start, visited);
      }
    case Emit(resume, start, visited, done) =>
      if done < s.slots[Visiting(|s.slots|, start, visited)].len {
        EmitByteKeepsFuture(s, t, resume, start, visited, done);
      } else {
        EmitEndKeepsFuture(s, t, resume, start, visited, done);
      }
    case Rotate(resume) => RotateKeepsFuture(s, t, resume);
    case _ => LoadsKeepFuture(s, t);
  }

  lemma StandsStill(s: State, t: nat)
    requires At(s, t) == Idle && Fits(s, t)
    ensures SameFuture(s, s, t)
  {
  }

  /** The call an event makes, for the logger. */
  function Call(s: State, e: Event): seq<L.Event> {
    if At(s, e.tid) != Idle then []
    else
      match e
      case Put(_, msg) => [L.PutEvent(msg)]
      case FlushAll(_) => [L.FlushEvent]
      case Run(_) => []
  }

  function Calls(s: State, events: seq<Event>): seq<L.Event>
    requires Consistent(s)
    decreases |events|
  {
    if events == [] then []
    else
      StepKeepsConsistency(s, events[0]);
      Call(s, events[0]) + Calls(Step(s, events[0]), events[1..])
  }

  /** The logger after the call, if there is one. */
  function Called(l: L.Logger, call: seq<L.Event>): L.Logger {
    if call == [] || l.cursor >= |l.slots| then l
    else
      match call[0]
      case PutEvent(msg) => L.Put(l, msg)
      case FlushEvent => L.FlushAll(l)
      case _ => l
  }

  lemma CallBegins(s: State, e: Event, t: nat)
    requires Consistent(s) && Fits(s, e.tid) && Fits(s, t) && Quiet(s) && !e.Run?
    requires Fits(Step(s, e), e.tid)
    ensures Future(Step(s, e), e.tid) == Called(Future(s, t), Call(s, e))
    ensures Behind(Step(s, e).slots, Step(s, e).cursor, At(Step(s, e), e.tid))
  {
    assert At(s, e.tid) == Idle && At(s, t) == Idle;
    hide Consistent, View, L.Put, L.Flush;
    ViewIgnoresThreads(s, e.tid, if e.Put? then LoadCursor(e.msg) else LoadStart);
  }

  lemma OwnRunRefines(s: State, t: nat)
    requires OnItsWay(s, t)
    ensures OnItsWay(Step(s, Run(t)), t) && Fits(s, t) && Fits(Step(s, Run(t)), t)
    ensures Future(Step(s, Run(t)), t) == Future(s, t)
  {
    RunKeepsFuture(s, t);
    StepKeepsConsistency(s, Run(t));
    SoloRun(s, t);
    hide Consistent, Solo, RunStep;
  }

  /** A call that begins when no other is under way. */
  lemma CallRefines(s: State, t: nat, e: Event)
    requires OnItsWay(s, t) && Quiet(s) && !e.Run?
    ensures OnItsWay(Step(s, e), e.tid) && Fits(s, t) && Fits(Step(s, e), e.tid)
    ensures Future(Step(s, e), e.tid) == Called(Future(s, t), Call(s, e))
  {
    StepKeepsConsistency(s, e);
    CallIsSolo(s, t, e);
    AlwaysFits(s, t);
    AlwaysFits(s, e.tid);
    AlwaysFits(Step(s, e), e.tid);
    hide Consistent, Solo, Fits;
    CallBegins(s, e, t);
  }

  lemma CallIsSolo(s: State, t: nat, e: Event)
    requires Consistent(s) && Solo(s, t) && Quiet(s) && !e.Run?
    ensures Solo(Step(s, e), e.tid)
  {
    assert At(s, e.tid) == Idle && At(s, t) == Idle;
    hide Consistent;
  }

  lemma NothingHappens(s: State, t: nat, e: Event)
    requires Consistent(s) && Solo(s, t)
    requires if e.Run? then e.tid != t else At(s, e.tid) != Idle
    ensures Step(s, e) == s && Call(s, e) == []
  {
    hide Consistent, PCOk;
  }

  /** One event: the call under way still comes to the same, and a new one does what the logger does. */
  lemma StepRefines(s: State, t: nat, e: Event) returns (u: nat)
    requires OnItsWay(s, t) && (e.Run? || At(s, e.tid) != Idle || Quiet(s))
    ensures OnItsWay(Step(s, e), u)
    ensures Fits(s, t) && Fits(Step(s, e), u)
    ensures Future(Step(s, e), u) == Called(Future(s, t), Call(s, e))
  {
    AlwaysFits(s, t);
    hide Consistent, Solo, Quiet, Fits, Step, Future, Called, SoloPC;
    u := t;
    if e.Run? && e.tid == t {
      assert e == Run(t);
      OwnRunRefines(s, t);
      NoCall(s, e, Future(s, t));
    } else if e.Run? || At(s, e.tid) != Idle {
      NothingHappens(s, t, e);
      NoCall(s, e, Future(s, t));
    } else {
      u := e.tid;
      CallRefines(s, t, e);
    }
  }

  lemma NoCall(s: State, e: Event, l: L.Logger)
    requires e.Run? || At(s, e.tid) != Idle
    ensures Call(s, e) == [] && Called(l, Call(s, e)) == l
  {
  }

  lemma CallIsStep(r: L.Run, call: seq<L.Event>)
    requires L.Sound(r.log) && |call| == 1 && (call[0].PutEvent? || call[0].FlushEvent?)
    ensures L.Step(r, call[0]).log == Called(r.log, call) && L.Sound(L.Step(r, call[0]).log)
  {
    L.StepKeepsSound(r, call[0]);
    hide L.Put, L.Flush, L.CleanThenDirty, L.FilesOk, L.JobsOk;
  }

  lemma CallsAreShort(s: State, e: Event)
    ensures var call := Call(s, e); |call| <= 1 && (call != [] ==> call[0].PutEvent? || call[0].FlushEvent?)
  {
  }

  /** Wherever a run of separate calls stands, the call under way will leave the ring as the logger
      is after the same calls. */
  lemma {:induction false} RunRefines(s: State, t: nat, events: seq<Event>, r: L.Run) returns (u: nat)
    requires OnItsWay(s, t) && OneAtATime(s, events) && Fits(s, t)
    requires L.Sound(r.log) && r.log == Future(s, t)
    ensures OnItsWay(Exec(s, events), u) && Fits(Exec(s, events), u)
    ensures Future(Exec(s, events), u) == L.Exec(r, Calls(s, events)).log
    decreases |events|
  {
    hide Consistent, Solo, Quiet, Fits, Step, Future, Called, Behind, Call, L.Step, L.Sound;
    u := t;
    if events != [] {
      StepKeepsConsistency(s, events[0]);
      var next := Step(s, events[0]);
      var v := StepRefines(s, t, events[0]);
      var call, rest := Call(s, events[0]), Calls(next, events[1..]);
      CallsAreShort(s, events[0]);
      if call == [] {
        NoneCalled(r.log);
        assert call + rest == rest;
        u := RunRefines(next, v, events[1..], r);
      } else {
        CallIsStep(r, call);
        assert (call + rest)[0] == call[0] && (call + rest)[1..] == rest;
        u := RunRefines(next, v, events[1..], L.Step(r, call[0]));
      }
    }
  }

  lemma NoneCalled(l: L.Logger)
    ensures Called(l, []) == l
  {
  }

  lemma StartsOnItsWay(n: nat, limit: nat)
    requires n > 0
    ensures OnItsWay(Init(n, limit), 0) && Fits(Init(n, limit), 0)
    ensures Future(Init(n, limit), 0) == View(Init(n, limit)) && L.Sound(View(Init(n, limit)))
    ensures View(Init(n, limit)) == L.Logger(L.AllClean(n), 0, "", map[], map[], 0, 0, [], None, 0, limit, 0, false)
  {
    assert View(Init(n, limit)).slots == L.AllClean(n);
    assert View(Init(n, limit)).closed == map[];
  }

  lemma QuietFuture(s: State, u: nat)
    requires Fits(s, u) && Quiet(s)
    ensures Future(s, u) == View(s)
  {
    assert At(s, u) == Idle;
  }

  /** A new logger, as the ring starts. */
  function New(n: nat, limit: nat): (l: L.Logger)
    requires n > 0
    ensures L.Sound(l)
  {
    L.Logger(L.AllClean(n), 0, "", map[], map[], 0, 0, [], None, 0, limit, 0, false)
  }

  lemma {:induction false} QuietRuns(n: nat, limit: nat, events: seq<Event>) returns (u: nat)
    requires n > 0 && OneAtATime(Init(n, limit), events) && Quiet(Exec(Init(n, limit), events))
    ensures OnItsWay(Exec(Init(n, limit), events), u)
    ensures View(Exec(Init(n, limit), events))
         == L.Exec(L.Started(New(n, limit)), Calls(Init(n, limit), events)).log
  {
    hide Consistent, Solo, Quiet, Fits, Exec, Calls, L.Exec, L.Sound, Future, View;
    StartsOnItsWay(n, limit);
    u := RunRefines(Init(n, limit), 0, events, L.Started(New(n, limit)));
    QuietFuture(Exec(Init(n, limit), events), u);
  }

  /** Between calls that do not overlap, the ring, whatever its size, is the logger after the same
      calls: the same slots, cursor, active file and closed files. */
  lemma {:induction false} SeparateCallsRefineLogger(n: nat, limit: nat, events: seq<Event>)
    requires n > 0 && OneAtATime(Init(n, limit), events) && Quiet(Exec(Init(n, limit), events))
    ensures View(Exec(Init(n, limit), events))
         == L.Exec(L.Started(New(n, limit)), Calls(Init(n, limit), events)).log
  {
    var u := QuietRuns(n, limit, events);
  }

  // The order of the messages.

  /** The messages of the put calls, as stored, in the order of the calls. */
  function Submitted(s: State, events: seq<Event>): seq<string>
    requires Consistent(s)
    decreases |events|
  {
    if events == [] then []
    else
      StepKeepsConsistency(s, events[0]);
      (if events[0].Put? && At(s, events[0].tid) == Idle then [Stored(events[0].msg)] else [])
      + Submitted(Step(s, events[0]), events[1..])
  }

  lemma CallPuts(r: L.Run, s: State, e: Event)
    requires L.Sound(r.log) && Call(s, e) != []
    ensures var after := L.Step(r, Call(s, e)[0]);
      && L.Sound(after.log) && after.gone == r.gone
      && after.puts == r.puts + if e.Put? && At(s, e.tid) == Idle then [Stored(e.msg)] else []
  {
    L.StepKeepsSound(r, Call(s, e)[0]);
    hide L.Put, L.Flush, L.Sound, Stored;
  }

  lemma {:induction false} CallsPut(r: L.Run, s: State, events: seq<Event>)
    requires L.Sound(r.log) && Consistent(s)
    ensures L.Exec(r, Calls(s, events)).puts == r.puts + Submitted(s, events)
    ensures L.Exec(r, Calls(s, events)).gone == r.gone
    decreases |events|
  {
    hide Consistent, Step, Call, L.Step, L.Sound, Stored;
    if events == [] {
      assert r.puts + [] == r.puts;
    } else {
      StepKeepsConsistency(s, events[0]);
      var call, next := Call(s, events[0]), Step(s, events[0]);
      var rest := Calls(next, events[1..]);
      CallsAreShort(s, events[0]);
      if call == [] {
        NoPut(s, events[0]);
        assert call + rest == rest;
        CallsPut(r, next, events[1..]);
        assert [] + Submitted(next, events[1..]) == Submitted(next, events[1..]);
      } else {
        CallPuts(r, s, events[0]);
        assert (call + rest)[0] == call[0] && (call + rest)[1..] == rest;
        CallsPut(L.Step(r, call[0]), next, events[1..]);
        Assoc(r.puts, L.Step(r, call[0]).puts[|r.puts|..], Submitted(next, events[1..]));
      }
    }
  }

  lemma Assoc(a: seq<string>, b: seq<string>, c: seq<string>)
    ensures a + b + c == a + (b + c)
  {
  }

  lemma NoPut(s: State, e: Event)
    requires Call(s, e) == []
    ensures !(e.Put? && At(s, e.tid) == Idle)
  {
  }

  lemma {:induction false} FilesAreFlat(s: State, k: nat)
    requires |s.files| > 0 && k < |s.files|
    ensures L.FilesFrom(View(s).closed, View(s).archived, 0, k) == Flatten(s.files[..k])
  {
    hide SlotView;
    if k > 0 {
      FilesAreFlat(s, k - 1);
      assert s.files[..k][..k - 1] == s.files[..k - 1];
    }
  }

  /** The messages that wait, from the cursor on. */
  function Waits(s: State): string
    requires |s.files| > 0 && s.cursor < |s.slots|
  {
    Flatten(L.Dirty(L.Rotated(View(s).slots, s.cursor)))
  }

  lemma StreamIsFiles(s: State)
    requires |s.files| > 0 && s.cursor < |s.slots|
    ensures L.Stream(View(s)) == Flatten(s.files) + Waits(s)
  {
    var last := |s.files| - 1;
    FilesAreFlat(s, last);
    assert View(s).active == s.files[last] && View(s).cur == last && View(s).min == 0;
    assert Flatten(s.files) == Flatten(s.files[..last]) + s.files[last];
    hide L.FilesFrom, Flatten, L.Dirty, View;
  }

  lemma NewIsEmpty(n: nat, limit: nat)
    requires n > 0
    ensures L.Stream(New(n, limit)) == ""
  {
    L.CleanRingIsEmpty(n, 0);
  }

  /** Between such calls the files, in order, and then the waiting slots from the cursor on are the
      messages put, each stored once, in the order of their calls. */
  lemma {:induction false} FilesHoldCallsInOrder(n: nat, limit: nat, events: seq<Event>)
    requires n > 0 && OneAtATime(Init(n, limit), events) && Quiet(Exec(Init(n, limit), events))
    ensures |Exec(Init(n, limit), events).files| > 0
    ensures Exec(Init(n, limit), events).cursor < |Exec(Init(n, limit), events).slots|
    ensures var s := Exec(Init(n, limit), events);
      Flatten(s.files) + Waits(s) == Flatten(Submitted(Init(n, limit), events))
  {
    hide Init, OneAtATime, Quiet, Exec, Calls, Submitted, L.Exec, L.Stream, Waits, View, Flatten, New;
    NothingYet(n, limit);
    var s, calls := Exec(Init(n, limit), events), Calls(Init(n, limit), events);
    SeparateCallsRefineLogger(n, limit, events);
    L.RingRefinesFifo(New(n, limit), calls);
    CallsPut(L.Started(New(n, limit)), Init(n, limit), events);
    NewIsEmpty(n, limit);
    StreamIsFiles(s);
    assert [] + Submitted(Init(n, limit), events) == Submitted(Init(n, limit), events);
    assert "" + Flatten(Submitted(Init(n, limit), events)) == Flatten(Submitted(Init(n, limit), events));
    assert "" + L.Stream(View(s)) == L.Stream(View(s));
  }
}
