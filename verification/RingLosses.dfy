/** Runs in which a put loses its message, on a ring of any size and for any message. */
module RingLosses {
  import opened LogFiles
  import opened Products
  import opened RingProtocol
  import opened Wrappers

  /** The events led a fresh ring of n slots to s. */
  ghost predicate Reaches(n: nat, limit: nat, events: seq<Event>, s: State) {
    n > 0 && |s.slots| == n && Consistent(s) && s == Exec(Init(n, limit), events)
  }

  lemma Start(n: nat, limit: nat)
    requires n > 0
    ensures Reaches(n, limit, [], Init(n, limit))
    ensures var s := Init(n, limit);
      && s.cursor == 0 && s.lock.None? && s.dropped == multiset{} && s.threads == map[]
      && forall i :: 0 <= i < n ==> s.slots[i].status == CLEAN
  {
  }

  lemma Then(n: nat, limit: nat, events: seq<Event>, s: State, e: Event) returns (r: State)
    requires Reaches(n, limit, events, s)
    ensures Consistent(s) && |r.slots| == |s.slots| == n && Consistent(r)
    ensures Reaches(n, limit, events + [e], r) && r == Step(s, e)
  {
    hide Consistent, Exec;
    InitIsConsistent(n, limit);
    ExecSnoc(Init(n, limit), events, e);
    StepKeepsConsistency(s, e);
    r := Step(s, e);
  }

  lemma {:induction false} Reached(n: nat, limit: nat, events: seq<Event>, s: State)
    requires Reaches(n, limit, events, s)
    ensures n > 0 && |s.slots| == n && s.cursor < n && Consistent(s) && s == Exec(Init(n, limit), events)
  {
  }

  lemma InitIsConsistent(n: nat, limit: nat)
    requires n > 0
    ensures Consistent(Init(n, limit))
  {
  }

  // One step each.

  lemma CallPuts(s: State, t: nat, msg: string)
    requires Consistent(s) && At(s, t) == Idle
    ensures Step(s, Put(t, msg)) == Goto(s, t, LoadCursor(msg))
  {
  }

  lemma CallFlushes(s: State, t: nat)
    requires Consistent(s) && At(s, t) == Idle
    ensures Step(s, FlushAll(t)) == Goto(s, t, LoadStart)
  {
  }

  lemma RunLoads(s: State, t: nat)
    requires Consistent(s)
    requires var pc := At(s, t);
      pc.LoadCursor? || pc.AwaitAvailable? || pc.CheckDirty? || pc.AwaitFlushed? || pc.LoadStart?
    ensures PCOk(s.slots, At(s, t)) && Step(s, Run(t)) == Goto(s, t, AfterLoad(s, At(s, t)))
  {
    ThreadIsOk(s, t);
    hide Consistent, AfterLoad;
  }

  lemma RunClaims(s: State, t: nat, msg: string)
    requires Consistent(s) && At(s, t) == ClaimSlot(msg, s.cursor)
    ensures Step(s, Run(t)) == Goto(s.(cursor := (s.cursor + 1) % |s.slots|), t, AwaitAvailable(msg, s.cursor))
  {
    ThreadIsOk(s, t);
    hide Consistent;
  }

  lemma RunWrites(s: State, t: nat)
    requires Consistent(s) && (At(s, t).TryWrite? || At(s, t).SetLength?)
    ensures At(s, t).slot < |s.slots|
    ensures Step(s, Run(t)) == if At(s, t).TryWrite? then TryWriteStep(s, t, At(s, t).msg, At(s, t).slot)
                               else SetLengthStep(s, t, At(s, t).msg, At(s, t).slot)
  {
    ThreadIsOk(s, t);
    hide Consistent, TryWriteStep, SetLengthStep;
  }

  lemma RunCopies(s: State, t: nat)
    requires Consistent(s) && At(s, t).Copy?
    ensures var Copy(msg, i, done) := At(s, t);
      && i < |s.slots| && done <= s.slots[i].len <= |s.slots[i].ctx| && s.slots[i].len <= |msg|
      && Step(s, Run(t)) == CopyStep(s, t, msg, i, done)
  {
    ThreadIsOk(s, t);
    hide Consistent, CopyStep;
  }

  lemma RunLocks(s: State, t: nat)
    requires Consistent(s) && At(s, t).TryLock?
    ensures Step(s, Run(t)) == LockStep(s, t, At(s, t).resume, At(s, t).start)
  {
    ThreadIsOk(s, t);
    hide Consistent, LockStep;
  }

  lemma RunScans(s: State, t: nat)
    requires Consistent(s) && At(s, t).Scan?
    ensures |s.slots| > 0
    ensures Step(s, Run(t)) == ScanStep(s, t, At(s, t).resume, At(s, t).start, At(s, t).visited)
  {
    ThreadIsOk(s, t);
    hide Consistent, ScanStep;
  }

  // A put up to its slot.

  /** What a put by t leaves alone. */
  predicate Elsewhere(s: State, r: State, t: nat) {
    && r.lock == s.lock && r.dropped == s.dropped
    && r.threads == s.threads[t := At(r, t)]
  }

  lemma PutReadsCursor(n: nat, limit: nat, events: seq<Event>, s: State, t: nat, msg: string)
    returns (more: seq<Event>, r: State)
    requires Reaches(n, limit, events, s) && At(s, t) == Idle
    ensures Reaches(n, limit, events + more, r) && more == [Put(t, msg), Run(t)]
    ensures s.cursor < n && r == Goto(s, t, ClaimSlot(msg, s.cursor))
  {
    more := [Put(t, msg)] + [Run(t)];
    assert s.cursor < |s.slots| == n;
    hide Reaches, Consistent, Exec, PCOk, Step, Init;
    var r1 := Then(n, limit, events, s, Put(t, msg));
    CallPuts(s, t, msg);
    r := Then(n, limit, events + [Put(t, msg)], r1, Run(t));
    RunLoads(r1, t);
    Joined(events, [Put(t, msg)], [Run(t)]);
    GotoTwice(s, t, LoadCursor(msg), ClaimSlot(msg, s.cursor));
  }

  lemma Joined(a: seq<Event>, b: seq<Event>, c: seq<Event>)
    ensures a + b + c == a + (b + c)
  {
  }

  lemma GotoTwice(s: State, t: nat, first: PC, second: PC)
    ensures Goto(Goto(s, t, first), t, second) == Goto(s, t, second)
    ensures s.threads[t := first][t := second] == s.threads[t := second]
  {
  }

  /** Undisturbed, a put takes the slot at the cursor and moves the cursor on. */
  lemma PutTakesTurn(n: nat, limit: nat, events: seq<Event>, s: State, t: nat, msg: string)
    returns (more: seq<Event>, r: State)
    requires Reaches(n, limit, events, s) && At(s, t) == Idle
    ensures Reaches(n, limit, events + more, r) && more == [Put(t, msg), Run(t), Run(t)]
    ensures s.cursor < n && At(r, t) == AwaitAvailable(msg, s.cursor) && r.cursor == (s.cursor + 1) % n
    ensures r.slots == s.slots && Elsewhere(s, r, t)
  {
    var first, r2 := PutReadsCursor(n, limit, events, s, t, msg);
    more := first + [Run(t)];
    hide Reaches, Consistent, Exec, PCOk, Step, Init;
    r := Then(n, limit, events + first, r2, Run(t));
    RunClaims(r2, t, msg);
    Joined(events, first, [Run(t)]);
    GotoTwice(s, t, ClaimSlot(msg, s.cursor), AwaitAvailable(msg, s.cursor));
  }

  /** Two loads take it to trying to write, or to trying to flush. */
  lemma PutLooks(n: nat, limit: nat, events: seq<Event>, s: State, t: nat, msg: string, i: nat)
    returns (more: seq<Event>, r: State)
    requires Reaches(n, limit, events, s) && At(s, t) == AwaitAvailable(msg, i) && i < n
    requires s.slots[i].status == CLEAN || s.slots[i].status == DIRTY
    ensures Reaches(n, limit, events + more, r) && more == [Run(t), Run(t)]
    ensures At(r, t) == if s.slots[i].status == CLEAN then TryWrite(msg, i) else TryLock(ThenWrite(msg, i), i)
    ensures r.slots == s.slots && r.cursor == s.cursor && Elsewhere(s, r, t)
  {
    more := [Run(t), Run(t)];
    hide Reaches, Consistent, Exec, PCOk, Step, Init;
    var r1 := Then(n, limit, events, s, Run(t));
    RunLoads(s, t);
    r := Then(n, limit, events + [Run(t)], r1, Run(t));
    RunLoads(r1, t);
    assert events + [Run(t)] + [Run(t)] == events + more;
  }

  // A slot is lapped.


  /** The threads from 1 on each take a turn, up to thread k, and stop there. */
  lemma {:induction false} OthersTakeTurns(n: nat, limit: nat, events: seq<Event>, s: State, k: nat, other: string)
    returns (more: seq<Event>, r: State)
    requires Reaches(n, limit, events, s) && s.cursor == 1 % n && k < n
    requires forall u :: u in s.threads ==> u == 0
    ensures Reaches(n, limit, events + more, r)
    ensures r.cursor == (k + 1) % n && r.slots == s.slots && r.lock == s.lock && r.dropped == s.dropped
    ensures At(r, 0) == At(s, 0) && forall u :: u in r.threads ==> u <= k
    ensures forall e :: e in more ==> 1 <= e.tid <= k && !e.FlushAll? && (e.Put? ==> e.msg == other)
  {
    hide Reaches, Consistent, Exec, Step, Init;
    if k == 0 {
      more, r := [], s;
      assert events + [] == events;
    } else {
      var before, m := OthersTakeTurns(n, limit, events, s, k - 1, other);
      var turn;
      assert At(m, k) == Idle;
      turn, r := PutTakesTurn(n, limit, events + before, m, k, other);
      more := before + turn;
      assert events + before + turn == events + more;
      NextCursor(k, n);
    }
  }

  lemma NextCursor(k: nat, n: nat)
    requires 0 < k < n
    ensures (k % n + 1) % n == (k + 1) % n
  {
    RemainderOfSum(k, 1, n);
  }

  lemma LastTurnIsFirstSlot(n: nat)
    requires n > 0
    ensures (n - 1 + 1) % n == 0
  {
  }

  /** Any put can lose its message with nobody flushing: found its slot clean, it is lapped by n
      others before it writes, each of which puts once. */
  lemma LappingLosesAMessage(n: nat, limit: nat, msg: string, other: string) returns (events: seq<Event>)
    requires n > 0
    ensures Exec(Init(n, limit), events).dropped == multiset{Stored(msg)}
    ensures forall e :: e in events ==> !e.FlushAll? && e.tid <= n
    ensures forall e :: e in events && e.Put? ==> e.msg == if e.tid == 0 then msg else other
  {
    hide Consistent, Exec, PCOk, Step;
    var s0 := Init(n, limit);
    Start(n, limit);
    var e1, s1 := PutTakesTurn(n, limit, [], s0, 0, msg);
    var e2, s2 := PutLooks(n, limit, [] + e1, s1, 0, msg, 0);
    hide Init;
    var e3, s3 := OthersTakeTurns(n, limit, [] + e1 + e2, s2, n - 1, other);
    LastTurnIsFirstSlot(n);
    assert At(s3, n) == Idle;
    var e4, s4 := PutTakesTurn(n, limit, [] + e1 + e2 + e3, s3, n, other);
    var e5, s5 := PutLooks(n, limit, [] + e1 + e2 + e3 + e4, s4, n, other, 0);
    var before := [] + e1 + e2 + e3 + e4 + e5;
    var s6 := Then(n, limit, before, s5, Run(n));
    RunWrites(s5, n);
    var s7 := Then(n, limit, before + [Run(n)], s6, Run(0));
    RunWrites(s6, 0);
    events := before + [Run(n)] + [Run(0)];
  }

  // A slot is being flushed.

  /** A byte more, or the end of the copy. */
  lemma CopyGoesOn(n: nat, limit: nat, events: seq<Event>, s: State, t: nat, msg: string, i: nat, done: nat)
    returns (r: State)
    requires Reaches(n, limit, events, s) && At(s, t) == Copy(msg, i, done) && i < |s.slots|
    ensures Reaches(n, limit, events + [Run(t)], r) && r.cursor == s.cursor && Elsewhere(s, r, t)
    ensures |r.slots| == |s.slots| && done <= s.slots[i].len && r.slots == s.slots[i := r.slots[i]]
    ensures if done < s.slots[i].len then At(r, t) == Copy(msg, i, done + 1) && r.slots[i].len == s.slots[i].len
            else At(r, t) == Idle && r.slots[i].status == DIRTY
  {
    hide Reaches, Consistent, Exec, PCOk, Step, Init, Stored;
    Reached(n, limit, events, s);
    RunCopies(s, t);
    r := Then(n, limit, events, s, Run(t));
  }

  lemma {:induction false} CopyFinishes(n: nat, limit: nat, events: seq<Event>, s: State, t: nat, msg: string,
                                        i: nat, done: nat)
    returns (more: seq<Event>, r: State)
    requires Reaches(n, limit, events, s) && At(s, t) == Copy(msg, i, done) && i < |s.slots|
    requires done <= s.slots[i].len
    ensures Reaches(n, limit, events + more, r) && forall e :: e in more ==> e == Run(t)
    ensures At(r, t) == Idle && r.cursor == s.cursor && Elsewhere(s, r, t) && |r.slots| == |s.slots|
    ensures r.slots == s.slots[i := r.slots[i]] && r.slots[i].status == DIRTY
    decreases s.slots[i].len - done
  {
    hide Reaches;
    var next := CopyGoesOn(n, limit, events, s, t, msg, i, done);
    if done < s.slots[i].len {
      var rest;
      rest, r := CopyFinishes(n, limit, events + [Run(t)], next, t, msg, i, done + 1);
      more := [Run(t)] + rest;
      assert events + [Run(t)] + rest == events + more;
    } else {
      more, r := [Run(t)], next;
    }
  }

  /** Alone, a put on a clean slot leaves it dirty. */
  lemma PutFills(n: nat, limit: nat, events: seq<Event>, s: State, t: nat, msg: string)
    returns (more: seq<Event>, r: State)
    requires Reaches(n, limit, events, s) && At(s, t) == Idle
    requires s.cursor < n && s.slots[s.cursor].status == CLEAN
    ensures Reaches(n, limit, events + more, r)
    ensures forall e :: e in more ==> e == Run(t) || e == Put(t, msg)
    ensures At(r, t) == Idle && r.cursor == (s.cursor + 1) % n && Elsewhere(s, r, t)
    ensures r.slots == s.slots[s.cursor := r.slots[s.cursor]] && r.slots[s.cursor].status == DIRTY
  {
    var i := s.cursor;
    hide Reaches, Consistent, Exec, PCOk, Step, Init, CopyStep;
    var e1, s1 := PutTakesTurn(n, limit, events, s, t, msg);
    var e2, s2 := PutLooks(n, limit, events + e1, s1, t, msg, i);
    var s3 := Then(n, limit, events + e1 + e2, s2, Run(t));
    RunWrites(s2, t);
    var s4 := Then(n, limit, events + e1 + e2 + [Run(t)], s3, Run(t));
    RunWrites(s3, t);
    var e5;
    e5, r := CopyFinishes(n, limit, events + e1 + e2 + [Run(t)] + [Run(t)], s4, t, msg, i, 0);
    more := e1 + e2 + [Run(t)] + [Run(t)] + e5;
    assert events + e1 + e2 + [Run(t)] + [Run(t)] + e5 == events + more;
  }

  /** One thread fills the first k slots. */
  lemma {:induction false} RingFills(n: nat, limit: nat, k: nat, fill: string) returns (events: seq<Event>, s: State)
    requires k <= n && n > 0
    ensures Reaches(n, limit, events, s) && s.cursor == k % n && s.lock.None? && s.dropped == multiset{}
    ensures forall i :: 0 <= i < n ==> s.slots[i].status == if i < k then DIRTY else CLEAN
    ensures forall u: nat :: At(s, u) == Idle
    ensures forall e :: e in events ==> e == Run(1) || e == Put(1, fill)
  {
    hide Reaches, Consistent, Exec, Init;
    if k == 0 {
      events, s := [], Init(n, limit);
      Start(n, limit);
    } else {
      var before, m := RingFills(n, limit, k - 1, fill);
      SmallCursor(k - 1, n);
      Reached(n, limit, before, m);
      var put;
      put, s := PutFills(n, limit, before, m, 1, fill);
      events := before + put;
      Reached(n, limit, events, s);
      forall u: nat ensures At(s, u) == Idle {
        StillIdle(m, s, 1, u);
      }
    }
  }

  lemma StillIdle(s: State, r: State, t: nat, u: nat)
    requires Elsewhere(s, r, t) && At(r, t) == Idle && At(s, u) == Idle
    ensures At(r, u) == Idle
  {
  }

  lemma SmallCursor(k: nat, n: nat)
    requires k < n
    ensures k % n == k
  {
  }

  /** The flusher holds the mutex and is about to look at the first slot. */
  lemma FlusherLocks(n: nat, limit: nat, events: seq<Event>, s: State, t: nat) returns (more: seq<Event>, r: State)
    requires Reaches(n, limit, events, s) && At(s, t) == Idle && s.cursor == 0 && s.lock.None?
    ensures Reaches(n, limit, events + more, r) && more == [FlushAll(t), Run(t), Run(t)]
    ensures At(r, t) == Scan(ThenStop, 0, 0) && r.lock == Some(t) && r.slots == s.slots && r.cursor == s.cursor
    ensures r.dropped == s.dropped && r.threads == s.threads[t := At(r, t)]
  {
    more := [FlushAll(t), Run(t), Run(t)];
    hide Reaches, Consistent, Exec, PCOk, Step, Init;
    var s1 := Then(n, limit, events, s, FlushAll(t));
    CallFlushes(s, t);
    var s2 := Then(n, limit, events + [FlushAll(t)], s1, Run(t));
    RunLoads(s1, t);
    r := Then(n, limit, events + [FlushAll(t)] + [Run(t)], s2, Run(t));
    RunLocks(s2, t);
    assert events + [FlushAll(t)] + [Run(t)] + [Run(t)] == events + more;
  }

  lemma FlusherTakesFirst(n: nat, limit: nat, events: seq<Event>, s: State, t: nat) returns (r: State)
    requires Reaches(n, limit, events, s) && At(s, t) == Scan(ThenStop, 0, 0) && s.slots[0].status == DIRTY
    ensures Reaches(n, limit, events + [Run(t)], r) && r.slots[0].status == FLUSHING && Elsewhere(s, r, t)
  {
    hide Reaches, Consistent, Exec, PCOk, Step, Init;
    Reached(n, limit, events, s);
    SmallCursor(0, n);
    r := Then(n, limit, events, s, Run(t));
    RunScans(s, t);
  }

  /** A put that finds the mutex taken waits for its dirty slot to be flushed. */
  lemma PutWaits(n: nat, limit: nat, events: seq<Event>, s: State, t: nat, msg: string)
    returns (more: seq<Event>, r: State)
    requires Reaches(n, limit, events, s) && At(s, t) == Idle && s.cursor == 0 && s.lock.Some?
    requires s.slots[0].status == DIRTY
    ensures Reaches(n, limit, events + more, r) && more == [Put(t, msg)] + [Run(t), Run(t), Run(t), Run(t), Run(t)]
    ensures At(r, t) == AwaitFlushed(msg, 0) && r.slots == s.slots && Elsewhere(s, r, t)
  {
    more := [Put(t, msg)] + [Run(t), Run(t), Run(t), Run(t), Run(t)];
    hide Reaches, Consistent, Exec, PCOk, Step, Init;
    var e1, s1 := PutTakesTurn(n, limit, events, s, t, msg);
    var e2, s2 := PutLooks(n, limit, events + e1, s1, t, msg, 0);
    r := Then(n, limit, events + e1 + e2, s2, Run(t));
    RunLocks(s2, t);
    assert events + e1 + e2 + [Run(t)] == events + more;
  }

  /** Thread 1 alone puts and thread 2 alone flushes. */
  predicate PutterAndFlusher(events: seq<Event>) {
    forall e :: e in events ==> (e.Put? ==> e.tid == 1) && (e.FlushAll? ==> e.tid == 2) && (e.tid == 1 || e.tid == 2)
  }

  /** The wait ends although the slot is not clean, and the write is refused. */
  lemma WaitEndsInVain(n: nat, limit: nat, events: seq<Event>, s: State, t: nat, msg: string) returns (r: State)
    requires Reaches(n, limit, events, s) && At(s, t) == AwaitFlushed(msg, 0) && n > 0
    requires |s.slots| == n && s.slots[0].status == FLUSHING
    ensures Reaches(n, limit, events + [Run(t), Run(t)], r) && |r.slots| == n
    ensures r.slots[0].status == FLUSHING && r.dropped == s.dropped + multiset{Stored(msg)}
  {
    hide Reaches, Consistent, Exec, PCOk, Step, Init;
    var s4 := Then(n, limit, events, s, Run(t));
    RunLoads(s, t);
    r := Then(n, limit, events + [Run(t)], s4, Run(t));
    RunWrites(s4, t);
    assert events + [Run(t)] + [Run(t)] == events + [Run(t), Run(t)];
  }

  /** A ring filled by thread 1, which then waits while thread 2 flushes its slot. */
  lemma PutWaitsForFlusher(n: nat, limit: nat, msg: string, fill: string) returns (waiting: seq<Event>, s: State)
    requires n > 0
    ensures Reaches(n, limit, waiting, s) && |s.slots| == n && PutterAndFlusher(waiting)
    ensures At(s, 1) == AwaitFlushed(msg, 0) && s.slots[0].status == FLUSHING && s.dropped == multiset{}
  {
    hide Reaches, Consistent, Exec, PCOk, Step, Init;
    var e0, s0 := RingFills(n, limit, n, fill);
    Reached(n, limit, e0, s0);
    FullCircle(n);
    assert At(s0, 2) == Idle && At(s0, 1) == Idle;
    var e1, s1 := FlusherLocks(n, limit, e0, s0, 2);
    var e2, s2 := PutWaits(n, limit, e0 + e1, s1, 1, msg);
    Reached(n, limit, e0 + e1 + e2, s2);
    s := FlusherTakesFirst(n, limit, e0 + e1 + e2, s2, 2);
    Reached(n, limit, e0 + e1 + e2 + [Run(2)], s);
    waiting := e0 + e1 + e2 + [Run(2)];
  }

  /** Any put can lose its message to a single flusher, without any other thread putting: it waits
      for its slot to be flushed, the wait ends when the slot is FLUSHING, and the write is refused
      because the slot is FLUSHING still. */
  lemma FlushingLosesAMessage(n: nat, limit: nat, msg: string, fill: string)
    returns (waiting: seq<Event>, events: seq<Event>)
    requires n > 0
    ensures PutterAndFlusher(events) && events == waiting + [Run(1), Run(1)]
    ensures var s := Exec(Init(n, limit), waiting);
      |s.slots| == n && At(s, 1) == AwaitFlushed(msg, 0) && s.slots[0].status == FLUSHING && s.dropped == multiset{}
    ensures var s := Exec(Init(n, limit), events);
      |s.slots| == n && s.slots[0].status == FLUSHING && s.dropped == multiset{Stored(msg)}
  {
    hide Reaches, Consistent, Exec, Init;
    var s;
    waiting, s := PutWaitsForFlusher(n, limit, msg, fill);
    Reached(n, limit, waiting, s);
    var r := WaitEndsInVain(n, limit, waiting, s, 1, msg);
    events := waiting + [Run(1), Run(1)];
    Reached(n, limit, events, r);
  }

  lemma FullCircle(n: nat)
    requires n > 0
    ensures n % n == 0
  {
  }
}
