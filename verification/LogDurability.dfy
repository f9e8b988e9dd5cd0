/** The log store's emulated disk: an entry becomes durable a fixed delay after its append, when
    the emulator next looks. Times are in microseconds, the delay in milliseconds. */
module LogDurability {
  import opened LogStoreModel
  import opened Wrappers

  const IDLE_SLEEP: nat := 100_000

  /** `pending` maps the time at which a write completes to the index written. */
  datatype Disk = Disk(delay: nat, pending: map<nat, nat>, durable: nat)

  function Lag(d: Disk): nat {
    d.delay * 1000
  }

  function Enqueue(d: Disk, index: nat, now: nat): Disk {
    if d.delay == 0 then d else d.(pending := d.pending[now + Lag(d) := index])
  }

  /** Overwriting also forgets the pending writes of later indices. */
  function EnqueueOver(d: Disk, index: nat, now: nat): Disk {
    if d.delay == 0 then d
    else
      var p := d.pending[now + Lag(d) := index];
      d.(pending := map t | t in p && p[t] <= index :: p[t])
  }

  function After(pending: map<nat, nat>, now: nat): map<nat, nat> {
    map t | t in pending && t > now :: pending[t]
  }

  predicate IsLastDue(pending: map<nat, nat>, now: nat, t: nat) {
    t in pending && t <= now && forall u :: u in pending && u <= now ==> u <= t
  }

  lemma {:induction false} Greatest(keys: set<nat>) returns (m: nat)
    requires keys != {}
    ensures m in keys && forall j :: j in keys ==> j <= m
  {
    var k :| k in keys;
    var rest := keys - {k};
    assert forall j :: j in keys ==> j == k || j in rest;
    if rest == {} {
      m := k;
    } else {
      m := Greatest(rest);
      m := if k > m then k else m;
    }
  }

  ghost predicate IsFound(pending: map<nat, nat>, now: nat, last: Option<nat>) {
    if last.Some? then IsLastDue(pending, now, last.value) else forall t :: t in pending ==> t > now
  }

  lemma FindsLastDue(pending: map<nat, nat>, now: nat)
    ensures exists last :: IsFound(pending, now, last)
  {
    var due := set t | t in pending && t <= now;
    assert forall u :: u in pending && u <= now ==> u in due;
    if due == {} {
      assert IsFound(pending, now, None);
    } else {
      var m := Greatest(due);
      assert IsFound(pending, now, Some(m));
    }
  }

  /** The latest completion time that is not after `now`. */
  ghost function LastDue(pending: map<nat, nat>, now: nat): (last: Option<nat>)
    ensures IsFound(pending, now, last)
  {
    FindsLastDue(pending, now);
    var last :| IsFound(pending, now, last);
    last
  }

  /** One look of the emulator: everything due is durable up to the latest of it. */
  ghost function Poll(d: Disk, now: nat): Disk {
    var last := LastDue(d.pending, now);
    Disk(d.delay, After(d.pending, now), if last.Some? then d.pending[last.value] else d.durable)
  }

  /** How long the emulator sleeps next: until the first pending write, if there is one. */
  ghost predicate Sleeps(d: Disk, now: nat, sleep: int) {
    if d.pending == map[] then sleep == IDLE_SLEEP
    else now + sleep in d.pending && forall t :: t in d.pending ==> now + sleep <= t
  }

  // Runs: appends, compactions and looks of the emulator, in any order, on a clock that does not
  // go back.

  datatype Event = Appends(e: Entry, now: nat) | Compacts(last: nat) | Polls(now: nat)

  /** An append: the index it took, and its time plus the delay. */
  datatype Record = Record(index: nat, due: nat)

  /** The store and its disk, with what has happened: the time, the last look, every append. */
  datatype State = State(store: Store, disk: Disk, clock: nat, polled: nat, history: seq<Record>)

  predicate Timely(s: State, ev: Event) {
    match ev
    case Appends(_, now) => s.clock <= now
    case Compacts(_) => true
    case Polls(now) => s.clock <= now
  }

  ghost function Step(s: State, ev: Event): State
    requires WellFormed(s.store)
  {
    match ev
    case Appends(e, now) =>
      var index := NextSlot(s.store);
      State(Append(s.store, e), Enqueue(s.disk, index, now), now, s.polled, s.history + [Record(index, now + Lag(s.disk))])
    case Compacts(last) => s.(store := Compact(s.store, last))
    case Polls(now) => s.(disk := Poll(s.disk, now), clock := now, polled := now)
  }

  /** `durable` is the greatest index due by `time`, or 0 when nothing is. */
  ghost predicate Reports(history: seq<Record>, time: nat, durable: nat) {
    && (forall r :: r in history && r.due <= time ==> 0 < r.index <= durable)
    && (durable > 0 ==> exists r :: r in history && r.due <= time && r.index == durable)
  }

  predicate HistoryInOrder(s: State)
    requires WellFormed(s.store)
  {
    && (forall r :: r in s.history ==> 0 < r.index < NextSlot(s.store) && r.due <= s.clock + Lag(s.disk))
    && (forall q, r :: q in s.history && r in s.history && q.due < r.due ==> q.index < r.index)
  }

  /** What is pending was appended and is not yet due; of what is not yet due, the last append of
      each instant is pending. */
  predicate PendingIsHistory(s: State) {
    && (forall t :: t in s.disk.pending ==> t > s.polled && Record(s.disk.pending[t], t) in s.history)
    && (forall r :: r in s.history && r.due > s.polled ==>
          r.due in s.disk.pending && r.index <= s.disk.pending[r.due])
  }

  ghost predicate Consistent(s: State) {
    && Dense(s.store)
    && s.disk.delay > 0
    && s.polled <= s.clock
    && HistoryInOrder(s)
    && PendingIsHistory(s)
    && Reports(s.history, s.polled, s.disk.durable)
  }

  /** A store on which the delay has just been set. */
  function Begin(store: Store, delay: nat, now: nat): State {
    State(store, Disk(delay, map[], 0), now, now, [])
  }

  ghost function Exec(s: State, events: seq<Event>): Option<State> {
    if events == [] then Some(s)
    else
      var before := Exec(s, events[..|events| - 1]);
      var ev := events[|events| - 1];
      if before.Some? && WellFormed(before.value.store) && Timely(before.value, ev)
      then Some(Step(before.value, ev)) else None
  }

  lemma AppendKeepsOrder(s: State, e: Entry, now: nat)
    requires Consistent(s) && s.clock <= now
    ensures Dense(Append(s.store, e)) && HistoryInOrder(Step(s, Appends(e, now)))
  {
    AppendExtends(s.store, e);
    hide Dense, Abs, Append, NextSlot, PendingIsHistory, Reports;
    var latest := Record(NextSlot(s.store), now + Lag(s.disk));
    assert forall r :: r in s.history + [latest] <==> r in s.history || r == latest;
  }

  lemma AppendKeepsReport(s: State, e: Entry, now: nat)
    requires s.polled <= s.clock <= now && s.disk.delay > 0 && WellFormed(s.store)
    requires Reports(s.history, s.polled, s.disk.durable)
    ensures Reports(Step(s, Appends(e, now)).history, s.polled, s.disk.durable)
  {
    hide Append, NextSlot;
    if s.disk.durable > 0 {
      var r :| r in s.history && r.due <= s.polled && r.index == s.disk.durable;
      assert r in Step(s, Appends(e, now)).history;
    }
  }

  lemma AppendKeepsPending(s: State, e: Entry, now: nat)
    requires s.polled <= s.clock <= now && s.disk.delay > 0 && WellFormed(s.store)
    requires HistoryInOrder(s) && PendingIsHistory(s)
    ensures PendingIsHistory(Step(s, Appends(e, now)))
  {
    hide Append, NextSlot;
  }

  lemma AppendStays(s: State, e: Entry, now: nat)
    requires Consistent(s) && s.clock <= now
    ensures Consistent(Step(s, Appends(e, now)))
  {
    assert WellFormed(s.store);
    hide Dense, HistoryInOrder, PendingIsHistory, Reports, Append, NextSlot;
    AppendKeepsOrder(s, e, now);
    AppendKeepsPending(s, e, now);
    AppendKeepsReport(s, e, now);
  }

  lemma CompactStays(s: State, last: nat)
    requires Consistent(s)
    ensures Consistent(Step(s, Compacts(last)))
  {
    CompactDrops(s.store, last);
  }

  /** The index written by the latest completion is the greatest one due. */
  lemma LastDueIsGreatest(s: State, now: nat, last: nat)
    requires Consistent(s) && IsLastDue(s.disk.pending, now, last)
    ensures Reports(s.history, now, s.disk.pending[last]) && s.disk.durable < s.disk.pending[last]
  {
    hide Dense, NextSlot;
    var pending := s.disk.pending;
    var top := Record(pending[last], last);
    assert top in s.history && top.due > s.polled;
    forall r | r in s.history && r.due <= now ensures r.index <= top.index {
      if r.due > s.polled {
        assert Record(pending[r.due], r.due) in s.history;
      }
    }
  }

  lemma PollStays(s: State, now: nat)
    requires Consistent(s) && s.clock <= now
    ensures Consistent(Step(s, Polls(now)))
    ensures s.disk.durable <= Step(s, Polls(now)).disk.durable
  {
    hide Dense, LastDue;
    var last := LastDue(s.disk.pending, now);
    if last.Some? {
      LastDueIsGreatest(s, now, last.value);
    } else {
      assert forall r :: r in s.history && r.due <= now ==> r.due <= s.polled;
    }
  }

  lemma StepStays(s: State, ev: Event)
    requires Consistent(s) && Timely(s, ev)
    ensures Consistent(Step(s, ev)) && s.disk.durable <= Step(s, ev).disk.durable
    ensures NextSlot(s.store) <= NextSlot(Step(s, ev).store) && Step(s, ev).disk.delay == s.disk.delay
  {
    match ev
    case Appends(e, now) =>
      AppendStays(s, e, now);
      AppendExtends(s.store, e);
    case Compacts(last) =>
      CompactStays(s, last);
      CompactDrops(s.store, last);
    case Polls(now) =>
      PollStays(s, now);
  }

  /** Over every run the reported index is the greatest that is due, 0 when none is; it neither
      falls back nor passes the last index. */
  lemma {:induction false} DurableIsExact(s: State, events: seq<Event>)
    requires Consistent(s) && Exec(s, events).Some?
    ensures var n := Exec(s, events).value;
      && Consistent(n)
      && n.disk.delay == s.disk.delay
      && Reports(n.history, n.polled, n.disk.durable)
      && s.disk.durable <= n.disk.durable
      && n.disk.durable < NextSlot(n.store)
  {
    if events != [] {
      DurableIsExact(s, events[..|events| - 1]);
      StepStays(Exec(s, events[..|events| - 1]).value, events[|events| - 1]);
    }
    var n := Exec(s, events).value;
    assert NextSlot(n.store) > 0;
  }

  /** Nothing that was appended is forgotten. */
  lemma {:induction false} HistoryGrows(s: State, events: seq<Event>, more: seq<Event>, r: Record)
    requires Exec(s, events).Some? && r in Exec(s, events).value.history
    requires Exec(s, events + more).Some?
    ensures r in Exec(s, events + more).value.history
  {
    if more == [] {
      assert events + more == events;
    } else {
      assert (events + more)[..|events + more| - 1] == events + more[..|more| - 1];
      HistoryGrows(s, events, more[..|more| - 1], r);
    }
  }

  /** Whatever else happens, an append is durable from the first look on that comes at least the
      delay, in milliseconds, after it; and not before. */
  lemma {:induction false} DurableAfterTheDelay(s: State, before: seq<Event>, e: Entry, now: nat, after: seq<Event>)
    requires Consistent(s) && Exec(s, before + [Appends(e, now)] + after).Some?
    ensures Exec(s, before).Some? && WellFormed(Exec(s, before).value.store)
    ensures var index := NextSlot(Exec(s, before).value.store);
            var n := Exec(s, before + [Appends(e, now)] + after).value;
      index <= n.disk.durable <==> now + 1000 * s.disk.delay <= n.polled
  {
    hide Dense, NextSlot, Step;
    var events := before + [Appends(e, now)];
    ExecPrefix(s, events, after);
    assert events[..|before|] == before;
    DurableIsExact(s, before);
    DurableIsExact(s, events + after);
    AppendIsRecorded(Exec(s, before).value, e, now);
    var r := Record(NextSlot(Exec(s, before).value.store), now + 1000 * s.disk.delay);
    HistoryGrows(s, events, after, r);
  }

  lemma {:induction false} ExecPrefix(s: State, events: seq<Event>, more: seq<Event>)
    requires Exec(s, events + more).Some?
    ensures Exec(s, events).Some?
  {
    if more == [] {
      assert events + more == events;
    } else {
      assert (events + more)[..|events + more| - 1] == events + more[..|more| - 1];
      ExecPrefix(s, events, more[..|more| - 1]);
    }
  }

  lemma AppendIsRecorded(s: State, e: Entry, now: nat)
    requires WellFormed(s.store)
    ensures Record(NextSlot(s.store), now + 1000 * s.disk.delay) in Step(s, Appends(e, now)).history
  {
  }

  lemma BeginsConsistent(store: Store, delay: nat, now: nat)
    requires Dense(store) && delay > 0
    ensures Consistent(Begin(store, delay, now))
  {
  }

  /** Pending writes complete in the order of their indices. */
  lemma PendingIncreases(s: State, t: nat, u: nat)
    requires Consistent(s) && t in s.disk.pending && u in s.disk.pending && t < u
    ensures s.disk.pending[t] < s.disk.pending[u]
  {
    assert Record(s.disk.pending[t], t) in s.history && Record(s.disk.pending[u], u) in s.history;
  }

  /** After a look, whatever the disk held, the sleep is never zero or less. */
  lemma SleepIsPositive(d: Disk, now: nat, sleep: int)
    requires Sleeps(Poll(d, now), now, sleep)
    ensures sleep > 0
  {
  }

  // Overwrites.

  /** The appends of indices below `index`. */
  function Kept(history: seq<Record>, index: nat): (kept: seq<Record>)
    ensures forall r :: r in kept <==> r in history && r.index < index
  {
    if history == [] then []
    else
      var front, r := Kept(history[..|history| - 1], index), history[|history| - 1];
      if r.index < index then front + [r] else front
  }

  /** The state after an overwrite: the appends from `index` on are undone, and the entry there is
      written anew. */
  function Overwritten(s: State, index: nat, e: Entry, now: nat): State
    requires WellFormed(s.store)
  {
    State(WriteAt(s.store, index, e), EnqueueOver(s.disk, index, now), now, s.polled,
          Kept(s.history, index) + [Record(index, now + Lag(s.disk))])
  }

  /** Nothing from `index` on is durable; no older write of that index is pending; and no pending
      write that the overwrite forgets stands for an append it keeps. */
  predicate Undisturbed(s: State, index: nat, now: nat) {
    && s.disk.durable < index
    && (forall t :: t in s.disk.pending && t != now + Lag(s.disk) ==> s.disk.pending[t] != index)
    && (forall r :: r in s.history && r.due in s.disk.pending && r.due != now + Lag(s.disk) ==>
          s.disk.pending[r.due] > index ==> r.index >= index)
  }

  lemma OverwriteKeepsOrder(s: State, index: nat, e: Entry, now: nat)
    requires Consistent(s) && s.clock <= now && s.store.start <= index <= NextSlot(s.store)
    ensures Dense(WriteAt(s.store, index, e)) && HistoryInOrder(Overwritten(s, index, e, now))
  {
    WriteAtTruncates(s.store, index, e);
    hide Dense, Abs, Kept, WriteAt, NextSlot, PendingIsHistory, Reports;
  }

  lemma OverwriteKeepsPending(s: State, index: nat, e: Entry, now: nat)
    requires s.disk.delay > 0 && s.polled <= s.clock <= now && WellFormed(s.store)
    requires PendingIsHistory(s) && HistoryInOrder(s) && Undisturbed(s, index, now)
    ensures PendingIsHistory(Overwritten(s, index, e, now))
  {
    hide Kept, WriteAt, NextSlot;
  }

  lemma OverwriteKeepsReport(s: State, index: nat, e: Entry, now: nat)
    requires s.disk.delay > 0 && s.polled <= s.clock <= now && WellFormed(s.store)
    requires Reports(s.history, s.polled, s.disk.durable) && s.disk.durable < index
    ensures Reports(Overwritten(s, index, e, now).history, s.polled, s.disk.durable)
  {
    hide Kept, WriteAt;
    if s.disk.durable > 0 {
      var r :| r in s.history && r.due <= s.polled && r.index == s.disk.durable;
      assert r in Overwritten(s, index, e, now).history;
    }
  }

  lemma OverwriteStays(s: State, index: nat, e: Entry, now: nat)
    requires Consistent(s) && s.clock <= now && s.store.start <= index <= NextSlot(s.store)
    requires Undisturbed(s, index, now)
    ensures Consistent(Overwritten(s, index, e, now))
  {
    assert WellFormed(s.store);
    hide Dense, HistoryInOrder, PendingIsHistory, Reports, Kept, WriteAt, NextSlot;
    OverwriteKeepsOrder(s, index, e, now);
    OverwriteKeepsPending(s, index, e, now);
    OverwriteKeepsReport(s, index, e, now);
  }

  /** A look after the overwrite reports what is due. */
  ghost predicate LooksRight(n: State, time: nat) {
    Reports(n.history, time, Poll(n.disk, time).durable)
  }

  /** What is pending lies above what is durable. */
  lemma PendingIsAhead(s: State, t: nat)
    requires Consistent(s) && t in s.disk.pending
    ensures s.disk.pending[t] > s.disk.durable && t <= s.clock + Lag(s.disk)
  {
    hide Dense, NextSlot;
    assert Record(s.disk.pending[t], t) in s.history;
  }

  /** Before the new write is due, a look makes durable what is due of the indices up to it. */
  lemma LookBeforeNewWrite(s: State, index: nat, e: Entry, now: nat, time: nat)
    requires Consistent(s) && WellFormed(s.store) && s.clock <= now <= time < now + Lag(s.disk)
    ensures var durable := Poll(Overwritten(s, index, e, now).disk, time).durable;
      || durable == s.disk.durable
      || exists u :: u in s.disk.pending && u <= time && s.disk.pending[u] <= index && durable == s.disk.pending[u]
    ensures forall u :: u in s.disk.pending && u <= time && s.disk.pending[u] <= index ==>
              s.disk.pending[u] <= Poll(Overwritten(s, index, e, now).disk, time).durable
  {
    hide Dense, LastDue, Kept, WriteAt, HistoryInOrder, PendingIsHistory, Reports;
    var pending := Overwritten(s, index, e, now).disk.pending;
    var last := LastDue(pending, time);
    forall u | u in s.disk.pending && u <= time && s.disk.pending[u] <= index
      ensures u in pending && pending[u] == s.disk.pending[u] && last.Some?
      ensures pending[u] <= pending[last.value]
    {
      assert u in pending && last.Some?;
      if u < last.value {
        PendingIncreases(s, u, last.value);
      }
    }
  }

  /** Where the overwrite disturbs the disk, a look before the new write is due misreports. */
  lemma DisturbedMisreports(s: State, index: nat, e: Entry, now: nat) returns (time: nat)
    requires Consistent(s) && s.clock <= now && s.store.start <= index <= NextSlot(s.store)
    requires !Undisturbed(s, index, now)
    ensures now <= time && !LooksRight(Overwritten(s, index, e, now), time)
  {
    assert WellFormed(s.store) && index > 0;
    hide Dense, NextSlot, WriteAt, Poll, Kept, HistoryInOrder, PendingIsHistory;
    var pending, soon := s.disk.pending, now + Lag(s.disk);
    forall u | u in pending ensures pending[u] > s.disk.durable && u <= soon {
      PendingIsAhead(s, u);
    }
    if s.disk.durable >= index {
      time := now;
      LookBeforeNewWrite(s, index, e, now, time);
    } else if t :| t in pending && t != soon && pending[t] == index {
      time := if t < now then now else t;
      LookBeforeNewWrite(s, index, e, now, time);
    } else {
      var r :| r in s.history && r.due in pending && r.due != soon && pending[r.due] > index && r.index < index;
      time := if r.due < now then now else r.due;
      LookBeforeNewWrite(s, index, e, now, time);
      LostReportIsMissed(s, index, e, now, r, time);
    }
  }

  /** The append that a forgotten write stood for is due and not reported. */
  lemma LostReportIsMissed(s: State, index: nat, e: Entry, now: nat, r: Record, time: nat)
    requires Consistent(s) && WellFormed(s.store) && s.clock <= now <= time < now + Lag(s.disk)
    requires s.disk.durable < index
    requires r in s.history && r.index < index && r.due in s.disk.pending && s.disk.pending[r.due] > index
    requires r.due <= time
    ensures !LooksRight(Overwritten(s, index, e, now), time)
  {
    hide Dense, NextSlot, WriteAt, Poll, Kept;
    var pending, durable := s.disk.pending, Poll(Overwritten(s, index, e, now).disk, time).durable;
    assert s.disk.durable < r.index;
    forall u | u in pending && pending[u] <= index ensures pending[u] < r.index {
      assert Record(pending[u], u) in s.history;
      if r.due < u {
        PendingIncreases(s, r.due, u);
      }
    }
    LookBeforeNewWrite(s, index, e, now, time);
    assert durable < r.index && r in Overwritten(s, index, e, now).history;
  }

  lemma ConsistentReports(s: State)
    requires Consistent(s)
    ensures Reports(s.history, s.polled, s.disk.durable) && WellFormed(s.store)
  {
  }

  /** The durable index stays exact after an overwrite, at every later look, exactly when the
      overwrite leaves the disk undisturbed. */
  lemma OverwriteKeepsExact(s: State, index: nat, e: Entry, now: nat)
    requires Consistent(s) && s.clock <= now && s.store.start <= index <= NextSlot(s.store)
    ensures (forall time :: now <= time ==> LooksRight(Overwritten(s, index, e, now), time))
       <==> Undisturbed(s, index, now)
    ensures Undisturbed(s, index, now) ==> Consistent(Overwritten(s, index, e, now))
  {
    assert WellFormed(s.store);
    hide Dense, NextSlot, WriteAt, Kept, Consistent, Undisturbed, Poll, Reports;
    var n := Overwritten(s, index, e, now);
    if Undisturbed(s, index, now) {
      OverwriteStays(s, index, e, now);
      forall time | now <= time ensures LooksRight(n, time) {
        PollStays(n, time);
        ConsistentReports(Step(n, Polls(time)));
      }
    } else {
      var time := DisturbedMisreports(s, index, e, now);
    }
  }

  /** In particular the durable index is past the log exactly when the overwrite goes below it. */
  lemma OverwriteLeavesDurableAhead(s: State, index: nat, e: Entry, now: nat)
    requires Consistent(s) && s.store.start <= index <= NextSlot(s.store)
    ensures EnqueueOver(s.disk, index, now).durable < NextSlot(WriteAt(s.store, index, e)) <==> s.disk.durable <= index
  {
    WriteAtTruncates(s.store, index, e);
  }
}
