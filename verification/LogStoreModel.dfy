/** The Raft log store on values, and the offset sequence it stands for. */
module LogStoreModel {
  import opened WireBuffer
  import opened Wrappers

  datatype ValType = APP_LOG | CONF

  datatype Entry = Entry(term: nat, valType: ValType, buf: seq<Byte>)

  /** The store as the program keeps it: a sparse map and a separate start index. */
  datatype Store = Store(logs: map<nat, Entry>, start: nat)

  /** What it stands for: a run of entries from `start` on, and what to answer elsewhere. */
  datatype OffsetLog = OffsetLog(dummy: Entry, start: nat, entries: seq<Entry>)

  // The program's operations.

  const DUMMY: Entry := Entry(0, APP_LOG, [0, 0, 0, 0, 0, 0, 0, 0])

  const NEW_STORE: Store := Store(map[0 := DUMMY], 1)

  /** The dummy is always there; this is all that a careless caller leaves intact. */
  predicate WellFormed(s: Store) {
    0 in s.logs && s.start >= 1
  }

  /** The next free index, found by counting entries. */
  function NextSlot(s: Store): nat
    requires WellFormed(s)
  {
    assert |s.logs| > 0;
    s.start + |s.logs| - 1
  }

  function Append(s: Store, e: Entry): Store
    requires WellFormed(s)
  {
    s.(logs := s.logs[NextSlot(s) := e])
  }

  /** Discards everything from `index` on before writing there. */
  function WriteAt(s: Store, index: nat, e: Entry): (r: Store)
    requires WellFormed(s)
    ensures WellFormed(r)
  {
    s.(logs := (map k | k in s.logs && k < index :: s.logs[k])[index := e])
  }

  function Compact(s: Store, last: nat): (r: Store)
    requires WellFormed(s)
    ensures WellFormed(r)
  {
    Store(map k | k in s.logs && !(s.start <= k <= last) :: s.logs[k],
          if s.start <= last then last + 1 else s.start)
  }

  /** The map with the entries of a pack written over it, one index after the other. */
  function Overlay(logs: map<nat, Entry>, index: nat, es: seq<Entry>): (r: map<nat, Entry>)
    ensures forall k :: k in r <==> k in logs || index <= k < index + |es|
  {
    if es == [] then logs
    else Overlay(logs, index, es[..|es| - 1])[index + |es| - 1 := es[|es| - 1]]
  }

  lemma {:induction false} OverlayAt(logs: map<nat, Entry>, index: nat, es: seq<Entry>, k: nat)
    ensures index <= k < index + |es| ==> Overlay(logs, index, es)[k] == es[k - index]
    ensures k in logs && !(index <= k < index + |es|) ==> Overlay(logs, index, es)[k] == logs[k]
  {
    if es != [] {
      OverlayAt(logs, index, es[..|es| - 1], k);
    }
  }

  predicate IsFirstKey(logs: map<nat, Entry>, k: nat) {
    if k in logs && k > 0
    then forall j :: j in logs && j > 0 ==> k <= j
    else k == 1 && forall j :: j in logs ==> j == 0
  }

  /** The least key above the dummy's, or 1 where there is none. */
  ghost function FirstKey(logs: map<nat, Entry>): (k: nat)
    ensures IsFirstKey(logs, k)
  {
    HasFirstKey(logs, logs.Keys - {0});
    var k: nat :| IsFirstKey(logs, k);
    k
  }

  lemma {:induction false} Least(keys: set<nat>) returns (m: nat)
    requires keys != {}
    ensures m in keys && forall j :: j in keys ==> m <= j
  {
    var k :| k in keys;
    var rest := keys - {k};
    assert forall j :: j in keys ==> j == k || j in rest;
    if rest == {} {
      m := k;
    } else {
      m := Least(rest);
      m := if k < m then k else m;
    }
  }

  lemma HasFirstKey(logs: map<nat, Entry>, keys: set<nat>)
    requires keys == logs.Keys - {0}
    ensures exists k: nat :: IsFirstKey(logs, k)
  {
    if keys == {} {
      assert forall j :: j in logs ==> j == 0 || j in keys;
      assert IsFirstKey(logs, 1);
    } else {
      var k := Least(keys);
      forall j | j in logs && j > 0 ensures k <= j {
        assert j in keys;
      }
      assert IsFirstKey(logs, k);
    }
  }

  ghost function ApplyEntries(s: Store, index: nat, es: seq<Entry>): (r: Store)
    requires WellFormed(s)
    ensures WellFormed(r)
  {
    var logs := Overlay(s.logs, index, es);
    Store(logs, FirstKey(logs))
  }

  /** A lookup falls back on the dummy. */
  function EntryAt(s: Store, index: nat): Entry
    requires WellFormed(s)
  {
    if index in s.logs then s.logs[index] else s.logs[0]
  }

  // The offset sequence.

  /** The keys are the dummy's and an interval, and counting finds its end. */
  ghost predicate Dense(s: Store) {
    WellFormed(s) && forall k: nat :: k in s.logs <==> k == 0 || s.start <= k < NextSlot(s)
  }

  ghost function Abs(s: Store): (l: OffsetLog)
    requires Dense(s)
    ensures l.start + |l.entries| == NextSlot(s)
  {
    OffsetLog(s.logs[0], s.start, seq(|s.logs| - 1, i requires 0 <= i < |s.logs| - 1 => s.logs[s.start + i]))
  }

  function Next(l: OffsetLog): nat {
    l.start + |l.entries|
  }

  function Lookup(l: OffsetLog, index: nat): Entry {
    if l.start <= index < Next(l) then l.entries[index - l.start] else l.dummy
  }

  function Appended(l: OffsetLog, e: Entry): OffsetLog {
    l.(entries := l.entries + [e])
  }

  predicate WriteFits(l: OffsetLog, index: nat) {
    index == 0 || l.start <= index <= Next(l)
  }

  function Written(l: OffsetLog, index: nat, e: Entry): OffsetLog
    requires WriteFits(l, index)
  {
    if index == 0 then l.(dummy := e, entries := [])
    else l.(entries := l.entries[..index - l.start] + [e])
  }

  function Compacted(l: OffsetLog, last: nat): OffsetLog {
    if last < l.start then l
    else if last + 1 < Next(l) then l.(start := last + 1, entries := l.entries[last + 1 - l.start..])
    else l.(start := last + 1, entries := [])
  }

  /** The pack overlaps or touches what is there; entry zero only replaces the dummy. */
  predicate PackFits(l: OffsetLog, index: nat, count: nat) {
    var lo := if index == 0 then 1 else index;
    || index + count <= lo
    || l.entries == []
    || (lo <= Next(l) && l.start <= index + count)
  }

  function Patched(l: OffsetLog, index: nat, es: seq<Entry>): OffsetLog
    requires PackFits(l, index, |es|) && l.start >= 1
  {
    var dummy := if index == 0 && es != [] then es[0] else l.dummy;
    var body := if index == 0 && es != [] then es[1..] else es;
    var lo := if index == 0 then 1 else index;
    var hi := lo + |body|;
    if body == [] then OffsetLog(dummy, if l.entries == [] then 1 else l.start, l.entries)
    else if l.entries == [] then OffsetLog(dummy, lo, body)
    else
      var before := if l.start < lo then l.entries[..lo - l.start] else [];
      var after := if hi < Next(l) then l.entries[hi - l.start..] else [];
      OffsetLog(dummy, if l.start < lo then l.start else lo, before + body + after)
  }

  // Counting.

  ghost function Interval(lo: nat, hi: nat): (s: set<nat>)
    requires lo <= hi
    ensures forall k :: k in s <==> lo <= k < hi
    ensures |s| == hi - lo
    decreases hi - lo
  {
    if lo == hi then {} else Interval(lo, hi - 1) + {hi - 1}
  }

  /** A store whose keys are the dummy's and [start, next) counts to `next`. */
  lemma IntervalCounts(s: Store, next: nat)
    requires 1 <= s.start <= next
    requires forall k: nat :: k in s.logs <==> k == 0 || s.start <= k < next
    ensures Dense(s) && NextSlot(s) == next
  {
    assert s.logs.Keys == Interval(s.start, next) + {0};
    assert |s.logs| == |s.logs.Keys|;
  }

  /** The store answers like `l` at every index, with the bounds and the dummy of `l`. */
  ghost predicate Represents(s: Store, l: OffsetLog) {
    && Dense(s)
    && Abs(s) == l
  }

  /** To represent `l`, hold its entries at its indices and its dummy at zero. */
  lemma Represent(s: Store, l: OffsetLog)
    requires l.start >= 1 && s.start == l.start
    requires 0 in s.logs && s.logs[0] == l.dummy
    requires forall k: nat :: k in s.logs <==> k == 0 || l.start <= k < Next(l)
    requires forall k: nat :: l.start <= k < Next(l) ==> s.logs[k] == l.entries[k - l.start]
    ensures Represents(s, l)
  {
    IntervalCounts(s, Next(l));
    var a := Abs(s);
    assert |a.entries| == |l.entries|;
    assert forall i :: 0 <= i < |a.entries| ==> a.entries[i] == l.entries[i];
  }

  /** In range the store holds the sequence's elements; a lookup elsewhere finds the dummy. */
  lemma LookupReads(s: Store, index: nat)
    requires Dense(s)
    ensures index > 0 ==> (index in s.logs <==> Abs(s).start <= index < Next(Abs(s)))
    ensures EntryAt(s, index) == Lookup(Abs(s), index)
  {
  }

  // Every operation, on its offset sequence.

  lemma NewStoreIsEmpty()
    ensures Represents(NEW_STORE, OffsetLog(DUMMY, 1, []))
  {
    Represent(NEW_STORE, OffsetLog(DUMMY, 1, []));
  }

  lemma AppendExtends(s: Store, e: Entry)
    requires Dense(s)
    ensures Represents(Append(s, e), Appended(Abs(s), e))
  {
    Represent(Append(s, e), Appended(Abs(s), e));
  }

  lemma WriteAtTruncates(s: Store, index: nat, e: Entry)
    requires Dense(s) && WriteFits(Abs(s), index)
    ensures Represents(WriteAt(s, index, e), Written(Abs(s), index, e))
  {
    Represent(WriteAt(s, index, e), Written(Abs(s), index, e));
  }

  lemma CompactDrops(s: Store, last: nat)
    requires Dense(s)
    ensures Represents(Compact(s, last), Compacted(Abs(s), last))
  {
    Represent(Compact(s, last), Compacted(Abs(s), last));
  }

  /** The patched sequence, index by index. */
  lemma PatchedHolds(l: OffsetLog, index: nat, es: seq<Entry>, k: nat)
    requires l.start >= 1 && k > 0 && PackFits(l, index, |es|)
    ensures var r := Patched(l, index, es);
      && (r.start <= k < Next(r) <==> index <= k < index + |es| || l.start <= k < Next(l))
      && (index <= k < index + |es| ==> Lookup(r, k) == es[k - index])
      && (l.start <= k < Next(l) && !(index <= k < index + |es|) ==> Lookup(r, k) == Lookup(l, k))
  {
  }

  lemma PatchedStarts(l: OffsetLog, index: nat, es: seq<Entry>)
    requires l.start >= 1 && PackFits(l, index, |es|)
    ensures Patched(l, index, es).start >= 1
    ensures Patched(l, index, es).entries == [] ==> Patched(l, index, es).start == 1
  {
  }

  /** Overlaying the map and patching the sequence agree on every index. */
  lemma {:induction false} OverlayIsPatch(s: Store, index: nat, es: seq<Entry>, k: nat)
    requires Dense(s) && PackFits(Abs(s), index, |es|)
    ensures var r, l := Overlay(s.logs, index, es), Patched(Abs(s), index, es);
      && (k in r <==> k == 0 || l.start <= k < Next(l))
      && (k in r ==> r[k] == Lookup(l, k))
  {
    OverlayAt(s.logs, index, es, k);
    PatchedStarts(Abs(s), index, es);
    if k > 0 {
      PatchedHolds(Abs(s), index, es, k);
      LookupReads(s, k);
      hide *;
    }
  }

  /** A store with the right entries and the least key for a start represents the sequence. */
  lemma StartsWhereItShould(s: Store, l: OffsetLog)
    requires WellFormed(s) && l.start >= 1 && (l.entries == [] ==> l.start == 1)
    requires forall k: nat :: k in s.logs <==> k == 0 || l.start <= k < l.start + |l.entries|
    requires forall k: nat :: k in s.logs ==> s.logs[k] == Lookup(l, k)
    requires IsFirstKey(s.logs, s.start)
    ensures Represents(s, l)
  {
    assert l.entries != [] ==> l.start in s.logs;
    hide Represents;
    Represent(s, l);
  }

  lemma ApplyPatches(s: Store, index: nat, es: seq<Entry>)
    requires Dense(s) && PackFits(Abs(s), index, |es|)
    ensures Represents(ApplyEntries(s, index, es), Patched(Abs(s), index, es))
  {
    var l := Patched(Abs(s), index, es);
    var r := ApplyEntries(s, index, es);
    assert WellFormed(r) && IsFirstKey(r.logs, r.start);
    PatchedStarts(Abs(s), index, es);
    hide *;
    forall k: nat
      ensures k in r.logs <==> k == 0 || l.start <= k < l.start + |l.entries|
      ensures k in r.logs ==> r.logs[k] == Lookup(l, k)
    {
      OverlayIsPatch(s, index, es, k);
    }
    StartsWhereItShould(r, l);
  }

  // The callers' duties are exact: break one and counting or lookup goes wrong.

  lemma WriteAtNeedsToFit(s: Store, index: nat, e: Entry)
    requires Dense(s)
    ensures Dense(WriteAt(s, index, e)) <==> WriteFits(Abs(s), index)
  {
    var r := WriteAt(s, index, e);
    if WriteFits(Abs(s), index) {
      WriteAtTruncates(s, index, e);
    } else {
      assert index in r.logs && (index > NextSlot(s) ==> NextSlot(s) !in r.logs);
    }
  }

  lemma ApplyNeedsToFit(s: Store, index: nat, es: seq<Entry>)
    requires Dense(s)
    ensures Dense(ApplyEntries(s, index, es)) <==> PackFits(Abs(s), index, |es|)
  {
    var r := ApplyEntries(s, index, es);
    if PackFits(Abs(s), index, |es|) {
      ApplyPatches(s, index, es);
    } else {
      var lo, hi := if index == 0 then 1 else index, index + |es|;
      assert lo in r.logs && s.start in r.logs;
      assert if lo > NextSlot(s) then NextSlot(s) !in r.logs else hi !in r.logs;
    }
  }

  /** A pack that fits may still move the next slot back, by setting the start anew: it does not
      exactly when there are entries, or the start is 1 already, or the pack reaches the start. */
  lemma ApplyMovesForward(s: Store, index: nat, es: seq<Entry>)
    requires Dense(s) && PackFits(Abs(s), index, |es|)
    ensures NextSlot(ApplyEntries(s, index, es)) >= NextSlot(s)
       <==> Abs(s).entries != [] || s.start == 1 || (es != [] && s.start <= index + |es|)
  {
    ApplyPatches(s, index, es);
  }

  /** With no entry at all: an empty pack starts an emptied store over. */
  lemma EmptyPackStartsOver(s: Store, index: nat)
    requires Dense(s) && Abs(s).entries == []
    ensures Dense(ApplyEntries(s, index, [])) && NextSlot(ApplyEntries(s, index, [])) == 1
  {
    ApplyPatches(s, index, []);
  }

  /** With entries: a pack below the start takes an emptied store back to the pack's own end. */
  lemma EarlyPackGoesBack(s: Store, index: nat, es: seq<Entry>)
    requires Dense(s) && Abs(s).entries == [] && es != [] && 0 < index && index + |es| < s.start
    ensures Dense(ApplyEntries(s, index, es)) && NextSlot(ApplyEntries(s, index, es)) == index + |es| < NextSlot(s)
  {
    ApplyPatches(s, index, es);
  }

  // Whole runs.

  datatype Op = DoAppend(e: Entry) | DoWriteAt(index: nat, e: Entry) | DoCompact(last: nat)
              | DoApply(index: nat, es: seq<Entry>)

  ghost function Do(s: Store, op: Op): (r: Store)
    requires WellFormed(s)
    ensures WellFormed(r)
  {
    match op
    case DoAppend(e) => Append(s, e)
    case DoWriteAt(index, e) => WriteAt(s, index, e)
    case DoCompact(last) => Compact(s, last)
    case DoApply(index, es) => ApplyEntries(s, index, es)
  }

  predicate Fits(l: OffsetLog, op: Op) {
    match op
    case DoAppend(_) => true
    case DoWriteAt(index, _) => WriteFits(l, index)
    case DoCompact(_) => true
    case DoApply(index, es) => PackFits(l, index, |es|)
  }

  function DoAbs(l: OffsetLog, op: Op): (r: OffsetLog)
    requires l.start >= 1 && Fits(l, op)
    ensures r.start >= 1
  {
    match op
    case DoAppend(e) => Appended(l, e)
    case DoWriteAt(index, e) => Written(l, index, e)
    case DoCompact(last) => Compacted(l, last)
    case DoApply(index, es) => Patched(l, index, es)
  }

  ghost function Run(s: Store, ops: seq<Op>): (r: Store)
    requires WellFormed(s)
    ensures WellFormed(r)
  {
    if ops == [] then s else Do(Run(s, ops[..|ops| - 1]), ops[|ops| - 1])
  }

  function RunAbs(l: OffsetLog, ops: seq<Op>): (r: Option<OffsetLog>)
    requires l.start >= 1
    ensures r.Some? ==> r.value.start >= 1
  {
    if ops == [] then Some(l)
    else
      var before := RunAbs(l, ops[..|ops| - 1]);
      var op := ops[|ops| - 1];
      if before.Some? && Fits(before.value, op) then Some(DoAbs(before.value, op)) else None
  }

  lemma StepRefines(s: Store, op: Op)
    requires Dense(s)
    ensures Dense(Do(s, op)) <==> Fits(Abs(s), op)
    ensures Fits(Abs(s), op) ==> Represents(Do(s, op), DoAbs(Abs(s), op))
  {
    match op
    case DoAppend(e) =>
      AppendExtends(s, e);
    case DoWriteAt(index, e) =>
      WriteAtNeedsToFit(s, index, e);
      if WriteFits(Abs(s), index) {
        WriteAtTruncates(s, index, e);
      }
    case DoCompact(last) =>
      CompactDrops(s, last);
    case DoApply(index, es) =>
      ApplyNeedsToFit(s, index, es);
      if PackFits(Abs(s), index, |es|) {
        ApplyPatches(s, index, es);
      }
  }

  /** Through any run whose operations fit, the store is its offset sequence. */
  lemma {:induction false} RunRefines(s: Store, ops: seq<Op>)
    requires Dense(s)
    ensures RunAbs(Abs(s), ops).Some? ==> Represents(Run(s, ops), RunAbs(Abs(s), ops).value)
  {
    if ops != [] {
      var front := ops[..|ops| - 1];
      RunRefines(s, front);
      if RunAbs(Abs(s), ops).Some? {
        StepRefines(Run(s, front), ops[|ops| - 1]);
      }
    }
  }
}
