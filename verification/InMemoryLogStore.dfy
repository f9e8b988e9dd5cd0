/** The in-memory Raft log store as the program has it. Every call holds the lock throughout. */
module InMemoryLogStore {
  import opened LogDurability
  import opened LogPack
  import opened LogStoreModel
  import opened WireBuffer
  import opened Wrappers

  /** The least key that is not below `key`. */
  predicate IsLowerBound<V>(m: map<nat, V>, key: nat, r: Option<nat>) {
    match r
    case None => forall k :: k in m ==> k < key
    case Some(least) => least in m && least >= key && forall k :: k in m && k >= key ==> least <= k
  }

  method LowerBound<V>(m: map<nat, V>, key: nat) returns (r: Option<nat>)
    ensures IsLowerBound(m, key, r)
  {
    var keys := set k | k in m && k >= key;
    assert forall k :: k in m && k >= key ==> k in keys;
    if keys == {} {
      return None;
    }
    ghost var m0 := Least(keys);
    var k :| k in keys && forall j :: j in keys ==> k <= j;
    r := Some(k);
  }

  // Batches.

  function SizeOf(es: seq<Entry>): nat {
    if es == [] then 0 else SizeOf(es[..|es| - 1]) + |es[|es| - 1].buf|
  }

  /** The entries' bytes, one after the other. */
  function AllBytes(es: seq<Entry>): seq<Byte> {
    if es == [] then [] else AllBytes(es[..|es| - 1]) + es[|es| - 1].buf
  }

  lemma {:induction false} SizeCountsBytes(es: seq<Entry>)
    ensures SizeOf(es) == |AllBytes(es)|
  {
    if es != [] {
      SizeCountsBytes(es[..|es| - 1]);
    }
  }

  lemma NothingCounts()
    ensures SizeOf([]) == 0
  {
  }

  function Range(s: Store, start: nat, end: nat): seq<Entry>
    requires WellFormed(s) && start <= end
  {
    seq(end - start, i requires 0 <= i < end - start => EntryAt(s, start + i))
  }

  lemma RangeAt(s: Store, start: nat, end: nat, i: nat)
    requires WellFormed(s) && start <= i < end
    ensures Range(s, start, end)[i - start] == EntryAt(s, i)
    ensures Range(s, start, i + 1) == Range(s, start, i) + [EntryAt(s, i)]
  {
    assert start + (i - start) == i;
  }

  /** The shortest prefix of the range that reaches a positive hint, or all of it. */
  predicate IsBatch(range: seq<Entry>, hint: int, r: seq<Entry>) {
    if hint < 0 then r == []
    else if hint == 0 then r == range
    else
      && r <= range
      && (r == range || SizeOf(r) >= hint)
      && BelowHint(r, hint)
  }

  /** No shorter prefix reaches the hint. */
  predicate BelowHint(r: seq<Entry>, hint: int) {
    forall k :: 0 <= k < |r| ==> SizeOf(r[..k]) < hint
  }

  lemma {:induction false} BelowHintSnoc(r: seq<Entry>, e: Entry, hint: int)
    ensures SizeOf(r + [e]) == SizeOf(r) + |e.buf|
    ensures BelowHint(r, hint) && SizeOf(r) < hint ==> BelowHint(r + [e], hint)
  {
    assert (r + [e])[..|r|] == r;
    forall k | 0 <= k < |r| ensures (r + [e])[..k] == r[..k] {
    }
  }

  lemma BatchIsUnique(range: seq<Entry>, hint: int, q: seq<Entry>, r: seq<Entry>)
    requires IsBatch(range, hint, q) && IsBatch(range, hint, r)
    ensures q == r
  {
    if hint > 0 {
      var k := if |q| < |r| then |q| else |r|;
      assert q[..k] == range[..k] == r[..k];
      assert q[..|q|] == q && r[..|r|] == r;
    }
  }

  class InMemoryLogStore {
    const codec: Codec
    var logs: map<nat, Entry>
    var startIdx: nat
    var diskDelay: nat
    var beingWritten: map<nat, nat>
    var lastDurable: nat

    ghost predicate Valid()
      reads this
    {
      WellFormed(Log())
    }

    function Log(): Store
      reads this
    {
      Store(logs, startIdx)
    }

    function EmulatedDisk(): Disk
      reads this
    {
      Disk(diskDelay, beingWritten, lastDurable)
    }

    constructor (entryCodec: Codec)
      ensures Valid() && codec == entryCodec
      ensures Log() == NEW_STORE && EmulatedDisk() == Disk(0, map[], 0)
      ensures logs == map[0 := Entry(0, APP_LOG, [0, 0, 0, 0, 0, 0, 0, 0])] && startIdx == 1
    {
      codec := entryCodec;
      logs := map[0 := DUMMY];
      startIdx := 1;
      diskDelay, beingWritten, lastDurable := 0, map[], 0;
    }

    method NextSlot() returns (n: nat)
      requires Valid()
      ensures n == LogStoreModel.NextSlot(Log())
      ensures Dense(Log()) ==> n == Next(Abs(Log())) && n !in logs && forall k :: k in logs ==> k < n
    {
      assert |logs| > 0;
      n := startIdx + |logs| - 1;
    }

    method LastEntry() returns (e: Entry)
      requires Valid()
      ensures e == EntryAt(Log(), LogStoreModel.NextSlot(Log()) - 1)
      ensures Dense(Log()) ==> e == if Abs(Log()).entries == [] then logs[0]
                                    else Abs(Log()).entries[|Abs(Log()).entries| - 1]
    {
      var next := NextSlot();
      e := if next - 1 in logs then logs[next - 1] else logs[0];
    }

    method FindEntry(index: nat) returns (e: Entry)
      requires Valid()
      ensures e == EntryAt(Log(), index)
      ensures Dense(Log()) ==> e == Lookup(Abs(Log()), index)
    {
      e := if index in logs then logs[index] else logs[0];
    }

    method TermAt(index: nat) returns (term: nat)
      requires Valid()
      ensures Dense(Log()) ==> term == Lookup(Abs(Log()), index).term
    {
      var e := FindEntry(index);
      term := e.term;
    }

    method Append(e: Entry, now: nat) returns (index: nat)
      requires Valid()
      modifies this
      ensures Valid() && index == LogStoreModel.NextSlot(old(Log()))
      ensures Log() == LogStoreModel.Append(old(Log()), e)
      ensures old(Dense(Log())) ==> index !in old(logs) && logs == old(logs)[index := e] && startIdx == old(startIdx)
      ensures EmulatedDisk() == Enqueue(old(EmulatedDisk()), index, now)
      ensures diskDelay != 0 ==> beingWritten == old(beingWritten)[now + 1000 * diskDelay := index]
    {
      index := NextSlot();
      logs := logs[index := e];
      if diskDelay != 0 {
        beingWritten := beingWritten[now + diskDelay * 1000 := index];
      }
    }

    method WriteAt(index: nat, e: Entry, now: nat)
      requires Valid()
      modifies this
      ensures Valid()
      ensures Log() == LogStoreModel.WriteAt(old(Log()), index, e)
      ensures index in logs && logs[index] == e && startIdx == old(startIdx)
      ensures forall k :: k in logs && k != index <==> k in old(logs) && k < index
      ensures forall k :: k in logs && k != index ==> logs[k] == old(logs)[k]
      ensures EmulatedDisk() == EnqueueOver(old(EmulatedDisk()), index, now)
    {
      EraseFrom(index);
      logs := logs[index := e];
      if diskDelay != 0 {
        beingWritten := beingWritten[now + diskDelay * 1000 := index];
        ForgetBeyond(index);
      }
    }

    method EraseFrom(index: nat)
      modifies this`logs
      ensures logs == map k | k in old(logs) && k < index :: old(logs)[k]
    {
      var itr := LowerBound(logs, index);
      while itr.Some?
        invariant forall k :: k in logs ==> k in old(logs) && logs[k] == old(logs)[k]
        invariant forall k :: k in old(logs) && k < index ==> k in logs
        invariant IsLowerBound(logs, index, itr)
        decreases logs.Keys
      {
        assert itr.value in logs.Keys;
        logs := logs - {itr.value};
        itr := LowerBound(logs, itr.value);
      }
    }

    method ForgetBeyond(index: nat)
      modifies this`beingWritten
      ensures beingWritten == map t | t in old(beingWritten) && old(beingWritten)[t] <= index :: old(beingWritten)[t]
    {
      var was := beingWritten;
      var seen: nat := 0;
      var entry := LowerBound(beingWritten, seen);
      while entry.Some?
        invariant forall t :: t in beingWritten ==> t in was && beingWritten[t] == was[t]
        invariant forall t :: t in was && (t >= seen || was[t] <= index) ==> t in beingWritten
        invariant forall t :: t in beingWritten && t < seen ==> was[t] <= index
        invariant IsLowerBound(beingWritten, seen, entry)
        decreases set t | t in beingWritten && t >= seen
      {
        ghost var left := set t | t in beingWritten && t >= seen;
        assert entry.value in left;
        if beingWritten[entry.value] > index {
          beingWritten := beingWritten - {entry.value};
        }
        seen := entry.value + 1;
        entry := LowerBound(beingWritten, seen);
        assert entry.None? || entry.value in left;
      }
    }

    method LogEntries(start: nat, end: nat) returns (r: Option<seq<Entry>>)
      requires Valid()
      ensures r == if end < start then None else Some(Range(Log(), start, end))
    {
      if end < start {
        return None;
      }
      var ret: seq<Entry> := [];
      for ii := start to end
        invariant ret == Range(Log(), start, ii)
      {
        var src := if ii in logs then logs[ii] else logs[0];
        RangeAt(Log(), start, end, ii);
        ret := ret + [src];
      }
      r := Some(ret);
    }

    method LogEntriesExt(start: nat, end: nat, hint: int) returns (ret: seq<Entry>)
      requires Valid()
      ensures IsBatch(if start <= end then Range(Log(), start, end) else [], hint, ret)
      ensures hint < 0 || end <= start ==> ret == []
      ensures hint == 0 && start <= end ==> |ret| == end - start
      ensures hint > 0 && start <= end && |ret| < end - start ==> |AllBytes(ret)| >= hint
    {
      hide SizeOf, AllBytes;
      NothingCounts();
      ret := [];
      if hint < 0 || end <= start {
        return;
      }
      ghost var range := Range(Log(), start, end);
      var accumSize := 0;
      for ii := start to end
        invariant ret == range[..ii - start]
        invariant accumSize == SizeOf(ret)
        invariant hint > 0 ==> accumSize < hint && BelowHint(ret, hint)
      {
        var src := if ii in logs then logs[ii] else logs[0];
        RangeAt(Log(), start, end, ii);
        BelowHintSnoc(ret, src, hint);
        ret := ret + [src];
        accumSize := accumSize + |src.buf|;
        if hint != 0 && accumSize >= hint {
          SizeCountsBytes(ret);
          return;
        }
      }
      assert range[..end - start] == range;
    }

    /** Needs every index to hold an entry: looking one up that is missing would insert a null. */
    method Pack(index: nat, cnt: int) returns (r: Result<Buffer, PackError>)
      requires Valid() && (cnt >= 0 ==> Holds(Log(), index, cnt))
      ensures cnt < 0 ==> r == Err(NegativeCount)
      ensures cnt >= 0 ==> r.Ok? && fresh(r.value) && fresh(r.value.data)
      ensures cnt >= 0 ==> r.value.data[..] == PackBytes(codec, Slice(Log(), index, cnt))
      ensures cnt >= 0 ==> r.value.Valid() && r.value.pos == r.value.data.Length
    {
      if cnt < 0 {
        return Err(NegativeCount);
      }
      ghost var es := Slice(Log(), index, cnt);
      var bufs, sizeTotal := SerializeAll(index, cnt);
      PackSize(codec, es);
      var out := new Buffer.Alloc(4 + 4 * cnt + sizeTotal);
      out.PutInt32(cnt);
      PutFrames(out, es, bufs);
      assert out.data[..out.pos] == out.data[..];
      r := Ok(out);
    }

    method SerializeAll(index: nat, cnt: nat) returns (bufs: seq<seq<Byte>>, sizeTotal: nat)
      requires Valid() && Holds(Log(), index, cnt)
      ensures sizeTotal == TotalSize(codec, Slice(Log(), index, cnt))
      ensures |bufs| == cnt && forall i :: 0 <= i < cnt ==> bufs[i] == codec.enc(logs[index + i])
    {
      ghost var es := Slice(Log(), index, cnt);
      bufs, sizeTotal := [], 0;
      for ii := 0 to cnt
        invariant |bufs| == ii && forall j :: 0 <= j < ii ==> bufs[j] == codec.enc(logs[index + j])
        invariant sizeTotal == TotalSize(codec, es[..ii])
      {
        var buf := codec.enc(logs[index + ii]);
        assert es[..ii + 1][..ii] == es[..ii];
        sizeTotal := sizeTotal + |buf|;
        bufs := bufs + [buf];
      }
      assert es[..cnt] == es;
    }

    method PutFrames(out: Buffer, ghost es: seq<Entry>, bufs: seq<seq<Byte>>)
      requires out.Valid() && out.pos + |Frames(codec, es)| <= out.data.Length
      requires |bufs| == |es| && forall i :: 0 <= i < |es| ==> bufs[i] == codec.enc(es[i])
      modifies out, out.data
      ensures out.Valid() && out.Written() == old(out.Written()) + Frames(codec, es)
    {
      hide Frames, Int32;
      NoFrames(codec, es);
      for i := 0 to |bufs|
        invariant out.Valid()
        invariant out.Written() == old(out.Written()) + Frames(codec, es[..i])
      {
        PackPrefix(codec, es, i);
        out.PutInt32(|bufs[i]|);
        out.PutBytes(bufs[i]);
      }
      assert es[..|es|] == es;
    }

    method ApplyPack(index: nat, pack: Buffer) returns (fault: Option<PackError>)
      requires Valid() && pack.Valid()
      modifies this, pack
      ensures Valid() && pack.Valid() && EmulatedDisk() == old(EmulatedDisk())
      ensures Applied(Log(), fault) == LogPack.ApplyPack(codec, old(Log()), index, pack.data[..])
    {
      pack.pos := 0;
      ghost var bytes := pack.data[..];
      var nlogs := pack.GetInt32();
      if nlogs.Err? {
        return Some(Short);
      }
      if nlogs.value < 0 {
        return Some(NegativeCount);
      }
      fault := StoreFrames(index, nlogs.value, pack);
      if fault.Some? {
        return;
      }
      var entry := LowerBound(logs, 1);
      startIdx := if entry.Some? then entry.value else 1;
      assert IsFirstKey(logs, startIdx);
      FirstKeyIsUnique(logs, startIdx);
    }

    method GetFrame(pack: Buffer) returns (r: Result<Entry, PackError>)
      requires pack.Valid()
      modifies pack
      ensures pack.Valid() && r == ReadFrame(codec, old(pack.Rest()))
      ensures r.Ok? ==> pack.Rest() == old(pack.Rest())[FrameEnd(old(pack.Rest()))..]
    {
      hide FromU32, FromInt32, ToInt32;
      ghost var all := pack.Rest();
      var bufSize := pack.GetInt32();
      if bufSize.Err? {
        return Err(Short);
      }
      if bufSize.value < 0 {
        return Err(NegativeSize);
      }
      var bufLocal := pack.GetBytes(bufSize.value);
      if bufLocal.Err? {
        return Err(Short);
      }
      SliceTwice(all, 4, bufSize.value);
      var le := codec.dec(bufLocal.value);
      r := if le.Some? then Ok(le.value) else Err(BadEntry);
    }

    method StoreFrames(index: nat, n: nat, pack: Buffer) returns (fault: Option<PackError>)
      requires pack.Valid()
      modifies this`logs, pack
      ensures pack.Valid()
      ensures var u := Unframe(codec, n, old(pack.Rest()));
        logs == Overlay(old(logs), index, u.es) && fault == u.fault
    {
      hide *;
      ghost var all, rest := pack.Rest(), pack.Rest();
      ghost var es: seq<Entry> := [];
      PrefixNothing(Unframe(codec, n, all));
      OverlayNothing(logs, index);
      for ii := 0 to n
        invariant pack.Valid() && |es| == ii && rest == pack.Rest()
        invariant logs == Overlay(old(logs), index, es)
        invariant Prefixed(es, Unframe(codec, n - ii, rest)) == Unframe(codec, n, all)
      {
        UnframeStep(codec, n - ii, rest, es);
        var le := GetFrame(pack);
        if le.Err? {
          return Some(le.error);
        }
        FrameRead(codec, n, ii, all, rest, es, old(logs), index, le.value);
        es := es + [le.value];
        rest := rest[FrameEnd(rest)..];
        logs := logs[index + ii := le.value];
      }
      UnframeDone(codec, rest, es);
      fault := None;
    }

    method Compact(last: nat)
      requires Valid()
      modifies this
      ensures Valid() && EmulatedDisk() == old(EmulatedDisk())
      ensures Log() == LogStoreModel.Compact(old(Log()), last)
      ensures forall k :: k in logs <==> k in old(logs) && (k < old(startIdx) || k > last)
      ensures forall k :: k in logs ==> logs[k] == old(logs)[k]
      ensures startIdx == if last < old(startIdx) then old(startIdx) else last + 1
    {
      var ii := startIdx;
      while ii <= last
        invariant startIdx <= ii && if startIdx <= last then ii <= last + 1 else ii == startIdx
        invariant startIdx == old(startIdx) && EmulatedDisk() == old(EmulatedDisk())
        invariant logs == map k | k in old(logs) && !(startIdx <= k < ii) :: old(logs)[k]
      {
        if ii in logs {
          logs := logs - {ii};
        }
        ii := ii + 1;
      }
      if startIdx <= last {
        startIdx := last + 1;
      }
    }

    method Flush() returns (ok: bool)
      requires Valid()
      modifies this`lastDurable
      ensures ok && Valid()
      ensures EmulatedDisk() == old(EmulatedDisk()).(durable := LogStoreModel.NextSlot(Log()) - 1)
    {
      var next := NextSlot();
      lastDurable := next - 1;
      ok := true;
    }

    method SetDiskDelay(delayMs: nat)
      modifies this`diskDelay
      ensures EmulatedDisk() == old(EmulatedDisk()).(delay := delayMs)
    {
      diskDelay := delayMs;
    }

    method LastDurableIndex() returns (index: nat)
      requires Valid()
      ensures diskDelay == 0 ==> index + 1 == LogStoreModel.NextSlot(Log())
      ensures diskDelay == 0 && Dense(Log()) && Abs(Log()).entries != [] ==>
                index in logs && forall k :: k in logs ==> k <= index
      ensures diskDelay != 0 ==> index == EmulatedDisk().durable
      ensures forall s: State :: Consistent(s) && s.store == Log() && s.disk == EmulatedDisk() ==>
                Reports(s.history, s.polled, index) && index < Next(Abs(Log()))
    {
      var next := NextSlot();
      index := if diskDelay == 0 then next - 1 else lastDurable;
    }

    /** One round of the emulator thread, from waking up to choosing its next sleep. */
    method EmulateDisk(now: nat) returns (nextSleep: int, notify: bool)
      requires Valid()
      modifies this`beingWritten, this`lastDurable
      ensures EmulatedDisk() == Poll(old(EmulatedDisk()), now)
      ensures Sleeps(EmulatedDisk(), now, nextSleep) && nextSleep > 0
      ensures if beingWritten == map[] then nextSleep == 100_000
              else now + nextSleep in beingWritten && forall t :: t in beingWritten ==> now + nextSleep <= t
      ensures notify <==> exists t :: t in old(beingWritten) && t <= now
      ensures notify == LastDue(old(beingWritten), now).Some?
    {
      notify := false;
      ghost var was := beingWritten;
      ghost var last: Option<nat> := None;
      var entry: Option<nat> := LowerBound(beingWritten, 0);
      while entry.Some? && entry.value <= now
        invariant IsLowerBound(beingWritten, 0, entry)
        invariant forall t :: t in beingWritten ==> t in was && beingWritten[t] == was[t]
        invariant forall t :: t in was && t > now ==> t in beingWritten
        invariant last.None? ==> beingWritten == was && lastDurable == old(lastDurable)
        invariant last.Some? ==> last.value in was && last.value <= now && lastDurable == was[last.value]
        invariant last.Some? ==> forall t :: t in was ==> t <= last.value || t in beingWritten
        invariant last.Some? ==> forall t :: t in beingWritten ==> t > last.value
        invariant notify == last.Some?
        decreases beingWritten.Keys
      {
        assert entry.value in beingWritten.Keys;
        last := Some(entry.value);
        lastDurable := beingWritten[entry.value];
        beingWritten := beingWritten - {entry.value};
        notify := true;
        entry := LowerBound(beingWritten, 0);
      }
      assert IsFound(was, now, last);
      LastDueIsUnique(was, now, last);
      assert beingWritten == After(was, now);
      nextSleep := if entry.Some? then entry.value - now else IDLE_SLEEP;
    }
  }

  function Prefixed(es: seq<Entry>, u: Unpacked): Unpacked {
    u.(es := es + u.es)
  }

  lemma SliceTwice(b: seq<Byte>, from: nat, n: nat)
    requires from + n <= |b|
    ensures b[from..][..n] == b[from..from + n] && b[from..][n..] == b[from + n..]
  {
  }

  lemma PrefixNothing(u: Unpacked)
    ensures Prefixed([], u) == u
  {
    assert [] + u.es == u.es;
  }

  lemma PrefixSnoc(es: seq<Entry>, e: Entry, u: Unpacked)
    ensures Prefixed(es + [e], u) == Prefixed(es, Prefixed([e], u))
  {
    assert es + [e] + u.es == es + ([e] + u.es);
  }

  /** What one more frame makes of the entries read before it. */
  lemma UnframeStep(c: Codec, n: nat, bytes: seq<Byte>, es: seq<Entry>)
    requires n > 0
    ensures ReadFrame(c, bytes).Err? ==>
              Prefixed(es, Unframe(c, n, bytes)) == Unpacked(es, bytes, Some(ReadFrame(c, bytes).error))
    ensures ReadFrame(c, bytes).Ok? ==>
              Unframe(c, n, bytes) == Prefixed([ReadFrame(c, bytes).value], Unframe(c, n - 1, bytes[FrameEnd(bytes)..]))
  {
    hide ReadFrame, FrameEnd;
    assert es + [] == es;
  }

  /** One more frame read: the entries so far, the map so far, and what is left to unframe. */
  lemma FrameRead(c: Codec, n: nat, ii: nat, all: seq<Byte>, rest: seq<Byte>, es: seq<Entry>,
                  logs: map<nat, Entry>, index: nat, e: Entry)
    requires ii < n && |es| == ii && ReadFrame(c, rest) == Ok(e)
    requires Prefixed(es, Unframe(c, n - ii, rest)) == Unframe(c, n, all)
    ensures Prefixed(es + [e], Unframe(c, n - (ii + 1), rest[FrameEnd(rest)..])) == Unframe(c, n, all)
    ensures Overlay(logs, index, es + [e]) == Overlay(logs, index, es)[index + ii := e]
  {
    hide ReadFrame, FrameEnd, Unframe, Overlay, Prefixed;
    UnframeStep(c, n - ii, rest, es);
    PrefixSnoc(es, e, Unframe(c, n - ii - 1, rest[FrameEnd(rest)..]));
    OverlaySnoc(logs, index, es, e);
  }

  lemma {:induction false} UnframeDone(c: Codec, bytes: seq<Byte>, es: seq<Entry>)
    ensures Prefixed(es, Unframe(c, 0, bytes)) == Unpacked(es, bytes, None)
  {
    assert es + [] == es;
  }

  lemma {:induction false} OverlayNothing(logs: map<nat, Entry>, index: nat)
    ensures Overlay(logs, index, []) == logs
  {
  }

  lemma {:induction false} OverlaySnoc(logs: map<nat, Entry>, index: nat, es: seq<Entry>, e: Entry)
    ensures Overlay(logs, index, es + [e]) == Overlay(logs, index, es)[index + |es| := e]
  {
    assert (es + [e])[..|es|] == es;
  }

  lemma FirstKeyIsUnique(logs: map<nat, Entry>, k: nat)
    requires IsFirstKey(logs, k)
    ensures k == FirstKey(logs)
  {
  }

  lemma LastDueIsUnique(pending: map<nat, nat>, now: nat, last: Option<nat>)
    requires IsFound(pending, now, last)
    ensures last == LastDue(pending, now)
  {
  }

  /** The next frame still fits into a buffer of the total size. */
  lemma {:induction false} PackPrefix(c: Codec, es: seq<Entry>, i: nat)
    requires i < |es|
    ensures |Frames(c, es[..i])| + 4 + |c.enc(es[i])| <= |Frames(c, es)|
    ensures Frames(c, es[..i + 1]) == Frames(c, es[..i]) + (Int32(|c.enc(es[i])|) + c.enc(es[i]))
  {
    assert es[..i + 1] == es[..i] + [es[i]];
    FramesSnoc(c, es[..i], es[i]);
    FramesSplit(c, es[..i + 1], es[i + 1..]);
    assert es == es[..i + 1] + es[i + 1..];
  }

  lemma {:induction false} NoFrames(c: Codec, es: seq<Entry>)
    ensures Frames(c, es[..0]) == []
  {
  }

  lemma {:induction false} FramesSplit(c: Codec, a: seq<Entry>, b: seq<Entry>)
    ensures Frames(c, a + b) == Frames(c, a) + Frames(c, b)
  {
    if a == [] {
      assert a + b == b;
    } else {
      FramesSplit(c, a[1..], b);
      assert (a + b)[1..] == a[1..] + b;
    }
  }
}
