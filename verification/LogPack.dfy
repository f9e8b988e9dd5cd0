/** Packs of log entries: a count, then each entry behind its size. The bytes of one entry are
    Raft's business, so its codec is a parameter. */
module LogPack {
  import opened LogStoreModel
  import opened WireBuffer
  import opened Wrappers

  datatype Codec = Codec(enc: Entry -> seq<Byte>, dec: seq<Byte> -> Option<Entry>)

  /** The entry reads back, and a signed 32-bit size can announce it. */
  predicate Sendable(c: Codec, e: Entry) {
    c.dec(c.enc(e)) == Some(e) && |c.enc(e)| < TWO_31
  }

  datatype PackError = NegativeCount | NegativeSize | Short | BadEntry

  // Framing.

  function Frame(c: Codec, e: Entry): seq<Byte> {
    Int32(|c.enc(e)|) + c.enc(e)
  }

  function Frames(c: Codec, es: seq<Entry>): seq<Byte> {
    if es == [] then [] else Frame(c, es[0]) + Frames(c, es[1..])
  }

  function PackBytes(c: Codec, es: seq<Entry>): seq<Byte> {
    Int32(|es|) + Frames(c, es)
  }

  function TotalSize(c: Codec, es: seq<Entry>): nat {
    if es == [] then 0 else TotalSize(c, es[..|es| - 1]) + |c.enc(es[|es| - 1])|
  }

  lemma {:induction false} FramesSnoc(c: Codec, es: seq<Entry>, e: Entry)
    ensures Frames(c, es + [e]) == Frames(c, es) + Frame(c, e)
  {
    if es == [] {
      assert es + [e] == [e];
      assert Frames(c, [e]) == Frame(c, e) + Frames(c, [e][1..]);
    } else {
      FramesSnoc(c, es[1..], e);
      assert (es + [e])[1..] == es[1..] + [e];
    }
  }

  /** Four bytes for the count, four for every size, and the entries. */
  lemma {:induction false} PackSize(c: Codec, es: seq<Entry>)
    ensures |Frames(c, es)| == 4 * |es| + TotalSize(c, es)
    ensures |PackBytes(c, es)| == 4 + 4 * |es| + TotalSize(c, es)
  {
    hide U32;
    if es != [] {
      var front, e := es[..|es| - 1], es[|es| - 1];
      PackSize(c, front);
      FramesSnoc(c, front, e);
      assert es == front + [e];
    }
  }

  /** A pack begins with its count, the least significant byte first, and its first frame with the
      size of the entry and the entry. */
  lemma PackLayout(c: Codec, es: seq<Entry>)
    requires |es| < TWO_32
    ensures Tells(PackBytes(c, es), 0, |es|)
    ensures es != [] && |c.enc(es[0])| < TWO_32 ==> HoldsStr(PackBytes(c, es), 4, c.enc(es[0]))
  {
    hide HoldsStr, Tells, Int32;
    TellsWritten(|es|, Frames(c, es));
    if es != [] && |c.enc(es[0])| < TWO_32 {
      HoldsWritten(Int32(|es|), c.enc(es[0]), Frames(c, es[1..]));
      assert PackBytes(c, es) == Int32(|es|) + Str(c.enc(es[0])) + Frames(c, es[1..]);
    }
  }

  // Reading frames back.

  /** The entries read before the end or the first fault, the bytes left, and the fault. */
  datatype Unpacked = Unpacked(es: seq<Entry>, rest: seq<Byte>, fault: Option<PackError>)

  /** The entry a frame at the head of the bytes holds, or what is wrong with it. */
  function ReadFrame(c: Codec, bytes: seq<Byte>): (r: Result<Entry, PackError>)
    ensures r.Ok? ==> 0 <= FrameEnd(bytes) <= |bytes|
  {
    if |bytes| < 4 then Err(Short)
    else
      var size := FromInt32(bytes[..4]);
      if size < 0 then Err(NegativeSize)
      else if |bytes| - 4 < size then Err(Short)
      else
        match c.dec(bytes[4..4 + size])
        case None => Err(BadEntry)
        case Some(e) => Ok(e)
  }

  function FrameEnd(bytes: seq<Byte>): int {
    if |bytes| < 4 then 4 else 4 + FromInt32(bytes[..4])
  }

  function Unframe(c: Codec, n: nat, bytes: seq<Byte>): (u: Unpacked)
    ensures |u.es| <= n && (u.fault.None? <==> |u.es| == n)
  {
    if n == 0 then Unpacked([], bytes, None)
    else
      match ReadFrame(c, bytes)
      case Err(fault) => Unpacked([], bytes, Some(fault))
      case Ok(e) =>
        var u := Unframe(c, n - 1, bytes[FrameEnd(bytes)..]);
        u.(es := [e] + u.es)
  }

  /** Frames read back one by one; nothing of them is left over. */
  lemma {:induction false} FramesReadBack(c: Codec, es: seq<Entry>, tail: seq<Byte>)
    requires forall i :: 0 <= i < |es| ==> Sendable(c, es[i])
    ensures Unframe(c, |es|, Frames(c, es) + tail) == Unpacked(es, tail, None)
  {
    hide U32, FromU32, Int32, FromInt32;
    if es == [] {
      assert Frames(c, es) + tail == tail;
    } else {
      var body, rest := c.enc(es[0]), Frames(c, es[1..]) + tail;
      var bytes := Frames(c, es) + tail;
      assert bytes == Int32(|body|) + body + rest;
      Int32ReadsBack(|body|);
      assert bytes[..4] == Int32(|body|);
      assert bytes[4..4 + |body|] == body;
      assert bytes[4 + |body|..] == rest;
      assert ReadFrame(c, bytes) == Ok(es[0]) && FrameEnd(bytes) == 4 + |body|;
      hide ReadFrame, FrameEnd;
      FramesReadBack(c, es[1..], tail);
      assert es == [es[0]] + es[1..];
    }
  }

  /** An entry of between 2^31 and 2^32 bytes makes its pack unreadable from there on: the entries
      before it are read, and its size is a negative number. */
  lemma {:induction false} LongEntryIsRefused(c: Codec, es: seq<Entry>, k: nat, tail: seq<Byte>)
    requires k < |es| && TWO_31 <= |c.enc(es[k])| < TWO_32
    requires forall i :: 0 <= i < k ==> Sendable(c, es[i])
    ensures Unframe(c, |es|, Frames(c, es) + tail).es == es[..k]
    ensures Unframe(c, |es|, Frames(c, es) + tail).fault == Some(NegativeSize)
  {
    hide U32, FromU32, Int32, FromInt32;
    var body, rest := c.enc(es[0]), Frames(c, es[1..]) + tail;
    var bytes := Frames(c, es) + tail;
    assert bytes == Int32(|body|) + body + rest;
    Int32ReadsBack(|body|);
    assert bytes[..4] == Int32(|body|);
    if k == 0 {
      assert ReadFrame(c, bytes) == Err(NegativeSize);
    } else {
      assert bytes[4..4 + |body|] == body;
      assert bytes[4 + |body|..] == rest;
      assert ReadFrame(c, bytes) == Ok(es[0]) && FrameEnd(bytes) == 4 + |body|;
      LongEntryIsRefused(c, es[1..], k - 1, tail);
      assert es[..k] == [es[0]] + es[1..][..k - 1];
    }
  }

  // Applying a pack to a store.

  datatype Applied = Applied(store: Store, fault: Option<PackError>)

  /** A fault leaves the entries before it in the map and the start index as it was. */
  ghost function ApplyPack(c: Codec, s: Store, index: nat, pack: seq<Byte>): (a: Applied)
    requires WellFormed(s)
    ensures WellFormed(a.store)
  {
    if |pack| < 4 then Applied(s, Some(Short))
    else
      var n := FromInt32(pack[..4]);
      if n < 0 then Applied(s, Some(NegativeCount))
      else
        var u := Unframe(c, n, pack[4..]);
        if u.fault.Some? then Applied(s.(logs := Overlay(s.logs, index, u.es)), u.fault)
        else Applied(ApplyEntries(s, index, u.es), None)
  }

  predicate Holds(s: Store, index: nat, n: nat) {
    forall k :: index <= k < index + n ==> k in s.logs
  }

  function Slice(s: Store, index: nat, n: nat): (es: seq<Entry>)
    requires Holds(s, index, n)
    ensures |es| == n
  {
    seq(n, i requires 0 <= i < n => s.logs[index + i])
  }

  lemma PackReadsBack(c: Codec, s: Store, index: nat, es: seq<Entry>)
    requires WellFormed(s) && |es| < TWO_31
    requires forall i :: 0 <= i < |es| ==> Sendable(c, es[i])
    ensures ApplyPack(c, s, index, PackBytes(c, es)) == Applied(ApplyEntries(s, index, es), None)
  {
    hide Overlay, FirstKey, FromU32, U32;
    var pack := PackBytes(c, es);
    assert pack[..4] == Int32(|es|) && pack[4..] == Frames(c, es) + [];
    Int32ReadsBack(|es|);
    FramesReadBack(c, es, []);
  }

  /** Such a pack leaves the entries before the long one in the receiver, and its start alone. */
  lemma {:induction false} LongEntryStopsPack(c: Codec, s: Store, index: nat, es: seq<Entry>, k: nat)
    requires WellFormed(s) && |es| < TWO_31 && k < |es| && TWO_31 <= |c.enc(es[k])| < TWO_32
    requires forall i :: 0 <= i < k ==> Sendable(c, es[i])
    ensures ApplyPack(c, s, index, PackBytes(c, es))
         == Applied(Store(Overlay(s.logs, index, es[..k]), s.start), Some(NegativeSize))
  {
    hide Overlay, FirstKey, FromU32, U32, Unframe;
    var pack := PackBytes(c, es);
    assert pack[..4] == Int32(|es|) && pack[4..] == Frames(c, es) + [];
    Int32ReadsBack(|es|);
    LongEntryIsRefused(c, es, k, []);
  }

  /** The count is negative when the top bit of its last byte is set. */
  lemma SignOfCount(b: seq<Byte>)
    requires |b| == 4
    ensures FromInt32(b) < 0 <==> b[3] >= 128
  {
    var b0: int, b1: int, b2: int, b3: int := b[0], b[1], b[2], b[3];
    assert FromU32(b) == b0 + 256 * b1 + 65536 * b2 + 16777216 * b3;
  }

  /** Whatever bytes arrive: with less than a count, or a negative one, nothing changes; a fault
      keeps the start, no fault makes it the least key; and no entry is lost, or touched outside the
      range that the count announces. */
  lemma AnyPack(c: Codec, s: Store, index: nat, pack: seq<Byte>)
    requires WellFormed(s)
    ensures var a := ApplyPack(c, s, index, pack);
      && (|pack| < 4 || pack[3] >= 128 ==> a.store == s && a.fault.Some?)
      && (a.fault.Some? ==> a.store.start == s.start)
      && (a.fault.None? ==> IsFirstKey(a.store.logs, a.store.start))
      && (forall k :: k in s.logs ==> k in a.store.logs)
      && (|pack| >= 4 ==>
            forall k :: k in s.logs && !(index <= k < index + FromU32(pack[..4])) ==> a.store.logs[k] == s.logs[k])
  {
    hide FromU32, IsFirstKey;
    if |pack| >= 4 {
      SignOfCount(pack[..4]);
      var n := FromInt32(pack[..4]);
      if n >= 0 {
        var es := Unframe(c, n, pack[4..]).es;
        forall k | k in s.logs && !(index <= k < index + n) ensures Overlay(s.logs, index, es)[k] == s.logs[k] {
          OverlayAt(s.logs, index, es, k);
        }
      }
    }
  }

  /** What a store packs, any store can read: it holds the same entries there, the rest is as it
      was, and the start is the least key above the dummy's. */
  lemma PackTransfers(c: Codec, a: Store, b: Store, index: nat, n: nat)
    requires WellFormed(b) && Holds(a, index, n) && n < TWO_31
    requires forall k :: index <= k < index + n ==> Sendable(c, a.logs[k])
    ensures var r := ApplyPack(c, b, index, PackBytes(c, Slice(a, index, n)));
      && r.fault == None
      && (forall k :: k in r.store.logs <==> k in b.logs || index <= k < index + n)
      && (forall k :: index <= k < index + n ==> r.store.logs[k] == a.logs[k])
      && (forall k :: k in b.logs && !(index <= k < index + n) ==> r.store.logs[k] == b.logs[k])
      && IsFirstKey(r.store.logs, r.store.start)
  {
    hide ApplyPack, PackBytes;
    var es := Slice(a, index, n);
    var r := ApplyEntries(b, index, es);
    PackReadsBack(c, b, index, es);
    hide *;
    forall k: nat
      ensures k in r.logs <==> k in b.logs || index <= k < index + n
      ensures index <= k < index + n ==> r.logs[k] == a.logs[k]
      ensures k in b.logs && !(index <= k < index + n) ==> r.logs[k] == b.logs[k]
    {
      OverlayAt(b.logs, index, es, k);
    }
  }

  /** Between dense stores the copy is exact wherever it fits. */
  lemma PackCopies(c: Codec, a: Store, b: Store, index: nat, n: nat)
    requires Dense(b) && Holds(a, index, n) && n < TWO_31
    requires forall k :: index <= k < index + n ==> Sendable(c, a.logs[k])
    ensures var r := ApplyPack(c, b, index, PackBytes(c, Slice(a, index, n))).store;
      && (Dense(r) <==> PackFits(Abs(b), index, n))
      && (PackFits(Abs(b), index, n) ==> Represents(r, Patched(Abs(b), index, Slice(a, index, n))))
  {
    assert WellFormed(b);
    hide ApplyPack, PackBytes, Overlay, IsFirstKey, FirstKey, Dense, Abs, Patched, PackFits;
    var es := Slice(a, index, n);
    PackReadsBack(c, b, index, es);
    ApplyNeedsToFit(b, index, es);
    if PackFits(Abs(b), index, n) {
      ApplyPatches(b, index, es);
    }
  }
}
