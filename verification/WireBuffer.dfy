/** Bytes, 32-bit integers as bytes, and the cursor buffer that serializers write through. */
module WireBuffer {
  import opened Wrappers

  type Byte = b: int | 0 <= b < 256

  const TWO_31: int := 0x8000_0000
  const TWO_32: int := 0x1_0000_0000

  /** Four bytes, the least significant first. */
  function U32(n: nat): (b: seq<Byte>)
    requires n < TWO_32
    ensures |b| == 4
  {
    [n % 256, n / 256 % 256, n / 0x1_0000 % 256, n / 0x100_0000]
  }

  function FromU32(b: seq<Byte>): (n: nat)
    requires |b| == 4
    ensures n < TWO_32
  {
    var b0: int, b1: int, b2: int, b3: int := b[0], b[1], b[2], b[3];
    b0 + 256 * b1 + 0x1_0000 * b2 + 0x100_0000 * b3
  }

  /** The conversion to a signed 32-bit integer: reduction modulo 2^32. */
  function ToInt32(n: int): (i: int)
    ensures -TWO_31 <= i < TWO_31
    ensures 0 <= n < TWO_31 ==> i == n
  {
    var m := n % TWO_32;
    if m < TWO_31 then m else m - TWO_32
  }

  function Int32(i: int): (b: seq<Byte>)
    ensures |b| == 4
  {
    U32(i % TWO_32)
  }

  function FromInt32(b: seq<Byte>): int
    requires |b| == 4
  {
    ToInt32(FromU32(b))
  }

  lemma U32ReadsBack(n: nat)
    requires n < TWO_32
    ensures FromU32(U32(n)) == n
  {
    assert n / 0x1_0000 == n / 256 / 256;
    assert n / 0x100_0000 == n / 256 / 256 / 256;
  }

  lemma U32WritesBack(b: seq<Byte>)
    requires |b| == 4
    ensures U32(FromU32(b)) == b
  {
    var n := FromU32(b);
    var b1: int, b2: int, b3: int := b[1], b[2], b[3];
    assert n / 256 == b1 + 256 * b2 + 0x1_0000 * b3;
    assert n / 256 / 256 == b2 + 256 * b3;
    assert n / 256 / 256 / 256 == b3;
    assert n / 0x1_0000 == n / 256 / 256;
    assert n / 0x100_0000 == n / 256 / 256 / 256;
  }

  lemma Int32ReadsBack(i: int)
    ensures FromInt32(Int32(i)) == ToInt32(i)
  {
    U32ReadsBack(i % TWO_32);
  }

  /** A string goes out as its length, modulo 2^32, and then its bytes. */
  function Str(s: seq<Byte>): seq<Byte> {
    Int32(|s|) + s
  }

  /** The string at the head of the bytes, and what follows it. */
  function ReadStr(b: seq<Byte>): (r: Option<(seq<Byte>, seq<Byte>)>)
    ensures r.Some? ==> |r.value.0| < TWO_32
  {
    if |b| < 4 then None
    else
      var n := FromU32(b[..4]);
      if |b| - 4 < n then None else Some((b[4..4 + n], b[4 + n..]))
  }

  lemma LengthReads(b: seq<Byte>, n: nat)
    requires |b| == 4 && n < TWO_32
    ensures FromU32(b) == n <==> b == Int32(n)
  {
    U32ReadsBack(n);
    U32WritesBack(b);
    hide FromU32, U32;
    assert n % TWO_32 == n;
  }

  /** A string is read exactly where it was written. */
  lemma ReadStrFinds(b: seq<Byte>, s: seq<Byte>)
    requires |s| < TWO_32
    ensures Str(s) <= b ==> ReadStr(b) == Some((s, b[|Str(s)|..]))
    ensures ReadStr(b).Some? && ReadStr(b).value.0 == s ==> Str(s) <= b
  {
    hide FromU32, U32, Int32;
    if |b| >= 4 {
      LengthReads(b[..4], |s|);
      assert Str(s) <= b <==> b[..4] == Int32(|s|) && s <= b[4..] by {
        assert b == b[..4] + b[4..];
      }
      assert |b| - 4 >= |s| ==> b[4..][..|s|] == b[4..4 + |s|];
      assert s <= b[4..] ==> b[4..][..|s|] == s;
    }
  }

  /** From position `at` on, four bytes tell the number, the least significant first. */
  predicate Tells(b: seq<Byte>, at: nat, n: int) {
    at + 4 <= |b| &&
    var b0: int, b1: int, b2: int, b3: int := b[at], b[at + 1], b[at + 2], b[at + 3];
    n == b0 + 256 * b1 + 65536 * b2 + 16777216 * b3
  }

  lemma TellsWritten(n: nat, after: seq<Byte>)
    requires n < TWO_32
    ensures Tells(Int32(n) + after, 0, n)
  {
    hide U32;
    U32ReadsBack(n);
    TellsRead(U32(n), after);
    assert n % TWO_32 == n;
  }

  lemma TellsRead(b: seq<Byte>, after: seq<Byte>)
    requires |b| == 4
    ensures Tells(b + after, 0, FromU32(b))
  {
  }

  /** From position `at` on, four bytes tell the length, and the string follows. */
  predicate HoldsStr(b: seq<Byte>, at: nat, s: seq<Byte>) {
    && Tells(b, at, |s|)
    && at + 4 + |s| <= |b|
    && b[at + 4..at + 4 + |s|] == s
  }

  /** Reading finds the string that is held, and finds none where none is. */
  lemma ReadsHeld(b: seq<Byte>, at: nat, s: seq<Byte>)
    requires at <= |b|
    ensures HoldsStr(b, at, s) ==> ReadStr(b[at..]) == Some((s, b[at + 4 + |s|..]))
    ensures ReadStr(b[at..]).Some? && ReadStr(b[at..]).value.0 == s ==> HoldsStr(b, at, s)
  {
    var rest := b[at..];
    if |rest| >= 4 {
      assert rest[..4] == [b[at], b[at + 1], b[at + 2], b[at + 3]];
      assert 4 + |s| <= |rest| ==> rest[4..4 + |s|] == b[at + 4..at + 4 + |s|];
      assert 4 + |s| <= |rest| ==> rest[4 + |s|..] == b[at + 4 + |s|..];
    }
  }

  lemma HoldsWritten(before: seq<Byte>, s: seq<Byte>, after: seq<Byte>)
    requires |s| < TWO_32
    ensures HoldsStr(before + Str(s) + after, |before|, s)
  {
    hide FromU32, U32, Int32, ReadStr, HoldsStr;
    var b := before + Str(s) + after;
    assert b[|before|..] == Str(s) + after;
    ReadStrFinds(b[|before|..], s);
    ReadsHeld(b, |before|, s);
  }

  datatype ReadError = Overrun

  /** A buffer of fixed size with a cursor. Writing needs room; reading past the end fails. */
  class Buffer {
    const data: array<Byte>
    var pos: nat

    ghost predicate Valid()
      reads this
    {
      pos <= data.Length
    }

    /** What lies before the cursor. */
    ghost function Written(): seq<Byte>
      requires Valid()
      reads this, data
    {
      data[..pos]
    }

    /** What is still to be read. */
    ghost function Rest(): seq<Byte>
      requires Valid()
      reads this, data
    {
      data[pos..]
    }

    constructor Alloc(size: nat)
      ensures Valid() && fresh(data) && data.Length == size && pos == 0
    {
      data := new Byte[size];
      pos := 0;
    }

    constructor Over(bytes: seq<Byte>)
      ensures Valid() && fresh(data) && data[..] == bytes && Rest() == bytes
    {
      data := new Byte[|bytes|](i requires 0 <= i < |bytes| => bytes[i]);
      pos := 0;
    }

    method PutBytes(b: seq<Byte>)
      requires Valid() && pos + |b| <= data.Length
      modifies this, data
      ensures Valid() && pos == old(pos) + |b|
      ensures Written() == old(Written()) + b
    {
      forall i | 0 <= i < |b| {
        data[pos + i] := b[i];
      }
      pos := pos + |b|;
    }

    method PutU8(b: Byte)
      requires Valid() && pos < data.Length
      modifies this, data
      ensures Valid() && pos == old(pos) + 1
      ensures Written() == old(Written()) + [b]
    {
      PutBytes([b]);
    }

    method PutInt32(i: int)
      requires Valid() && pos + 4 <= data.Length
      modifies this, data
      ensures Valid() && pos == old(pos) + 4
      ensures Written() == old(Written()) + Int32(i)
    {
      PutBytes(Int32(i));
    }

    method PutStr(s: seq<Byte>)
      requires Valid() && pos + 4 + |s| <= data.Length
      modifies this, data
      ensures Valid() && pos == old(pos) + 4 + |s|
      ensures Written() == old(Written()) + Str(s)
    {
      PutInt32(|s|);
      PutBytes(s);
    }

    method GetBytes(n: nat) returns (r: Result<seq<Byte>, ReadError>)
      requires Valid()
      modifies this
      ensures Valid()
      ensures if n <= |old(Rest())|
        then r == Ok(old(Rest())[..n]) && Rest() == old(Rest())[n..]
        else r == Err(Overrun) && Rest() == old(Rest())
    {
      if data.Length - pos < n {
        return Err(Overrun);
      }
      r := Ok(data[pos..pos + n]);
      assert data[pos..pos + n] == data[pos..][..n];
      assert data[pos + n..] == data[pos..][n..];
      pos := pos + n;
    }

    method GetU8() returns (r: Result<Byte, ReadError>)
      requires Valid()
      modifies this
      ensures Valid()
      ensures if |old(Rest())| >= 1
        then r == Ok(old(Rest())[0]) && Rest() == old(Rest())[1..]
        else r == Err(Overrun) && Rest() == old(Rest())
    {
      var b := GetBytes(1);
      r := if b.Ok? then Ok(b.value[0]) else Err(Overrun);
    }

    method GetU32() returns (r: Result<nat, ReadError>)
      requires Valid()
      modifies this
      ensures Valid()
      ensures if |old(Rest())| >= 4
        then r == Ok(FromU32(old(Rest())[..4])) && Rest() == old(Rest())[4..]
        else r == Err(Overrun) && Rest() == old(Rest())
    {
      var b := GetBytes(4);
      r := if b.Ok? then Ok(FromU32(b.value)) else Err(Overrun);
    }

    method GetStr() returns (r: Result<seq<Byte>, ReadError>)
      requires Valid()
      modifies this
      ensures Valid()
      ensures match ReadStr(old(Rest()))
        case None => r == Err(Overrun)
        case Some((s, rest)) => r == Ok(s) && Rest() == rest
    {
      hide FromU32;
      ghost var all := Rest();
      var n := GetU32();
      if n.Err? {
        return Err(Overrun);
      }
      r := GetBytes(n.value);
      assert r.Ok? ==> r.value == all[4..4 + n.value];
    }

    method GetInt32() returns (r: Result<int, ReadError>)
      requires Valid()
      modifies this
      ensures Valid()
      ensures if |old(Rest())| >= 4
        then r == Ok(FromInt32(old(Rest())[..4])) && Rest() == old(Rest())[4..]
        else r == Err(Overrun) && Rest() == old(Rest())
    {
      var b := GetBytes(4);
      r := if b.Ok? then Ok(FromInt32(b.value)) else Err(Overrun);
    }
  }
}
