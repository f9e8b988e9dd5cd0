/** The operations replicas log, and their bytes. */
module OperationCodec {
  import opened WireBuffer
  import opened Wrappers

  const PUT: Byte := 0
  const UPDATE: Byte := 1
  const DELETE: Byte := 2

  datatype Operation = Operation(key: seq<Byte>, value: Option<seq<Byte>>, opType: Byte)

  function MakePut(key: seq<Byte>, value: seq<Byte>): Operation {
    Operation(key, Some(value), PUT)
  }

  function MakeUpdate(key: seq<Byte>, value: seq<Byte>): Operation {
    Operation(key, Some(value), UPDATE)
  }

  function MakeDelete(key: seq<Byte>): Operation {
    Operation(key, None, DELETE)
  }

  /** Any type byte may be read; a value comes with the first two. */
  predicate Shaped(op: Operation) {
    op.value.Some? <==> op.opType == PUT || op.opType == UPDATE
  }

  /** The lengths fit their four bytes. */
  predicate Short(op: Operation) {
    |op.key| < TWO_32 && (op.value.Some? ==> |op.value.value| < TWO_32)
  }

  function Serialized(op: Operation): seq<Byte> {
    [op.opType] + Str(op.key) + if op.value.Some? then Str(op.value.value) else []
  }

  function Deserialized(b: seq<Byte>): (r: Result<Operation, ReadError>)
    ensures r.Ok? ==> Shaped(r.value) && Short(r.value)
  {
    if |b| == 0 then Err(Overrun)
    else
      match ReadStr(b[1..])
      case None => Err(Overrun)
      case Some((key, rest)) =>
        if b[0] == PUT || b[0] == UPDATE then
          match ReadStr(rest)
          case None => Err(Overrun)
          case Some((value, _)) => Ok(Operation(key, Some(value), b[0]))
        else Ok(Operation(key, None, b[0]))
  }

  /** The layout: the type byte, the key, and the value where there is one. */
  predicate LaidOut(b: seq<Byte>, opType: int, key: seq<Byte>, value: Option<seq<Byte>>) {
    && |b| > 0 && b[0] == opType && HoldsStr(b, 1, key)
    && (value.Some? ==> HoldsStr(b, 5 + |key|, value.value))
  }

  lemma SerializedIsLaidOut(op: Operation)
    requires Short(op)
    ensures LaidOut(Serialized(op), op.opType, op.key, op.value)
  {
    hide HoldsStr, Int32;
    var b := Serialized(op);
    var value := if op.value.Some? then Str(op.value.value) else [];
    HoldsWritten([op.opType], op.key, value);
    if op.value.Some? {
      HoldsWritten([op.opType] + Str(op.key), op.value.value, []);
      assert [op.opType] + Str(op.key) + value + [] == b;
    }
  }

  /** Types 0 and 1, a put and an update, come with a value; 2, a delete, does not. */
  lemma WireFormat(key: seq<Byte>, value: seq<Byte>)
    requires |key| < TWO_32 && |value| < TWO_32
    ensures LaidOut(Serialized(MakePut(key, value)), 0, key, Some(value))
    ensures LaidOut(Serialized(MakeUpdate(key, value)), 1, key, Some(value))
    ensures LaidOut(Serialized(MakeDelete(key)), 2, key, None)
    ensures |Serialized(MakePut(key, value))| == |Serialized(MakeUpdate(key, value))| == 9 + |key| + |value|
    ensures |Serialized(MakeDelete(key))| == 5 + |key|
  {
    hide HoldsStr;
    SerializedIsLaidOut(MakePut(key, value));
    SerializedIsLaidOut(MakeUpdate(key, value));
    SerializedIsLaidOut(MakeDelete(key));
  }

  /** Bytes so laid out are read as that operation, whatever follows. */
  lemma ReadsLaidOut(b: seq<Byte>, key: seq<Byte>, value: seq<Byte>)
    ensures LaidOut(b, 0, key, Some(value)) ==> Deserialized(b) == Ok(MakePut(key, value))
    ensures LaidOut(b, 1, key, Some(value)) ==> Deserialized(b) == Ok(MakeUpdate(key, value))
    ensures LaidOut(b, 2, key, None) ==> Deserialized(b) == Ok(MakeDelete(key))
  {
    hide HoldsStr, ReadStr;
    if |b| > 0 && HoldsStr(b, 1, key) {
      ReadsHeld(b, 1, key);
      if |b| >= 5 + |key| {
        ReadsHeld(b, 5 + |key|, value);
      }
      assert HoldsStr(b, 1, key) ==> |b| >= 5 + |key| by {
        HeldFits(b, 1, key);
      }
    }
  }

  lemma HeldFits(b: seq<Byte>, at: nat, s: seq<Byte>)
    requires HoldsStr(b, at, s)
    ensures at + 4 + |s| <= |b|
  {
  }

  /** And only bytes so laid out are read as an operation at all. */
  lemma ReadsOnlyLaidOut(b: seq<Byte>)
    ensures Deserialized(b).Ok? ==>
              var op := Deserialized(b).value;
              && op.opType == b[0] && LaidOut(b, b[0], op.key, op.value)
              && (op.value.Some? <==> b[0] == 0 || b[0] == 1)
  {
    hide HoldsStr, ReadStr;
    if Deserialized(b).Ok? {
      var op := Deserialized(b).value;
      ReadsHeld(b, 1, op.key);
      HeldFits(b, 1, op.key);
      if op.value.Some? {
        ReadsHeld(b, 5 + |op.key|, op.value.value);
      }
    }
  }

  /** Sizes the buffer first; the writes fill it to the last byte. */
  method Serialize(op: Operation) returns (buf: Buffer)
    ensures buf.data[..] == Serialized(op)
    ensures Short(op) ==> LaidOut(buf.data[..], op.opType, op.key, op.value)
    ensures buf.Valid() && buf.pos == buf.data.Length
  {
    if Short(op) {
      SerializedIsLaidOut(op);
    }
    hide HoldsStr, LaidOut, Int32;
    var bufferSize := 1 + 4 + |op.key|;
    if op.value.Some? {
      bufferSize := bufferSize + 4 + |op.value.value|;
    }
    buf := new Buffer.Alloc(bufferSize);
    buf.PutU8(op.opType);
    buf.PutStr(op.key);
    if op.value.Some? {
      buf.PutStr(op.value.value);
    }
    assert buf.data[..buf.pos] == buf.data[..];
  }

  method Deserialize(payload: seq<Byte>) returns (r: Result<Operation, ReadError>)
    ensures r == Deserialized(payload)
    ensures r.Ok? ==>
              && LaidOut(payload, r.value.opType, r.value.key, r.value.value)
              && (r.value.value.Some? <==> r.value.opType == 0 || r.value.opType == 1)
  {
    ReadsOnlyLaidOut(payload);
    hide HoldsStr;
    var bs := new Buffer.Over(payload);
    var opType := bs.GetU8();
    if opType.Err? {
      return Err(Overrun);
    }
    var key := bs.GetStr();
    if key.Err? {
      return Err(Overrun);
    }
    if opType.value == PUT || opType.value == UPDATE {
      var value := bs.GetStr();
      if value.Err? {
        return Err(Overrun);
      }
      r := Ok(Operation(key.value, Some(value.value), opType.value));
    } else {
      r := Ok(Operation(key.value, None, opType.value));
    }
  }

  /** Bytes read as an operation exactly when they begin with its encoding. */
  lemma ReadsWhatWasWritten(b: seq<Byte>, op: Operation)
    requires Shaped(op) && Short(op)
    ensures Deserialized(b) == Ok(op) <==> Serialized(op) <= b
  {
    hide Int32, FromU32, U32, ReadStr;
    if |b| > 0 {
      ReadStrFinds(b[1..], op.key);
      var tail := if op.value.Some? then Str(op.value.value) else [];
      assert Serialized(op)[1..] == Str(op.key) + tail;
      assert Serialized(op) <= b <==> op.opType == b[0] && Str(op.key) + tail <= b[1..] by {
        assert b == [b[0]] + b[1..];
        assert Serialized(op) == [op.opType] + (Str(op.key) + tail);
      }
      SplitPrefix(Str(op.key), tail, b[1..]);
      if op.value.Some? && Str(op.key) <= b[1..] {
        ReadStrFinds(b[1..][|Str(op.key)|..], op.value.value);
      }
    }
  }

  lemma SplitPrefix(a: seq<Byte>, c: seq<Byte>, b: seq<Byte>)
    ensures a + c <= b <==> a <= b && c <= b[|a|..]
  {
    if a <= b {
      assert b == a + b[|a|..];
    }
  }

  /** The round trip holds up to the lengths four bytes can tell, and no further. */
  lemma RoundTripExactlyWhenShort(op: Operation)
    requires Shaped(op)
    ensures Deserialized(Serialized(op)) == Ok(op) <==> Short(op)
  {
    if Short(op) {
      ReadsWhatWasWritten(Serialized(op), op);
    }
  }

  /** No encoding begins another, so a string of them splits in one way only. */
  lemma EncodingsArePrefixFree(a: Operation, b: Operation, restA: seq<Byte>, restB: seq<Byte>)
    requires Shaped(a) && Short(a) && Shaped(b) && Short(b)
    requires Serialized(a) + restA == Serialized(b) + restB
    ensures a == b && restA == restB
  {
    var s := Serialized(a) + restA;
    ReadsWhatWasWritten(s, a);
    ReadsWhatWasWritten(s, b);
    assert s[|Serialized(a)|..] == restA && s[|Serialized(b)|..] == restB;
  }
}
