/** The replicated state machine: what a commit does to the key-value store. SplinterDB itself is
    a map, and its native update a merge that nothing is known of. */
module StateMachine {
  import opened LogStoreModel
  import opened OperationCodec
  import opened WireBuffer
  import opened Wrappers

  type Bytes = seq<Byte>
  type KV = map<Bytes, Bytes>
  type Merge = (Option<Bytes>, Bytes) -> Bytes

  datatype Machine = Machine(kv: KV, last: nat)

  function Get(kv: KV, key: Bytes): Option<Bytes> {
    if key in kv then Some(kv[key]) else None
  }

  /** An operation the commit's switch has a case for. */
  predicate Known(op: Operation) {
    Shaped(op) && op.opType <= DELETE
  }

  function ApplyOp(merge: Merge, kv: KV, op: Operation): KV
    requires Known(op)
  {
    if op.opType == PUT then kv[op.key := op.value.value]
    else if op.opType == UPDATE then kv[op.key := merge(Get(kv, op.key), op.value.value)]
    else kv - {op.key}
  }

  datatype CommitError = Malformed | UnknownType

  function Decoded(buf: Bytes): (r: Result<Operation, CommitError>)
    ensures r.Ok? ==> Known(r.value)
  {
    match Deserialized(buf)
    case Err(_) => Err(Malformed)
    case Ok(op) => if Known(op) then Ok(op) else Err(UnknownType)
  }

  /** Laid out as one of the three operations, whatever follows. */
  ghost predicate BeginsOperation(buf: Bytes) {
    || (exists key: Bytes, value: Bytes :: LaidOut(buf, 0, key, Some(value)) || LaidOut(buf, 1, key, Some(value)))
    || (exists key: Bytes :: LaidOut(buf, 2, key, None))
  }

  // Histories.

  /** Whether committing the entry gets past its bytes. */
  predicate Committable(e: Entry) {
    e.valType == CONF || Decoded(e.buf).Ok?
  }

  /** What the entry makes of the map, on a store that accepts it. */
  function Effect(merge: Merge, kv: KV, e: Entry): KV {
    if e.valType == CONF then kv
    else
      match Decoded(e.buf)
      case Err(_) => kv
      case Ok(op) => ApplyOp(merge, kv, op)
  }

  /** One commit. A throwing one changes nothing; a write the store rejects counts all the same. */
  function Committed(merge: Merge, m: Machine, index: nat, e: Entry, accepted: bool): Machine {
    if Committable(e) then Machine(if accepted then Effect(merge, m.kv, e) else m.kv, index) else m
  }

  /** What a commit makes of its bytes, said of the bytes alone: what is laid out as a put stores the
      value under the key, whatever follows it; as an update, merges; as a delete, removes; and all
      other bytes change nothing at all. */
  lemma CommitReadsBytes(merge: Merge, m: Machine, index: nat, term: nat, buf: Bytes, key: Bytes, value: Bytes)
    ensures var after := Committed(merge, m, index, Entry(term, APP_LOG, buf), true);
      && (LaidOut(buf, 0, key, Some(value)) ==> after == Machine(m.kv[key := value], index))
      && (LaidOut(buf, 1, key, Some(value)) ==> after == Machine(m.kv[key := merge(Get(m.kv, key), value)], index))
      && (LaidOut(buf, 2, key, None) ==> after == Machine(m.kv - {key}, index))
      && (!BeginsOperation(buf) ==> after == m)
  {
    hide LaidOut, Deserialized;
    ReadsLaidOut(buf, key, value);
    ReadsOnlyLaidOut(buf);
    if Decoded(buf).Ok? {
      var op := Decoded(buf).value;
      assert LaidOut(buf, op.opType, op.key, op.value);
    }
  }

  /** The map after a history of committed entries, given which of them the store accepted. */
  function Replay(merge: Merge, history: seq<Entry>, accepted: seq<bool>): KV
    requires |history| == |accepted|
  {
    if history == [] then map[]
    else
      var n := |history| - 1;
      var before := Replay(merge, history[..n], accepted[..n]);
      if accepted[n] then Effect(merge, before, history[n]) else before
  }

  /** The map at the time the first n entries were committed. */
  function MapAt(merge: Merge, history: seq<Entry>, accepted: seq<bool>, n: nat): KV
    requires n <= |history| && n <= |accepted|
  {
    Replay(merge, history[..n], accepted[..n])
  }

  lemma MapAtNext(merge: Merge, history: seq<Entry>, accepted: seq<bool>, n: nat)
    requires n < |history| && n < |accepted|
    ensures MapAt(merge, history, accepted, n + 1)
         == if accepted[n] then Effect(merge, MapAt(merge, history, accepted, n), history[n])
            else MapAt(merge, history, accepted, n)
  {
    assert history[..n + 1][..n] == history[..n] && accepted[..n + 1][..n] == accepted[..n];
  }

  /** Two stores that took the same history agree on every map. */
  ghost predicate SameMaps(merge: Merge, history: seq<Entry>, a: seq<bool>, b: seq<bool>, n: nat)
    requires n <= |history| && n <= |a| && n <= |b|
  {
    forall i :: 0 <= i <= n ==> MapAt(merge, history, a, i) == MapAt(merge, history, b, i)
  }

  /** Where only one of them accepted, the entry changes nothing on the map it meets. */
  ghost predicate DifferIdly(merge: Merge, history: seq<Entry>, a: seq<bool>, b: seq<bool>, n: nat)
    requires n <= |history| && n <= |a| && n <= |b|
  {
    forall i :: 0 <= i < n && a[i] != b[i] ==>
      Effect(merge, MapAt(merge, history, a, i), history[i]) == MapAt(merge, history, a, i)
  }

  /** The exact condition for agreement when stores answer differently. */
  lemma {:induction false} AgreeExactlyWhenIdle(merge: Merge, history: seq<Entry>, a: seq<bool>, b: seq<bool>, n: nat)
    requires n <= |history| && n <= |a| && n <= |b|
    ensures SameMaps(merge, history, a, b, n) <==> DifferIdly(merge, history, a, b, n)
  {
    hide Effect, MapAt;
    if n == 0 {
      NoMap(merge, history, a);
      NoMap(merge, history, b);
    } else {
      AgreeExactlyWhenIdle(merge, history, a, b, n - 1);
      MapAtNext(merge, history, a, n - 1);
      MapAtNext(merge, history, b, n - 1);
      assert SameMaps(merge, history, a, b, n)
        <==> SameMaps(merge, history, a, b, n - 1) && MapAt(merge, history, a, n) == MapAt(merge, history, b, n);
      assert SameMaps(merge, history, a, b, n - 1)
        ==> MapAt(merge, history, a, n - 1) == MapAt(merge, history, b, n - 1);
    }
  }

  lemma NoMap(merge: Merge, history: seq<Entry>, accepted: seq<bool>)
    ensures MapAt(merge, history, accepted, 0) == map[]
  {
  }

  class SplinterdbStateMachine {
    const merge: Merge
    var kv: KV
    var lastCommittedIdx: nat
    var commitThreadInitialized: bool
    var threadsRegistered: nat

    ghost predicate Valid()
      reads this
    {
      threadsRegistered == if commitThreadInitialized then 1 else 0
    }

    function View(): Machine
      reads this
    {
      Machine(kv, lastCommittedIdx)
    }

    constructor (update: Merge)
      ensures Valid() && merge == update && View() == Machine(map[], 0)
    {
      merge := update;
      kv, lastCommittedIdx := map[], 0;
      commitThreadInitialized, threadsRegistered := false, 0;
    }

    /** `outcome` is what the store answers; anything but 0 means it changed nothing. The index
        counts as committed either way; only bytes that are no operation stop it. */
    method Commit(logIdx: nat, buf: Bytes, outcome: int) returns (r: Result<Bytes, CommitError>)
      requires Valid()
      modifies this
      ensures Valid() && commitThreadInitialized
      ensures match Decoded(buf)
        case Err(e) => r == Err(e) && View() == old(View())
        case Ok(op) =>
          && r == Ok(Int32(outcome))
          && View() == Machine(if outcome == 0 then ApplyOp(merge, old(kv), op) else old(kv), logIdx)
      ensures forall term :: View() == Committed(merge, old(View()), logIdx, Entry(term, APP_LOG, buf), outcome == 0)
      ensures outcome == 0 && r.Ok? ==> r.value == [0, 0, 0, 0]
      ensures forall key: Bytes, value: Bytes :: outcome == 0 && LaidOut(buf, 0, key, Some(value)) ==>
                r.Ok? && kv == old(kv)[key := value]
      ensures forall key: Bytes :: outcome == 0 && LaidOut(buf, 2, key, None) ==> r.Ok? && kv == old(kv) - {key}
      ensures buf == [] || buf[0] > 2 ==> r.Err? && View() == old(View())
    {
      ghost var before := kv;
      forall key: Bytes, value: Bytes | LaidOut(buf, 0, key, Some(value))
        ensures Decoded(buf) == Ok(MakePut(key, value)) && ApplyOp(merge, before, MakePut(key, value)) == before[key := value]
      {
        ReadsLaidOut(buf, key, value);
      }
      forall key: Bytes | LaidOut(buf, 2, key, None)
        ensures Decoded(buf) == Ok(MakeDelete(key)) && ApplyOp(merge, before, MakeDelete(key)) == before - {key}
      {
        ReadsLaidOut(buf, key, []);
      }
      hide LaidOut;
      if !commitThreadInitialized {
        commitThreadInitialized := true;
        threadsRegistered := threadsRegistered + 1;
      }
      var operation := Deserialize(buf);
      if operation.Err? {
        return Err(Malformed);
      }
      var op := operation.value;
      if op.opType == PUT {
        Insert(op.key, op.value.value, outcome);
      } else if op.opType == UPDATE {
        Update(op.key, op.value.value, outcome);
      } else if op.opType == DELETE {
        Delete(op.key, outcome);
      } else {
        return Err(UnknownType);
      }
      lastCommittedIdx := logIdx;
      r := Ok(Int32(outcome));
    }

    method Insert(key: Bytes, value: Bytes, outcome: int)
      modifies this`kv
      ensures kv == if outcome == 0 then old(kv)[key := value] else old(kv)
    {
      if outcome == 0 {
        kv := kv[key := value];
      }
    }

    method Update(key: Bytes, delta: Bytes, outcome: int)
      modifies this`kv
      ensures kv == if outcome == 0 then old(kv)[key := merge(Get(old(kv), key), delta)] else old(kv)
    {
      if outcome == 0 {
        kv := kv[key := merge(Get(kv, key), delta)];
      }
    }

    method Delete(key: Bytes, outcome: int)
      modifies this`kv
      ensures kv == if outcome == 0 then old(kv) - {key} else old(kv)
    {
      if outcome == 0 {
        kv := kv - {key};
      }
    }

    method CommitConfig(logIdx: nat)
      requires Valid()
      modifies this`lastCommittedIdx
      ensures Valid() && View() == old(View()).(last := logIdx)
      ensures forall e: Entry :: e.valType == CONF ==> View() == Committed(merge, old(View()), logIdx, e, true)
    {
      lastCommittedIdx := logIdx;
    }
  }

  // What clients submit.

  datatype Request = PutRequest(key: Bytes, value: Bytes) | UpdateRequest(key: Bytes, value: Bytes)
                   | DeleteRequest(key: Bytes)

  /** The server turns an update into a put. */
  function Submitted(r: Request): Operation {
    match r
    case PutRequest(key, value) => MakePut(key, value)
    case UpdateRequest(key, value) => MakePut(key, value)
    case DeleteRequest(key) => MakeDelete(key)
  }

  /** What a server would submit that left updates to the store, against what ours does. */
  function SubmittedAs(native: bool, r: Request): Operation {
    if native && r.UpdateRequest? then MakeUpdate(r.key, r.value) else Submitted(r)
  }

  /** A log of requests, with configuration changes in between. */
  predicate Logs(native: bool, history: seq<Entry>, requests: seq<Option<Request>>) {
    && |history| == |requests|
    && forall i :: 0 <= i < |history| ==>
         match requests[i]
         case None => history[i].valType == CONF
         case Some(r) =>
           && history[i].valType == APP_LOG
           && history[i].buf == Serialized(SubmittedAs(native, r))
           && Short(SubmittedAs(native, r))
  }

  /** What the last request about the key left there. */
  function LastWrite(requests: seq<Option<Request>>, key: Bytes): Option<Bytes> {
    if requests == [] then None
    else
      match requests[|requests| - 1]
      case None => LastWrite(requests[..|requests| - 1], key)
      case Some(r) =>
        if r.key != key then LastWrite(requests[..|requests| - 1], key)
        else if r.DeleteRequest? then None
        else Some(r.value)
  }

  function AllAccepted(n: nat): seq<bool> {
    seq(n, i => true)
  }

  /** The map after the first n requests of a log whose writes the store accepts. */
  function MapAfter(merge: Merge, history: seq<Entry>, n: nat): KV
    requires n <= |history|
  {
    MapAt(merge, history, AllAccepted(|history|), n)
  }

  predicate KeyHolds(merge: Merge, history: seq<Entry>, requests: seq<Option<Request>>, n: nat, key: Bytes)
    requires n <= |history| == |requests|
  {
    Get(MapAfter(merge, history, n), key) == LastWrite(requests[..n], key)
  }

  /** After n requests every key holds its last write. */
  ghost predicate HoldsLastWrites(merge: Merge, history: seq<Entry>, requests: seq<Option<Request>>, n: nat)
    requires n <= |history| == |requests|
  {
    forall key: Bytes :: KeyHolds(merge, history, requests, n, key)
  }

  lemma {:induction false} LastWriteNext(requests: seq<Option<Request>>, n: nat, key: Bytes)
    requires n < |requests|
    ensures LastWrite(requests[..n + 1], key) ==
            if requests[n].None? || requests[n].value.key != key then LastWrite(requests[..n], key)
            else if requests[n].value.DeleteRequest? then None
            else Some(requests[n].value.value)
  {
    assert requests[..n + 1][..n] == requests[..n];
  }

  /** The map after a logged request is that of its operation. */
  lemma RequestTakesEffect(native: bool, merge: Merge, history: seq<Entry>, requests: seq<Option<Request>>, n: nat)
    requires Logs(native, history, requests) && n < |history|
    ensures requests[n].Some? ==> Known(SubmittedAs(native, requests[n].value))
    ensures MapAfter(merge, history, n + 1) ==
            if requests[n].None? then MapAfter(merge, history, n)
            else ApplyOp(merge, MapAfter(merge, history, n), SubmittedAs(native, requests[n].value))
  {
    hide MapAt, Serialized, Deserialized, Decoded, Short;
    MapAtNext(merge, history, AllAccepted(|history|), n);
    if requests[n].Some? {
      RoundTripDecodes(SubmittedAs(native, requests[n].value));
    }
  }

  function KeyOf(request: Option<Request>): Bytes {
    if request.Some? then request.value.key else []
  }

  /** Merging a native update into what its key holds amounts to overwriting it. */
  predicate Overwrites(merge: Merge, request: Option<Request>, found: Option<Bytes>) {
    request.Some? && request.value.UpdateRequest? ==> merge(found, request.value.value) == request.value.value
  }

  /** A request leaves every key with its last write, but for the key of a native update that does
      not overwrite. */
  lemma {:induction false} RequestWritesKey(native: bool, merge: Merge, history: seq<Entry>, requests: seq<Option<Request>>,
                         n: nat, key: Bytes)
    requires Logs(native, history, requests) && n < |history| && KeyHolds(merge, history, requests, n, key)
    ensures KeyHolds(merge, history, requests, n + 1, key)
       <==> (native && key == KeyOf(requests[n]) ==> Overwrites(merge, requests[n], LastWrite(requests[..n], key)))
  {
    RequestTakesEffect(native, merge, history, requests, n);
    LastWriteNext(requests, n, key);
  }

  lemma RequestHoldsLastWrite(native: bool, merge: Merge, history: seq<Entry>, requests: seq<Option<Request>>, n: nat)
    requires Logs(native, history, requests) && n < |history| && HoldsLastWrites(merge, history, requests, n)
    ensures HoldsLastWrites(merge, history, requests, n + 1)
       <==> (native ==> Overwrites(merge, requests[n], LastWrite(requests[..n], KeyOf(requests[n]))))
  {
    var next, written := n + 1, KeyOf(requests[n]);
    assert KeyHolds(merge, history, requests, n, written);
    RequestWritesKey(native, merge, history, requests, n, written);
    if KeyHolds(merge, history, requests, next, written) {
      forall key: Bytes ensures KeyHolds(merge, history, requests, next, key) {
        assert KeyHolds(merge, history, requests, n, key);
        RequestWritesKey(native, merge, history, requests, n, key);
      }
    }
  }

  lemma RoundTripDecodes(op: Operation)
    requires Known(op) && Short(op)
    ensures Decoded(Serialized(op)) == Ok(op)
  {
    RoundTripExactlyWhenShort(op);
  }

  lemma NothingWritten(merge: Merge, history: seq<Entry>, requests: seq<Option<Request>>)
    requires |history| == |requests|
    ensures HoldsLastWrites(merge, history, requests, 0)
  {
  }

  /** Through bytes, log and commits, every key holds its last write at every point; updates
      overwrite, and the store's own merge never runs. */
  lemma {:induction false} LastWriteWins(merge: Merge, history: seq<Entry>, requests: seq<Option<Request>>, n: nat)
    requires Logs(false, history, requests) && n <= |history|
    ensures HoldsLastWrites(merge, history, requests, n)
  {
    assert |history| == |requests|;
    hide Logs, HoldsLastWrites;
    if n == 0 {
      NothingWritten(merge, history, requests);
    } else {
      LastWriteWins(merge, history, requests, n - 1);
      RequestHoldsLastWrite(false, merge, history, requests, n - 1);
    }
  }

  /** Every update merges into the last write of its key as if it overwrote it. */
  ghost predicate MergesOverwrite(merge: Merge, requests: seq<Option<Request>>, n: nat)
    requires n <= |requests|
  {
    forall i :: 0 <= i < n ==> Overwrites(merge, requests[i], LastWrite(requests[..i], KeyOf(requests[i])))
  }

  /** The same, said of the values the store itself holds. */
  ghost predicate StoreMergesOverwrite(merge: Merge, history: seq<Entry>, requests: seq<Option<Request>>, n: nat)
    requires n <= |history| == |requests|
  {
    forall i :: 0 <= i < n ==> Overwrites(merge, requests[i], Get(MapAfter(merge, history, i), KeyOf(requests[i])))
  }

  ghost predicate AlwaysLastWrites(merge: Merge, history: seq<Entry>, requests: seq<Option<Request>>, n: nat)
    requires n <= |history| == |requests|
  {
    forall i :: 0 <= i <= n ==> HoldsLastWrites(merge, history, requests, i)
  }

  lemma {:induction false} HoldsAt(merge: Merge, history: seq<Entry>, requests: seq<Option<Request>>, n: nat, key: Bytes)
    requires n <= |history| == |requests| && HoldsLastWrites(merge, history, requests, n)
    ensures Get(MapAfter(merge, history, n), key) == LastWrite(requests[..n], key)
  {
    assert KeyHolds(merge, history, requests, n, key);
  }

  /** The three predicates, from one length to the next. */
  lemma OneMore(merge: Merge, history: seq<Entry>, requests: seq<Option<Request>>, n: nat)
    requires n < |history| == |requests|
    ensures AlwaysLastWrites(merge, history, requests, n + 1)
       <==> AlwaysLastWrites(merge, history, requests, n) && HoldsLastWrites(merge, history, requests, n + 1)
    ensures MergesOverwrite(merge, requests, n + 1)
       <==> (MergesOverwrite(merge, requests, n)
             && Overwrites(merge, requests[n], LastWrite(requests[..n], KeyOf(requests[n]))))
    ensures StoreMergesOverwrite(merge, history, requests, n + 1)
       <==> (StoreMergesOverwrite(merge, history, requests, n)
             && Overwrites(merge, requests[n], Get(MapAfter(merge, history, n), KeyOf(requests[n]))))
    ensures AlwaysLastWrites(merge, history, requests, n) ==> HoldsLastWrites(merge, history, requests, n)
  {
    hide HoldsLastWrites, Overwrites, MapAfter, Get, KeyOf;
  }

  /** Left to the store, updates give last-write-wins at every point of a log if and only if every
      one of them merges into what it finds as if it overwrote it. */
  lemma {:induction false} NativeUpdatesOverwriteExactly(merge: Merge, history: seq<Entry>,
                                                         requests: seq<Option<Request>>, n: nat)
    requires Logs(true, history, requests) && n <= |history|
    ensures AlwaysLastWrites(merge, history, requests, n) <==> MergesOverwrite(merge, requests, n)
    ensures AlwaysLastWrites(merge, history, requests, n) <==> StoreMergesOverwrite(merge, history, requests, n)
  {
    assert |history| == |requests|;
    hide AlwaysLastWrites, MergesOverwrite, StoreMergesOverwrite;
    hide Logs, HoldsLastWrites, MapAfter, Overwrites, Get, KeyOf;
    if n == 0 {
      NothingYet(merge, history, requests);
    } else {
      NativeUpdatesOverwriteExactly(merge, history, requests, n - 1);
      OneMore(merge, history, requests, n - 1);
      if AlwaysLastWrites(merge, history, requests, n - 1) {
        RequestHoldsLastWrite(true, merge, history, requests, n - 1);
        HoldsAt(merge, history, requests, n - 1, KeyOf(requests[n - 1]));
      }
    }
  }

  lemma NothingYet(merge: Merge, history: seq<Entry>, requests: seq<Option<Request>>)
    requires |history| == |requests|
    ensures AlwaysLastWrites(merge, history, requests, 0)
    ensures MergesOverwrite(merge, requests, 0) && StoreMergesOverwrite(merge, history, requests, 0)
  {
    NothingWritten(merge, history, requests);
  }

  /** In particular a merge that does not overwrite is told apart by a log of one or two requests. */
  lemma NativeUpdateDiffers(key: Bytes, was: Option<Bytes>, v: Bytes, merge: Merge)
    returns (history: seq<Entry>, requests: seq<Option<Request>>)
    requires |key| < TWO_32 && |v| < TWO_32 && (was.Some? ==> |was.value| < TWO_32)
    requires merge(was, v) != v
    ensures Logs(true, history, requests)
    ensures requests == (if was.Some? then [Some(PutRequest(key, was.value))] else []) + [Some(UpdateRequest(key, v))]
    ensures !AlwaysLastWrites(merge, history, requests, |history|)
  {
    var update := UpdateRequest(key, v);
    var last := Entry(1, APP_LOG, Serialized(SubmittedAs(true, update)));
    hide Serialized, MapAfter, HoldsLastWrites;
    if was.None? {
      history, requests := [last], [Some(update)];
      assert requests[..0] == [];
      assert !Overwrites(merge, requests[0], LastWrite(requests[..0], key));
    } else {
      var put := PutRequest(key, was.value);
      history := [Entry(1, APP_LOG, Serialized(SubmittedAs(true, put))), last];
      requests := [Some(put), Some(update)];
      assert requests[..1] == [Some(put)];
      assert LastWrite([Some(put)], key) == was;
      assert !Overwrites(merge, requests[1], LastWrite(requests[..1], key));
    }
    NativeUpdatesOverwriteExactly(merge, history, requests, |history|);
  }
}
