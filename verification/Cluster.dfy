/** Replicas that append, overwrite, exchange packs, commit and compact. Which entry is chosen for
    an index is consensus and comes from outside. What Raft knows of a replica is only what was
    written to its log: up to its matched index, the entries written last are the chosen ones, and
    up to there it may commit. That the log store then commits the chosen entries is proved. */
module Cluster {
  import opened LogPack
  import opened LogStoreModel
  import opened StateMachine
  import opened WireBuffer
  import opened Wrappers

  /** A replica, with what its store answered to the entries committed so far, and its matched
      index. */
  datatype Replica = Replica(store: Store, machine: Machine, accepted: seq<bool>, matched: nat)

  datatype Event =
    | Appends(r: nat, e: Entry)
    | Overwrites(r: nat, index: nat, e: Entry)
    | Receives(r: nat, peer: nat, index: nat, n: nat)
    | Commits(r: nat, ok: bool)
    | Compacts(r: nat, upTo: nat)

  /** What stays fixed: the chosen entries (the first has index 1), the store's merge, the codec
      of log entries. */
  datatype World = World(chosen: seq<Entry>, merge: Merge, codec: Codec)

  predicate IsChosen(w: World, index: nat, e: Entry) {
    0 < index <= |w.chosen| && w.chosen[index - 1] == e
  }

  // The matched index, from what is written alone.

  /** An entry goes to an index, and whatever was written from there on is gone. */
  function MatchedByWrite(w: World, matched: nat, index: nat, e: Entry): nat {
    var kept := if matched < index then matched else if index == 0 then 0 else index - 1;
    if kept + 1 == index && IsChosen(w, index, e) then index else kept
  }

  /** Entries of a peer that is matched to `peer` go to [index, index + n). */
  function MatchedByPack(matched: nat, peer: nat, index: nat, n: nat): nat
    requires index > 0
  {
    if matched + 1 < index then matched
    else if index + n <= peer + 1 then if matched < index + n then index + n - 1 else matched
    else if peer < index then index - 1
    else peer
  }

  /** Raft overwrites, and a pack lands, above the commit index only; compaction stays below it;
      and Raft commits up to the matched index. */
  ghost predicate Allowed(rs: seq<Replica>, ev: Event, codec: Codec) {
    && ev.r < |rs|
    && WellFormed(rs[ev.r].store)
    && var x := rs[ev.r];
       match ev
       case Appends(_, _) => true
       case Overwrites(_, index, _) => x.machine.last < index <= NextSlot(x.store)
       case Receives(_, peer, index, n) =>
         && x.machine.last < index <= NextSlot(x.store)
         && 0 < n < TWO_31
         && peer < |rs|
         && Holds(rs[peer].store, index, n)
         && forall k :: index <= k < index + n ==> Sendable(codec, rs[peer].store.logs[k])
       case Commits(_, _) => x.machine.last < x.matched
       case Compacts(_, upTo) => upTo <= x.machine.last
  }

  ghost function PackOf(w: World, peer: Replica, index: nat, n: nat): seq<Byte>
    requires Holds(peer.store, index, n)
  {
    PackBytes(w.codec, Slice(peer.store, index, n))
  }

  ghost function After(w: World, rs: seq<Replica>, ev: Event): Replica
    requires Allowed(rs, ev, w.codec)
  {
    var x := rs[ev.r];
    match ev
    case Appends(_, e) =>
      x.(store := Append(x.store, e), matched := MatchedByWrite(w, x.matched, NextSlot(x.store), e))
    case Overwrites(_, index, e) =>
      x.(store := WriteAt(x.store, index, e), matched := MatchedByWrite(w, x.matched, index, e))
    case Receives(_, peer, index, n) =>
      x.(store := ApplyPack(w.codec, x.store, index, PackOf(w, rs[peer], index, n)).store,
         matched := MatchedByPack(x.matched, rs[peer].matched, index, n))
    case Commits(_, ok) => Commit(w, x, ok)
    case Compacts(_, upTo) => x.(store := Compact(x.store, upTo))
  }

  /** Whatever the log answers for the next index goes to the state machine. */
  function Commit(w: World, x: Replica, ok: bool): Replica
    requires WellFormed(x.store)
  {
    var e := EntryAt(x.store, x.machine.last + 1);
    x.(machine := Committed(w.merge, x.machine, x.machine.last + 1, e, ok),
       accepted := if Committable(e) then x.accepted + [ok] else x.accepted)
  }

  ghost function Exec(w: World, rs: seq<Replica>, events: seq<Event>): Option<seq<Replica>> {
    if events == [] then Some(rs)
    else
      var before := Exec(w, rs, events[..|events| - 1]);
      var ev := events[|events| - 1];
      if before.Some? && Allowed(before.value, ev, w.codec)
      then Some(before.value[ev.r := After(w, before.value, ev)]) else None
  }

  const FRESH: Replica := Replica(NEW_STORE, Machine(map[], 0), [], 0)

  function Fresh(n: nat): seq<Replica> {
    seq(n, i => FRESH)
  }

  /** The log holds the chosen entries from its start to the matched index, and the commit index
      lies between. */
  ghost predicate HoldsChosen(w: World, x: Replica) {
    && Dense(x.store)
    && x.store.start <= x.machine.last + 1
    && x.machine.last <= x.matched < NextSlot(x.store)
    && x.matched <= |w.chosen|
    && forall k :: x.store.start <= k <= x.matched ==> x.store.logs[k] == w.chosen[k - 1]
  }

  /** The map is the replay of the chosen entries up to the commit index, and all of them are
      operations or configuration changes. */
  ghost predicate Replays(w: World, x: Replica) {
    && |x.accepted| == x.machine.last <= |w.chosen|
    && (forall i :: 0 <= i < x.machine.last ==> Committable(w.chosen[i]))
    && x.machine.kv == MapAt(w.merge, w.chosen, x.accepted, x.machine.last)
  }

  ghost predicate Agrees(w: World, x: Replica) {
    HoldsChosen(w, x) && Replays(w, x)
  }

  // Steps.

  /** What a commit reads from the log is the chosen entry. */
  lemma CommitReadsChosen(w: World, x: Replica)
    requires HoldsChosen(w, x) && x.machine.last < x.matched
    ensures EntryAt(x.store, x.machine.last + 1) == w.chosen[x.machine.last]
  {
  }

  lemma CommitReplays(w: World, x: Replica, ok: bool)
    requires Agrees(w, x) && x.machine.last < x.matched
    ensures Agrees(w, Commit(w, x, ok))
    ensures Commit(w, x, ok).machine.last
         == x.machine.last + if Committable(w.chosen[x.machine.last]) then 1 else 0
  {
    CommitReadsChosen(w, x);
    var last := x.machine.last;
    hide Dense, Effect, Decoded, MapAt;
    assert WellFormed(x.store) by { RevealWellFormed(x.store); }
    if Committable(w.chosen[last]) {
      var accepted := x.accepted + [ok];
      MapAtNext(w.merge, w.chosen, accepted, last);
      SamePrefix(w, x.accepted, ok);
    }
  }

  lemma RevealWellFormed(s: Store)
    requires Dense(s)
    ensures WellFormed(s)
  {
  }

  lemma SamePrefix(w: World, accepted: seq<bool>, ok: bool)
    requires |accepted| <= |w.chosen|
    ensures MapAt(w.merge, w.chosen, accepted + [ok], |accepted|) == MapAt(w.merge, w.chosen, accepted, |accepted|)
  {
    assert (accepted + [ok])[..|accepted|] == accepted == accepted[..|accepted|];
  }

  lemma AppendHolds(w: World, x: Replica, e: Entry)
    requires HoldsChosen(w, x)
    ensures WellFormed(x.store)
    ensures HoldsChosen(w, x.(store := Append(x.store, e),
                              matched := MatchedByWrite(w, x.matched, NextSlot(x.store), e)))
  {
    AppendExtends(x.store, e);
    hide Abs;
  }

  lemma OverwriteHolds(w: World, x: Replica, index: nat, e: Entry)
    requires HoldsChosen(w, x) && x.machine.last < index <= NextSlot(x.store)
    ensures HoldsChosen(w, x.(store := WriteAt(x.store, index, e), matched := MatchedByWrite(w, x.matched, index, e)))
  {
    WriteAtTruncates(x.store, index, e);
    hide Abs;
  }

  lemma CompactHolds(w: World, x: Replica, upTo: nat)
    requires HoldsChosen(w, x) && upTo <= x.machine.last
    ensures HoldsChosen(w, x.(store := Compact(x.store, upTo)))
  {
    CompactDrops(x.store, upTo);
    hide Abs;
  }

  /** The entries of a pack above the commit index, as the store holds them afterwards. */
  lemma PackLands(x: Replica, index: nat, es: seq<Entry>)
    requires Dense(x.store) && x.store.start <= index <= NextSlot(x.store) && es != []
    ensures var s := ApplyEntries(x.store, index, es);
      && Dense(s) && s.start == (if Abs(x.store).entries == [] then index else x.store.start)
      && NextSlot(s) == if index + |es| < NextSlot(x.store) then NextSlot(x.store) else index + |es|
  {
    ApplyPatches(x.store, index, es);
  }

  lemma PackedEntry(x: Replica, index: nat, es: seq<Entry>, k: nat)
    requires WellFormed(x.store)
    ensures var logs := ApplyEntries(x.store, index, es).logs;
      && (index <= k < index + |es| ==> k in logs && logs[k] == es[k - index])
      && (!(index <= k < index + |es|) ==>
            (k in logs <==> k in x.store.logs) && (k in logs ==> logs[k] == x.store.logs[k]))
  {
    OverlayAt(x.store.logs, index, es, k);
  }

  lemma PackHolds(w: World, x: Replica, peer: Replica, index: nat, es: seq<Entry>)
    requires HoldsChosen(w, x) && HoldsChosen(w, peer) && es != []
    requires x.machine.last < index <= NextSlot(x.store)
    requires Holds(peer.store, index, |es|) && es == Slice(peer.store, index, |es|)
    ensures HoldsChosen(w, x.(store := ApplyEntries(x.store, index, es),
                              matched := MatchedByPack(x.matched, peer.matched, index, |es|)))
  {
    var s := ApplyEntries(x.store, index, es);
    var matched := MatchedByPack(x.matched, peer.matched, index, |es|);
    PackLands(x, index, es);
    assert s.start <= x.machine.last + 1 by { EmptyStartsAtNext(x.store); }
    PackBounds(x.matched, peer.matched, index, |es|, x.machine.last, |w.chosen|);
    assert Dense(x.store) && WellFormed(s);
    hide ApplyEntries, Abs, Holds, Slice, MatchedByPack, Dense;
    forall k | s.start <= k <= matched ensures k in s.logs && s.logs[k] == w.chosen[k - 1] {
      PackedChosen(w, x, peer, index, es, k);
    }
  }

  /** What Raft may count on stays within what was written and what is chosen. */
  lemma PackBounds(matched: nat, peer: nat, index: nat, n: nat, last: nat, chosen: nat)
    requires last < index && last <= matched <= chosen && peer <= chosen && 0 < n
    ensures var m := MatchedByPack(matched, peer, index, n);
      last <= m <= chosen && (m <= matched || m < index + n)
  {
  }

  lemma EmptyStartsAtNext(s: Store)
    requires Dense(s)
    ensures Abs(s).entries == [] ==> NextSlot(s) == s.start
  {
  }

  lemma PackedChosen(w: World, x: Replica, peer: Replica, index: nat, es: seq<Entry>, k: nat)
    requires HoldsChosen(w, x) && HoldsChosen(w, peer) && es != []
    requires x.machine.last < index <= NextSlot(x.store)
    requires Holds(peer.store, index, |es|) && es == Slice(peer.store, index, |es|)
    requires k <= MatchedByPack(x.matched, peer.matched, index, |es|)
    requires if Abs(x.store).entries == [] then index <= k else x.store.start <= k
    ensures 0 < k <= |w.chosen| && k in ApplyEntries(x.store, index, es).logs
    ensures ApplyEntries(x.store, index, es).logs[k] == w.chosen[k - 1]
  {
    PackedEntry(x, index, es, k);
    PeerStarts(peer, index, |es|);
    hide ApplyEntries;
    if index <= k < index + |es| {
      SliceAt(peer.store, index, |es|, k);
    } else {
      assert x.store.start <= k <= x.matched;
    }
  }

  lemma PeerStarts(peer: Replica, index: nat, n: nat)
    requires Dense(peer.store) && Holds(peer.store, index, n) && 0 < index && 0 < n
    ensures peer.store.start <= index && index + n <= NextSlot(peer.store)
  {
    assert index in peer.store.logs && index + n - 1 in peer.store.logs;
  }

  /** A received pack leaves the receiver with the peer's entries, and with the chosen ones as far
      as the peer has them. */
  lemma ReceiveHolds(w: World, rs: seq<Replica>, ev: Event)
    requires Allowed(rs, ev, w.codec) && ev.Receives? && HoldsChosen(w, rs[ev.r]) && HoldsChosen(w, rs[ev.peer])
    ensures HoldsChosen(w, After(w, rs, ev))
    ensures forall k :: ev.index <= k < ev.index + ev.n ==>
              EntryAt(After(w, rs, ev).store, k) == rs[ev.peer].store.logs[k]
  {
    hide PackBytes, ApplyPack, HoldsChosen;
    var x := rs[ev.r];
    var es := Slice(rs[ev.peer].store, ev.index, ev.n);
    PackReadsBack(w.codec, x.store, ev.index, es);
    PackHolds(w, x, rs[ev.peer], ev.index, es);
    hide ApplyEntries, Slice;
    forall k | ev.index <= k < ev.index + ev.n
      ensures EntryAt(After(w, rs, ev).store, k) == rs[ev.peer].store.logs[k]
    {
      PackedEntry(x, ev.index, es, k);
      SliceAt(rs[ev.peer].store, ev.index, ev.n, k);
    }
  }

  lemma SliceAt(s: Store, index: nat, n: nat, k: nat)
    requires Holds(s, index, n) && index <= k < index + n
    ensures Slice(s, index, n)[k - index] == s.logs[k]
  {
  }

  ghost predicate AllAgree(w: World, rs: seq<Replica>) {
    forall i :: 0 <= i < |rs| ==> Agrees(w, rs[i])
  }

  /** Every step keeps the replica it is taken on in agreement. */
  lemma StepAgrees(w: World, rs: seq<Replica>, ev: Event)
    requires Allowed(rs, ev, w.codec) && AllAgree(w, rs)
    ensures Agrees(w, After(w, rs, ev))
  {
    var x := rs[ev.r];
    assert Agrees(w, x);
    match ev
    case Appends(_, e) =>
      hide HoldsChosen;
      AppendHolds(w, x, e);
    case Overwrites(_, index, e) =>
      hide HoldsChosen;
      OverwriteHolds(w, x, index, e);
    case Receives(_, peer, _, _) =>
      assert Agrees(w, rs[peer]);
      hide HoldsChosen;
      ReceiveHolds(w, rs, ev);
    case Commits(_, ok) =>
      CommitReplays(w, x, ok);
    case Compacts(_, upTo) =>
      hide HoldsChosen;
      CompactHolds(w, x, upTo);
  }

  lemma FreshAgree(w: World, n: nat)
    ensures AllAgree(w, Fresh(n))
  {
    NewStoreIsEmpty();
  }

  /** Over every run every replica holds the chosen entries up to its matched index, and its map is
      their replay up to its commit index. */
  lemma {:induction false} RunAgrees(w: World, rs: seq<Replica>, events: seq<Event>)
    requires AllAgree(w, rs) && Exec(w, rs, events).Some?
    ensures |Exec(w, rs, events).value| == |rs| && AllAgree(w, Exec(w, rs, events).value)
  {
    hide Agrees, Allowed, After;
    if events != [] {
      var before := Exec(w, rs, events[..|events| - 1]).value;
      var ev := events[|events| - 1];
      RunAgrees(w, rs, events[..|events| - 1]);
      assert Allowed(before, ev, w.codec);
      InRange(before, ev, w.codec);
      StepAgrees(w, before, ev);
    }
  }

  lemma InRange(rs: seq<Replica>, ev: Event, codec: Codec)
    requires Allowed(rs, ev, codec)
    ensures ev.r < |rs|
  {
  }

  /** From a fresh cluster: whatever is appended, overwritten, received and compacted, the logs hold
      the chosen entries up to what is matched; replicas at the same commit index whose stores
      answered alike have the same map; and an entry that does not decode stops every replica
      before it. */
  lemma {:induction false} ReplicasAgree(w: World, n: nat, events: seq<Event>, a: nat, b: nat)
    requires a < n && b < n && Exec(w, Fresh(n), events).Some?
    ensures |Exec(w, Fresh(n), events).value| == n
    ensures var rs := Exec(w, Fresh(n), events).value;
      && HoldsChosen(w, rs[a])
      && rs[a].machine.last == |rs[a].accepted| <= |w.chosen|
      && rs[a].machine.kv == Replay(w.merge, w.chosen[..rs[a].machine.last], rs[a].accepted)
      && (rs[a].machine.last == rs[b].machine.last && rs[a].accepted == rs[b].accepted ==>
            rs[a].machine == rs[b].machine)
      && forall i :: 0 <= i < |w.chosen| && !Committable(w.chosen[i]) ==> rs[a].machine.last <= i
  {
    FreshAgree(w, n);
    RunAgrees(w, Fresh(n), events);
    hide Replay, Committable, HoldsChosen;
    var rs := Exec(w, Fresh(n), events).value;
    assert Agrees(w, rs[a]) && Agrees(w, rs[b]);
    assert rs[a].accepted[..rs[a].machine.last] == rs[a].accepted;
  }

  /** Where stores answer differently, two replicas had the same map at every commit index they
      both passed exactly when every entry only one of their stores accepted changes nothing on the
      map it met. */
  lemma {:induction false} DifferentAnswers(w: World, n: nat, events: seq<Event>, a: nat, b: nat, upTo: nat)
    requires a < n && b < n && Exec(w, Fresh(n), events).Some?
    requires |Exec(w, Fresh(n), events).value| == n
    requires var rs := Exec(w, Fresh(n), events).value; upTo <= rs[a].machine.last && upTo <= rs[b].machine.last
    ensures var rs := Exec(w, Fresh(n), events).value;
      && upTo <= |w.chosen| && upTo <= |rs[a].accepted| && upTo <= |rs[b].accepted|
      && (SameMaps(w.merge, w.chosen, rs[a].accepted, rs[b].accepted, upTo)
          <==> DifferIdly(w.merge, w.chosen, rs[a].accepted, rs[b].accepted, upTo))
  {
    ReplicasAgree(w, n, events, a, b);
    ReplicasAgree(w, n, events, b, a);
    hide SameMaps, DifferIdly, Exec, HoldsChosen;
    var rs := Exec(w, Fresh(n), events).value;
    AgreeExactlyWhenIdle(w.merge, w.chosen, rs[a].accepted, rs[b].accepted, upTo);
  }

  // Catching up.

  function InOrder(r: nat, oks: seq<bool>): (evs: seq<Event>) {
    seq(|oks|, i requires 0 <= i < |oks| => Commits(r, oks[i]))
  }

  /** The next n entries are matched and can be committed. */
  ghost predicate Ready(w: World, x: Replica, n: nat) {
    && Agrees(w, x)
    && x.machine.last + n <= x.matched
    && forall i :: x.machine.last <= i < x.machine.last + n ==> Committable(w.chosen[i])
  }

  /** They were committed, with these answers. */
  ghost predicate Follows(w: World, x: Replica, out: Replica, oks: seq<bool>) {
    && Agrees(w, out)
    && out.store == x.store && out.matched == x.matched
    && out.machine.last == x.machine.last + |oks|
    && out.accepted == x.accepted + oks
  }

  /** A replica commits what is matched, one entry after the other. */
  lemma {:induction false} CommitsInOrder(w: World, rs: seq<Replica>, r: nat, oks: seq<bool>)
    requires r < |rs| && Ready(w, rs[r], |oks|)
    ensures Exec(w, rs, InOrder(r, oks)).Some?
    ensures var out := Exec(w, rs, InOrder(r, oks)).value;
      |out| == |rs| && Follows(w, rs[r], out[r], oks)
  {
    hide Ready, Follows, After, Allowed, InOrder;
    if oks == [] {
      NoCommits(w, rs[r]);
    } else {
      var k := |oks| - 1;
      ReadyForLess(w, rs[r], k);
      CommitsInOrder(w, rs, r, oks[..k]);
      LastCommit(r, oks);
      CommitOnce(w, rs[r], Exec(w, rs, InOrder(r, oks[..k])).value, r, oks);
    }
  }

  lemma NoCommits(w: World, x: Replica)
    requires Ready(w, x, 0)
    ensures (forall r :: InOrder(r, []) == []) && Follows(w, x, x, [])
  {
    hide Agrees;
    assert x.accepted + [] == x.accepted;
  }

  lemma ReadyForLess(w: World, x: Replica, n: nat)
    requires Ready(w, x, n + 1)
    ensures Ready(w, x, n)
  {
    hide Agrees;
  }

  lemma LastCommit(r: nat, oks: seq<bool>)
    requires oks != []
    ensures var k := |oks| - 1;
      && |InOrder(r, oks)| == |oks| && InOrder(r, oks)[..k] == InOrder(r, oks[..k])
      && InOrder(r, oks)[k] == Commits(r, oks[k])
  {
  }

  lemma CommitOnce(w: World, x: Replica, rs: seq<Replica>, r: nat, oks: seq<bool>)
    requires oks != [] && r < |rs| && Ready(w, x, |oks|) && Follows(w, x, rs[r], oks[..|oks| - 1])
    ensures Allowed(rs, Commits(r, oks[|oks| - 1]), w.codec)
    ensures Follows(w, x, After(w, rs, Commits(r, oks[|oks| - 1])), oks)
  {
    hide Committable, Committed, MapAt, Decoded;
    assert HoldsChosen(w, rs[r]) && WellFormed(rs[r].store);
    CommitReplays(w, rs[r], oks[|oks| - 1]);
    CommitReadsChosen(w, rs[r]);
    hide Agrees, Dense;
    assert oks == oks[..|oks| - 1] + [oks[|oks| - 1]];
    assert x.accepted + oks == x.accepted + oks[..|oks| - 1] + [oks[|oks| - 1]];
  }

  /** The first n chosen entries, appended by r one after the other. */
  function Writes(w: World, r: nat, n: nat): seq<Event>
    requires n <= |w.chosen|
  {
    seq(n, i requires 0 <= i < n => Appends(r, w.chosen[i]))
  }

  /** A replica that has appended the first n chosen entries and nothing else. */
  ghost predicate HasWritten(w: World, x: Replica, n: nat) {
    && Agrees(w, x)
    && x.matched == n && WellFormed(x.store) && NextSlot(x.store) == n + 1
    && x.machine == FRESH.machine && x.accepted == []
  }

  lemma NothingIsWritten(w: World, m: nat, r: nat)
    requires r < m
    ensures HasWritten(w, Fresh(m)[r], 0) && Writes(w, r, 0) == []
  {
    FreshAgree(w, m);
  }

  lemma WriteIsMatched(w: World, rs: seq<Replica>, r: nat, n: nat)
    requires r < |rs| && n < |w.chosen| && HasWritten(w, rs[r], n)
    ensures Allowed(rs, Appends(r, w.chosen[n]), w.codec)
    ensures HasWritten(w, After(w, rs, Appends(r, w.chosen[n])), n + 1)
  {
    AppendHolds(w, rs[r], w.chosen[n]);
    AppendExtends(rs[r].store, w.chosen[n]);
    hide Represents, Dense, Abs, MapAt, Committable;
    assert Represents(Append(rs[r].store, w.chosen[n]), Appended(Abs(rs[r].store), w.chosen[n]));
    CountsUp(rs[r].store, w.chosen[n]);
  }

  lemma CountsUp(s: Store, e: Entry)
    requires Dense(s)
    ensures WellFormed(Append(s, e)) && NextSlot(Append(s, e)) == NextSlot(s) + 1
  {
    AppendExtends(s, e);
  }

  lemma {:induction false} WritesAreMatched(w: World, m: nat, r: nat, n: nat)
    requires r < m && n <= |w.chosen|
    ensures Exec(w, Fresh(m), Writes(w, r, n)).Some?
    ensures var out := Exec(w, Fresh(m), Writes(w, r, n)).value; |out| == m && HasWritten(w, out[r], n)
  {
    hide HasWritten, After, Allowed;
    if n == 0 {
      NothingIsWritten(w, m, r);
    } else {
      WritesAreMatched(w, m, r, n - 1);
      assert Writes(w, r, n)[..n - 1] == Writes(w, r, n - 1);
      WriteIsMatched(w, Exec(w, Fresh(m), Writes(w, r, n - 1)).value, r, n - 1);
    }
  }

  lemma {:induction false} ExecJoins(w: World, rs: seq<Replica>, a: seq<Event>, b: seq<Event>)
    requires Exec(w, rs, a).Some?
    ensures Exec(w, rs, a + b) == Exec(w, Exec(w, rs, a).value, b)
  {
    hide After, Allowed;
    if b == [] {
      assert a + b == a;
    } else {
      assert (a + b)[..|a + b| - 1] == a + b[..|b| - 1];
      ExecJoins(w, rs, a, b[..|b| - 1]);
    }
  }

  lemma WrittenIsReady(w: World, x: Replica, n: nat)
    requires HasWritten(w, x, n) && n <= |w.chosen| && forall i :: 0 <= i < n ==> Committable(w.chosen[i])
    ensures Ready(w, x, n)
  {
    hide Agrees, Committable;
  }

  /** Nothing gets stuck: a fresh replica that appends the chosen entries may commit every one of
      them, and ends with their replay. */
  lemma {:induction false} ChosenAreReplayed(w: World, m: nat, r: nat, oks: seq<bool>)
    requires r < m && |oks| <= |w.chosen|
    requires forall i :: 0 <= i < |oks| ==> Committable(w.chosen[i])
    ensures var out := Exec(w, Fresh(m), Writes(w, r, |oks|) + InOrder(r, oks));
      && out.Some? && |out.value| == m
      && out.value[r].machine == Machine(Replay(w.merge, w.chosen[..|oks|], oks), |oks|)
  {
    hide Ready, HasWritten, Committable, Writes, InOrder, Exec, HoldsChosen, Replay;
    WritesAreMatched(w, m, r, |oks|);
    var rs := Exec(w, Fresh(m), Writes(w, r, |oks|)).value;
    WrittenIsReady(w, rs[r], |oks|);
    CommitsInOrder(w, rs, r, oks);
    ExecJoins(w, Fresh(m), Writes(w, r, |oks|), InOrder(r, oks));
    StartsFresh(w, rs[r], |oks|);
    var out := Exec(w, rs, InOrder(r, oks)).value[r];
    assert out.accepted == [] + oks == oks;
    assert oks[..|oks|] == oks;
  }

  lemma StartsFresh(w: World, x: Replica, n: nat)
    requires HasWritten(w, x, n)
    ensures x.machine == FRESH.machine && x.accepted == []
  {
  }

  /** A peer's pack is enough to catch up: what the peer committed and still has, the receiver can
      commit, and if its store answers as the peer's did it arrives at the peer's own map. */
  lemma {:induction false} CatchesUp(w: World, rs: seq<Replica>, r: nat, peer: nat, oks: seq<bool>)
    requires r < |rs| && peer < |rs| && Agrees(w, rs[r]) && Agrees(w, rs[peer]) && 0 < |oks| < TWO_31
    requires rs[peer].store.start <= rs[r].machine.last + 1
    requires rs[r].machine.last + |oks| == rs[peer].machine.last
    requires forall i :: rs[r].machine.last <= i < rs[peer].machine.last ==> Sendable(w.codec, w.chosen[i])
    ensures var ev := Receives(r, peer, rs[r].machine.last + 1, |oks|);
      && Allowed(rs, ev, w.codec)
      && var received := rs[r := After(w, rs, ev)];
      && Exec(w, received, InOrder(r, oks)).Some?
      && |Exec(w, received, InOrder(r, oks)).value| == |rs|
      && var out := Exec(w, received, InOrder(r, oks)).value[r];
      && Agrees(w, out)
      && out.machine.last == rs[peer].machine.last
      && (rs[r].accepted + oks == rs[peer].accepted ==> out.machine == rs[peer].machine)
  {
    var ev := Receives(r, peer, rs[r].machine.last + 1, |oks|);
    CatchUpAllowed(w, rs, r, peer, |oks|);
    CatchUpReady(w, rs, r, peer, |oks|);
    var received := rs[r := After(w, rs, ev)];
    CommitsInOrder(w, received, r, oks);
    var out := Exec(w, received, InOrder(r, oks)).value[r];
    hide Allowed, Exec, HoldsChosen, MapAt;
    assert out.accepted == rs[r].accepted + oks;
  }

  lemma CatchUpReady(w: World, rs: seq<Replica>, r: nat, peer: nat, n: nat)
    requires r < |rs| && peer < |rs| && Agrees(w, rs[r]) && Agrees(w, rs[peer]) && 0 < n < TWO_31
    requires rs[r].machine.last + n == rs[peer].machine.last
    requires Allowed(rs, Receives(r, peer, rs[r].machine.last + 1, n), w.codec)
    ensures var x := After(w, rs, Receives(r, peer, rs[r].machine.last + 1, n));
      && Ready(w, x, n)
      && x.machine == rs[r].machine && x.accepted == rs[r].accepted
  {
    hide Committable, PackBytes, ApplyPack, Dense, MapAt;
    ReceiveHolds(w, rs, Receives(r, peer, rs[r].machine.last + 1, n));
  }

  lemma CatchUpAllowed(w: World, rs: seq<Replica>, r: nat, peer: nat, n: nat)
    requires r < |rs| && peer < |rs| && HoldsChosen(w, rs[r]) && HoldsChosen(w, rs[peer]) && 0 < n < TWO_31
    requires rs[peer].store.start <= rs[r].machine.last + 1
    requires rs[r].machine.last + n == rs[peer].machine.last
    requires forall i :: rs[r].machine.last <= i < rs[peer].machine.last ==> Sendable(w.codec, w.chosen[i])
    ensures Allowed(rs, Receives(r, peer, rs[r].machine.last + 1, n), w.codec)
  {
    var s := rs[peer].store;
    forall k | rs[r].machine.last < k <= rs[peer].machine.last
      ensures k in s.logs && Sendable(w.codec, s.logs[k])
    {
      assert s.logs[k] == w.chosen[k - 1];
    }
  }
}
