/** How a client looks for the leader and how it retries a mutation, against any replies. */
module ClientRetry {
  import opened Products
  import opened Wrappers

  const SIZE_T: nat := 0x1_0000_0000_0000_0000
  const NO_LIVE_LEADER: int := -1
  const NOT_LEADER: int := -3
  const REQUEST_CANCELLED: int := -1
  const WEIRD_CASE: int := 999

  // Exponential back-off.

  function Pow2(j: nat): (p: nat)
    ensures p > 0
  {
    if j == 0 then 1 else 2 * Pow2(j - 1)
  }

  /** The delay after j doublings of a 64-bit number. */
  function Delay(j: nat): nat {
    if j == 0 then 100 else Delay(j - 1) * 2 % SIZE_T
  }

  /** The milliseconds slept in the first j pauses. */
  function Slept(j: nat): nat {
    if j == 0 then 0 else Slept(j - 1) + Delay(j - 1)
  }

  lemma PauseStep(j: nat)
    ensures Delay(0) == 100 && Slept(0) == 0
    ensures Delay(j + 1) == Delay(j) * 2 % SIZE_T && Slept(j + 1) == Slept(j) + Delay(j)
  {
  }

  /** Reducing before doubling makes no difference. */
  lemma DoubleModulo(n: nat, m: nat)
    requires m > 0
    ensures n % m * 2 % m == 2 * n % m
  {
    hide Times;
    Division(n, m);
    Distribute(n / m, n / m, m);
    Division(n % m * 2, m);
    Distribute(n / m + n / m, n % m * 2 / m, m);
    QuotientIs(2 * n, m, n / m + n / m + n % m * 2 / m, n % m * 2 % m);
  }

  lemma {:induction false} DelayIsModulo(j: nat)
    ensures Delay(j) == 100 * Pow2(j) % SIZE_T
  {
    if j > 0 {
      DelayIsModulo(j - 1);
      DoubleModulo(100 * Pow2(j - 1), SIZE_T);
    }
  }

  lemma {:induction false} Pow2Grows(i: nat, j: nat)
    requires i <= j
    ensures Pow2(i) <= Pow2(j)
    decreases j
  {
    if i < j {
      Pow2Grows(i, j - 1);
    }
  }

  lemma Pow2At58()
    ensures Pow2(58) == 0x400_0000_0000_0000
  {
    assert Pow2(8) == 0x100;
    assert Pow2(16) == 0x1_0000;
    assert Pow2(24) == 0x100_0000;
    assert Pow2(32) == 0x1_0000_0000;
    assert Pow2(40) == 0x100_0000_0000;
    assert Pow2(48) == 0x1_0000_0000_0000;
    assert Pow2(56) == 0x100_0000_0000_0000;
  }

  /** Up to 58 pauses the delays double and add up; the next doubling no longer fits. */
  lemma {:induction false} SleptIsGeometric(j: nat)
    ensures Slept(j) <= 100 * (Pow2(j) - 1)
    ensures Slept(j) == 100 * (Pow2(j) - 1) <==> j <= 58
  {
    if j > 0 {
      SleptIsGeometric(j - 1);
      PauseStep(j - 1);
      DelayIsModulo(j - 1);
      Pow2At58();
      assert Pow2(j) == 2 * Pow2(j - 1) && Pow2(58) == 2 * Pow2(57);
      Pow2Grows(j - 1, if j <= 58 then 57 else j - 1);
      Pow2Grows(if j <= 58 then j - 1 else 58, j - 1);
      hide *;
      FitsOrNot(Pow2(j - 1));
    }
  }

  lemma FitsOrNot(p: nat)
    ensures 100 * p % SIZE_T <= 100 * p
    ensures 100 * p % SIZE_T == 100 * p <==> 100 * p < SIZE_T
  {
  }

  // Looking for the leader.

  /** A server names a leader (-1 for none), or the call fails. */
  datatype LeaderReply = Names(id: int) | Fails

  predicate Live(r: LeaderReply) {
    r.Names? && r.id != NO_LIVE_LEADER
  }

  datatype Query = Query(server: int, reply: LeaderReply)

  /** What one server is asked: again as long as it names none, up to the limit. */
  function Block(server: int, limit: nat, ask: nat -> LeaderReply, k: nat): (b: seq<Query>)
    ensures |b| <= limit
  {
    if limit == 0 then []
    else if ask(k) == Names(NO_LIVE_LEADER) then
      [Query(server, ask(k))] + Block(server, limit - 1, ask, k + 1)
    else [Query(server, ask(k))]
  }

  predicate EndsLive(b: seq<Query>) {
    b != [] && Live(b[|b| - 1].reply)
  }

  /** All that is asked, one server after the other, until one names a live leader. */
  function Queries(servers: seq<int>, limit: nat, ask: nat -> LeaderReply, k: nat): seq<Query> {
    if servers == [] then []
    else
      var b := Block(servers[0], limit, ask, k);
      if EndsLive(b) then b else b + Queries(servers[1..], limit, ask, k + |b|)
  }

  lemma BlockStep(server: int, limit: nat, ask: nat -> LeaderReply, k: nat, b: seq<Query>)
    requires limit > 0
    ensures b + Block(server, limit, ask, k) ==
            if ask(k) == Names(NO_LIVE_LEADER)
            then b + [Query(server, ask(k))] + Block(server, limit - 1, ask, k + 1)
            else b + [Query(server, ask(k))]
  {
    var q := [Query(server, ask(k))];
    assert b + (q + Block(server, limit - 1, ask, k + 1)) == b + q + Block(server, limit - 1, ask, k + 1);
  }

  lemma {:induction false} BlockEnds(server: int, ask: nat -> LeaderReply, k: nat, b: seq<Query>)
    ensures b + Block(server, 0, ask, k) == b
  {
    assert b + [] == b;
  }

  /** A pause after each reply that is no leader, and one more for a server that only says none. */
  function BlockPauses(b: seq<Query>): nat {
    if b == [] then 1
    else if b[|b| - 1].reply.Fails? then |b|
    else if EndsLive(b) then |b| - 1
    else |b| + 1
  }

  predicate NamesNone(b: seq<Query>) {
    forall q :: q in b ==> q.reply == Names(NO_LIVE_LEADER)
  }

  lemma NoneYet()
    ensures NamesNone([])
  {
  }

  /** The three ways a server's turn ends. */
  lemma TurnEnds(b: seq<Query>, q: Query)
    requires NamesNone(b)
    ensures Leader(b) == None && BlockPauses(b) == |b| + 1
    ensures q.reply.Fails? ==> Leader(b + [q]) == None && BlockPauses(b + [q]) == |b| + 1
    ensures Live(q.reply) ==> Leader(b + [q]) == Some(q.reply.id) && BlockPauses(b + [q]) == |b|
    ensures q.reply == Names(NO_LIVE_LEADER) ==> NamesNone(b + [q])
  {
    assert b != [] ==> b[|b| - 1] in b;
  }

  function Pauses(servers: seq<int>, limit: nat, ask: nat -> LeaderReply, k: nat): nat {
    if servers == [] then 0
    else
      var b := Block(servers[0], limit, ask, k);
      BlockPauses(b) + if EndsLive(b) then 0 else Pauses(servers[1..], limit, ask, k + |b|)
  }

  function Leader(queries: seq<Query>): (leader: Option<int>)
    ensures leader.Some? ==> leader.value != -1
  {
    if EndsLive(queries) then Some(queries[|queries| - 1].reply.id) else None
  }

  lemma {:induction false} BlockIsFaithful(server: int, limit: nat, ask: nat -> LeaderReply, k: nat)
    ensures var b := Block(server, limit, ask, k);
      && (forall i :: 0 <= i < |b| ==> b[i] == Query(server, ask(k + i)))
      && (forall i :: 0 <= i < |b| - 1 ==> b[i].reply == Names(NO_LIVE_LEADER))
      && (b == [] || b[|b| - 1].reply == Names(NO_LIVE_LEADER) ==> |b| == limit)
  {
    if limit > 0 {
      BlockIsFaithful(server, limit - 1, ask, k + 1);
    }
  }

  /** One after the other: where replies come from, and that only the last may be a leader. */
  predicate InOrder(q: seq<Query>, servers: seq<int>, ask: nat -> LeaderReply, k: nat) {
    && (forall i :: 0 <= i < |q| ==> q[i].server in servers && q[i].reply == ask(k + i))
    && (forall i :: 0 <= i < |q| - 1 ==> !Live(q[i].reply))
  }

  lemma InOrderJoins(b: seq<Query>, rest: seq<Query>, servers: seq<int>, ask: nat -> LeaderReply, k: nat)
    requires servers != [] && InOrder(b, servers[..1], ask, k) && !EndsLive(b)
    requires InOrder(rest, servers[1..], ask, k + |b|)
    ensures InOrder(b + rest, servers, ask, k)
  {
    var q := b + rest;
    forall i | 0 <= i < |q|
      ensures q[i].server in servers && q[i].reply == ask(k + i)
      ensures i < |q| - 1 ==> !Live(q[i].reply)
    {
      if i < |b| {
        assert q[i] == b[i];
      } else {
        var d: nat := i - |b|;
        assert q[i] == rest[d] && k + |b| + d == k + i;
      }
    }
  }

  /** The replies are the oracle's, in order, and the answer is the first live leader among them. */
  lemma {:induction false} SearchIsFirstLive(servers: seq<int>, limit: nat, ask: nat -> LeaderReply, k: nat)
    ensures InOrder(Queries(servers, limit, ask, k), servers, ask, k)
  {
    if servers != [] {
      var b := Block(servers[0], limit, ask, k);
      BlockIsFaithful(servers[0], limit, ask, k);
      assert InOrder(b, servers[..1], ask, k);
      if !EndsLive(b) {
        SearchIsFirstLive(servers[1..], limit, ask, k + |b|);
        InOrderJoins(b, Queries(servers[1..], limit, ask, k + |b|), servers, ask, k);
      }
    }
  }

  /** Calls and pauses are bounded by the number of servers. */
  lemma {:induction false} SearchIsBounded(servers: seq<int>, limit: nat, ask: nat -> LeaderReply, k: nat)
    ensures |Queries(servers, limit, ask, k)| <= |servers| * limit
    ensures Pauses(servers, limit, ask, k) <= |servers| * (limit + 1)
  {
    if servers != [] {
      var b := Block(servers[0], limit, ask, k);
      hide Block;
      SearchIsBounded(servers[1..], limit, ask, k + |b|);
      Multiply(|servers|, limit);
      Multiply(|servers|, limit + 1);
    }
  }

  function Failures(q: seq<Query>): nat {
    if q == [] then 0 else Failures(q[..|q| - 1]) + if q[|q| - 1].reply.Fails? then 1 else 0
  }

  lemma {:induction false} FailuresJoin(b: seq<Query>, rest: seq<Query>)
    ensures Failures(b + rest) == Failures(b) + Failures(rest)
  {
    if rest == [] {
      assert b + rest == b;
    } else {
      FailuresJoin(b, rest[..|rest| - 1]);
      assert (b + rest)[..|b + rest| - 1] == b + rest[..|rest| - 1];
    }
  }

  lemma {:induction false} NoneIsNoFailure(b: seq<Query>)
    requires NamesNone(b)
    ensures Failures(b) == 0
  {
    if b != [] {
      assert b[|b| - 1] in b;
      NoneIsNoFailure(b[..|b| - 1]);
    }
  }

  /** A turn has one pause for each reply that names no leader, and one more if no call failed. */
  lemma {:induction false} TurnPauses(server: int, limit: nat, ask: nat -> LeaderReply, k: nat)
    ensures var b := Block(server, limit, ask, k);
      BlockPauses(b) == if EndsLive(b) then |b| - 1 else |b| + 1 - Failures(b)
    ensures var b := Block(server, limit, ask, k); EndsLive(b) ==> Failures(b) == 0
  {
    var b := Block(server, limit, ask, k);
    BlockIsFaithful(server, limit, ask, k);
    hide Block;
    if b != [] {
      var first := b[..|b| - 1];
      forall q | q in first ensures q.reply == Names(NO_LIVE_LEADER) {
      }
      NoneIsNoFailure(first);
    }
  }

  /** The leader was found by the server at position t, after the pauses given. */
  predicate FoundAt(q: seq<Query>, servers: seq<int>, pauses: nat, t: nat) {
    t < |servers| && q != [] && q[|q| - 1].server == servers[t] && pauses == |q| - 1 + t - Failures(q)
  }

  /** A pause follows each reply that names no leader, and one more each server that was asked in
      vain without a failing call. */
  predicate Counted(q: seq<Query>, servers: seq<int>, pauses: nat) {
    if Leader(q).None? then pauses == |q| + |servers| - Failures(q)
    else exists t: nat :: t < |servers| && FoundAt(q, servers, pauses, t)
  }

  lemma LeaderJoins(b: seq<Query>, rest: seq<Query>)
    requires Leader(b).None?
    ensures Leader(b + rest) == Leader(rest)
    ensures rest != [] ==> (b + rest)[|b + rest| - 1] == rest[|rest| - 1]
  {
    assert rest == [] ==> b + rest == b;
  }

  lemma {:induction false} PausesJoin(b: seq<Query>, rest: seq<Query>, servers: seq<int>, pauses: nat)
    requires servers != [] && Leader(b).None? && Counted(rest, servers[1..], pauses)
    requires Failures(b) <= |b|
    ensures Counted(b + rest, servers, |b| + 1 - Failures(b) + pauses)
  {
    hide Failures, Leader, EndsLive;
    FailuresJoin(b, rest);
    LeaderJoins(b, rest);
    if Leader(rest).Some? {
      var t: nat :| t < |servers[1..]| && FoundAt(rest, servers[1..], pauses, t);
      FoundLater(b, rest, servers, pauses, t);
    }
  }

  lemma {:induction false} FoundLater(b: seq<Query>, rest: seq<Query>, servers: seq<int>, pauses: nat, t: nat)
    requires servers != [] && Leader(b).None? && FoundAt(rest, servers[1..], pauses, t)
    requires Failures(b) <= |b|
    ensures FoundAt(b + rest, servers, |b| + 1 - Failures(b) + pauses, t + 1)
  {
    hide Failures, Leader;
    FailuresJoin(b, rest);
    LeaderJoins(b, rest);
    assert servers[t + 1] == servers[1..][t];
  }

  lemma {:induction false} FewFailures(q: seq<Query>)
    ensures Failures(q) <= |q| && Failures([]) == 0
  {
    if q != [] {
      FewFailures(q[..|q| - 1]);
    }
  }

  lemma {:induction false} PausesAreCounted(servers: seq<int>, limit: nat, ask: nat -> LeaderReply, k: nat)
    ensures Counted(Queries(servers, limit, ask, k), servers, Pauses(servers, limit, ask, k))
  {
    hide Block, BlockPauses, Failures, Counted;
    NoneCounted();
    if servers != [] {
      var b := Block(servers[0], limit, ask, k);
      TurnPauses(servers[0], limit, ask, k);
      if EndsLive(b) {
        LiveCounted(servers, limit, ask, k);
      } else {
        FewFailures(b);
        PausesAreCounted(servers[1..], limit, ask, k + |b|);
        PausesJoin(b, Queries(servers[1..], limit, ask, k + |b|), servers, Pauses(servers[1..], limit, ask, k + |b|));
      }
    }
  }

  lemma NoneCounted()
    ensures Counted([], [], 0)
  {
  }

  lemma {:induction false} LiveCounted(servers: seq<int>, limit: nat, ask: nat -> LeaderReply, k: nat)
    requires servers != [] && EndsLive(Block(servers[0], limit, ask, k))
    ensures var b := Block(servers[0], limit, ask, k); Counted(b, servers, |b| - 1)
  {
    var b := Block(servers[0], limit, ask, k);
    TurnPauses(servers[0], limit, ask, k);
    BlockIsFaithful(servers[0], limit, ask, k);
    hide Block, Failures;
    assert FoundAt(b, servers, |b| - 1, 0);
  }

  /** The queries put to one server. */
  predicate Asks(queries: seq<Query>, server: int) {
    exists i :: 0 <= i < |queries| && queries[i].server == server
  }

  /** A search that fails has asked every server, unless it may ask none. */
  lemma {:induction false} FailureAsksAll(servers: seq<int>, limit: nat, ask: nat -> LeaderReply, k: nat, server: int)
    requires limit > 0 && server in servers && Leader(Queries(servers, limit, ask, k)).None?
    ensures Asks(Queries(servers, limit, ask, k), server)
  {
    hide Block, Asks;
    var b := Block(servers[0], limit, ask, k);
    var rest := Queries(servers[1..], limit, ask, k + |b|);
    BlockAsks(servers[0], limit, ask, k);
    JoinAsks(b, rest, server);
    if server != servers[0] {
      FailureAsksAll(servers[1..], limit, ask, k + |b|, server);
    }
  }

  lemma {:induction false} BlockAsks(server: int, limit: nat, ask: nat -> LeaderReply, k: nat)
    requires limit > 0
    ensures Asks(Block(server, limit, ask, k), server)
  {
    assert Block(server, limit, ask, k)[0].server == server;
  }

  lemma JoinAsks(b: seq<Query>, rest: seq<Query>, server: int)
    ensures Asks(b, server) || Asks(rest, server) ==> Asks(b + rest, server)
    ensures Leader(b + rest).None? ==> Leader(rest).None?
  {
    var q := b + rest;
    if i :| 0 <= i < |b| && b[i].server == server {
      assert q[i].server == server;
    }
    if i :| 0 <= i < |rest| && rest[i].server == server {
      assert q[|b| + i].server == server;
    }
    assert rest != [] ==> q[|q| - 1] == rest[|rest| - 1];
  }

  /** One server's turn within the search. */
  lemma {:induction false} SearchStep(servers: seq<int>, s: nat, limit: nat, ask: nat -> LeaderReply, k: nat, q: seq<Query>)
    requires s < |servers| && Leader(q).None?
    ensures var b := Block(servers[s], limit, ask, k);
      && Leader(q + b) == Leader(b)
      && if Leader(b).Some?
         then
           && q + Queries(servers[s..], limit, ask, k) == q + b
           && Pauses(servers[s..], limit, ask, k) == BlockPauses(b)
         else
           && q + Queries(servers[s..], limit, ask, k) == q + b + Queries(servers[s + 1..], limit, ask, k + |b|)
           && Pauses(servers[s..], limit, ask, k) == BlockPauses(b) + Pauses(servers[s + 1..], limit, ask, k + |b|)
  {
    hide Block, BlockPauses;
    var b := Block(servers[s], limit, ask, k);
    assert servers[s..][1..] == servers[s + 1..];
    assert b == [] ==> q + b == q;
    assert b != [] ==> (q + b)[|q + b| - 1] == b[|b| - 1];
    var rest := Queries(servers[s + 1..], limit, ask, k + |b|);
    assert q + (b + rest) == q + b + rest;
  }

  lemma {:induction false} SearchStarts(servers: seq<int>, limit: nat, ask: nat -> LeaderReply, k: nat)
    ensures [] + Queries(servers[0..], limit, ask, k) == Queries(servers, limit, ask, k) && Leader([]).None?
    ensures Pauses(servers[0..], limit, ask, k) == Pauses(servers, limit, ask, k)
  {
    assert servers[0..] == servers;
  }

  lemma {:induction false} SearchEnds(servers: seq<int>, limit: nat, ask: nat -> LeaderReply, k: nat, q: seq<Query>)
    ensures q + Queries(servers[|servers|..], limit, ask, k) == q
    ensures Pauses(servers[|servers|..], limit, ask, k) == 0
  {
    assert q + [] == q;
  }

  lemma Multiply(n: nat, m: nat)
    requires n > 0
    ensures n * m == (n - 1) * m + m && (n - 1) * m >= 0
  {
  }

  // Mutations.

  datatype Reply = Answer(raftRc: int) | Throws

  predicate Final(r: Reply) {
    r.Answer? && (r.raftRc == 0 || r.raftRc == WEIRD_CASE)
  }

  predicate LostLeader(r: Reply) {
    r.Answer? && (r.raftRc == NOT_LEADER || r.raftRc == REQUEST_CANCELLED)
  }

  /** One attempt: the server it went to, the leader known before it, and the reply. */
  datatype Attempt = Attempt(to: int, known: int, reply: Reply)

  datatype Outcome = Done(raftRc: int) | Undefined | Thrown

  /** A retried mutation so far: the attempts, the leader queries made, the time slept, the known
      leader, how often it changed, and whether the loop has ended. */
  datatype Progress = Progress(
    attempts: seq<Attempt>, asked: nat, slept: nat, leader: int, changes: nat, ended: Option<Outcome>)

  /** What stays fixed: the server attempts go to, what it replies to each of them, and what the
      search for a leader goes by. */
  datatype Setting = Setting(to: int, replies: nat -> Reply, servers: seq<int>, limit: nat, ask: nat -> LeaderReply)

  /** The leader replies: find the new leader, then pause; or fail to find one. */
  function Changed(p: Progress, c: Setting): Progress {
    var q := Queries(c.servers, c.limit, c.ask, p.asked);
    var r := p.(asked := p.asked + |q|, slept := p.slept + Slept(Pauses(c.servers, c.limit, c.ask, p.asked)));
    match Leader(q)
    case None => r.(ended := Some(Thrown))
    case Some(id) => r.(leader := id, slept := r.slept + Delay(p.changes), changes := p.changes + 1)
  }

  function Replied(p: Progress, reply: Reply, c: Setting): Progress {
    var p := p.(attempts := p.attempts + [Attempt(c.to, p.leader, reply)]);
    if reply.Throws? then p.(ended := Some(Thrown))
    else if Final(reply) then p.(ended := Some(Done(reply.raftRc)))
    else if LostLeader(reply) then Changed(p, c)
    else p
  }

  /** The first n rounds of the loop. */
  function Rounds(p: Progress, n: nat, c: Setting): Progress {
    if n == 0 then p
    else
      var before := Rounds(p, n - 1, c);
      if before.ended.Some? then before else Replied(before, c.replies(n - 1), c)
  }

  /** A loop that runs out returns its last reply, of which it has none after no rounds. */
  function Ended(p: Progress): Outcome {
    if p.ended.Some? then p.ended.value
    else if p.attempts != [] && p.attempts[|p.attempts| - 1].reply.Answer?
    then Done(p.attempts[|p.attempts| - 1].reply.raftRc)
    else Undefined
  }

  predicate Fresh(p: Progress) {
    p.attempts == [] && p.changes == 0 && p.ended.None?
  }

  predicate NotFinal(attempts: seq<Attempt>) {
    forall i :: 0 <= i < |attempts| ==> attempts[i].reply.Answer? && attempts[i].reply.raftRc !in {0, 999}
  }

  predicate AsksForLeader(a: Attempt) {
    a.reply == Answer(-3) || a.reply == Answer(-1)
  }

  /** How many of the replies asked for another leader. */
  function Searches(attempts: seq<Attempt>): (m: nat)
    ensures attempts == [] ==> m == 0
  {
    if attempts == [] then 0
    else Searches(attempts[..|attempts| - 1]) + if AsksForLeader(attempts[|attempts| - 1]) then 1 else 0
  }

  lemma {:induction false} SearchesSnoc(attempts: seq<Attempt>, a: Attempt)
    ensures Searches(attempts + [a]) == Searches(attempts) + if AsksForLeader(a) then 1 else 0
  {
    assert (attempts + [a])[..|attempts|] == attempts;
  }

  /** The queries made when k were made before and m searches since. */
  function AskedBy(k: nat, m: nat, c: Setting): nat {
    if m == 0 then k
    else AskedBy(k, m - 1, c) + |Queries(c.servers, c.limit, c.ask, AskedBy(k, m - 1, c))|
  }

  /** The time slept inside those searches. */
  function SleptBy(k: nat, m: nat, c: Setting): nat {
    if m == 0 then 0
    else SleptBy(k, m - 1, c) + Slept(Pauses(c.servers, c.limit, c.ask, AskedBy(k, m - 1, c)))
  }

  /** What may be said from outside of a mutation that began at `start`: no more attempts than
      retries, an accepted or a 999 reply or a failure only as the last of them; an answer is the last
      reply, and then every reply that asked for another leader was followed by a change of leader and
      a pause; and the time slept is that of the searches made and of those pauses, which double. */
  predicate IsRun(p: Progress, n: nat, start: Progress, c: Setting) {
    && |p.attempts| <= n
    && (forall i :: 0 <= i < |p.attempts| ==> p.attempts[i].reply == c.replies(i))
    && p.asked == AskedBy(start.asked, Searches(p.attempts), c)
    && p.slept == start.slept + SleptBy(start.asked, Searches(p.attempts), c) + Slept(p.changes)
    && match p.ended
       case None => |p.attempts| == n && NotFinal(p.attempts) && p.changes == Searches(p.attempts)
       case Some(outcome) => p.attempts != [] && EndsRun(p, p.attempts[|p.attempts| - 1], outcome)
  }

  predicate EndsRun(p: Progress, last: Attempt, outcome: Outcome)
    requires p.attempts != []
  {
    && NotFinal(p.attempts[..|p.attempts| - 1])
    && match outcome
       case Undefined => false
       case Done(rc) => last.reply == Answer(rc) && rc in {0, 999} && p.changes == Searches(p.attempts)
       case Thrown =>
         || (last.reply.Throws? && p.changes == Searches(p.attempts))
         || (AsksForLeader(last) && p.changes + 1 == Searches(p.attempts))
  }

  lemma ReplyContinuesRun(p: Progress, n: nat, start: Progress, c: Setting)
    requires IsRun(p, n, start, c) && p.ended.None?
    ensures IsRun(Replied(p, c.replies(n), c), n + 1, start, c)
  {
    hide Queries, Leader, Pauses, Slept, Delay, Searches;
    var attempt := Attempt(c.to, p.leader, c.replies(n));
    SearchesSnoc(p.attempts, attempt);
    PauseStep(p.changes);
    var after := Replied(p, c.replies(n), c);
    assert after.attempts == p.attempts + [attempt];
    assert after.attempts[..n] == p.attempts;
  }

  lemma {:induction false} RoundsAreRuns(p: Progress, n: nat, c: Setting)
    requires Fresh(p)
    ensures IsRun(Rounds(p, n, c), n, p, c)
  {
    hide Replied;
    if n > 0 {
      RoundsAreRuns(p, n - 1, c);
      if Rounds(p, n - 1, c).ended.None? {
        ReplyContinuesRun(Rounds(p, n - 1, c), n - 1, p, c);
      }
    }
  }

  /** Every server names a leader at once. */
  ghost predicate AlwaysLed(c: Setting) {
    c.servers != [] && c.limit > 0 && forall k: nat :: c.ask(k).Names? && c.ask(k).id != -1
  }

  lemma {:induction false} LedSearchIsShort(k: nat, m: nat, c: Setting)
    requires AlwaysLed(c)
    ensures AskedBy(k, m, c) == k + m && SleptBy(k, m, c) == 0
  {
    if m > 0 {
      LedSearchIsShort(k, m - 1, c);
      var ask := c.ask;
      assert ask(k + m - 1).Names?;
      assert Block(c.servers[0], c.limit, ask, k + m - 1) == [Query(c.servers[0], ask(k + m - 1))];
    }
  }

  /** With a leader to be found at once, one query and one pause follow each reply that asks for
      one, and m such pauses take 100 (2^m - 1) milliseconds. */
  lemma {:induction false} LedRunsSleepBetweenAttempts(p: Progress, n: nat, c: Setting)
    requires Fresh(p) && AlwaysLed(c)
    ensures var end := Rounds(p, n, c);
      && end.changes == Searches(end.attempts)
      && end.asked == p.asked + Searches(end.attempts)
      && (Searches(end.attempts) <= 58 ==> end.slept == p.slept + 100 * (Pow2(Searches(end.attempts)) - 1))
  {
    hide Queries, Pauses, Slept, Rounds, Searches, Leader;
    RoundsAreRuns(p, n, c);
    LedRunsFind(p, n, c);
    var m := Searches(Rounds(p, n, c).attempts);
    LedSearchIsShort(p.asked, m, c);
    SleptIsGeometric(m);
  }

  lemma {:induction false} LedRunsFind(p: Progress, n: nat, c: Setting)
    requires Fresh(p) && AlwaysLed(c)
    ensures var end := Rounds(p, n, c); end.changes == Searches(end.attempts)
  {
    hide Queries, Pauses, Slept, Delay, Searches, Leader;
    if n > 0 {
      LedRunsFind(p, n - 1, c);
      var before, ask := Rounds(p, n - 1, c), c.ask;
      assert ask(before.asked).Names?;
      SearchFinds(c.servers, c.limit, ask, before.asked, ask(before.asked).id);
      SearchesSnoc(before.attempts, Attempt(c.to, before.leader, c.replies(n - 1)));
    }
  }

  // Where the attempts go.

  /** The leader known before attempt i: at first the starting one, then what the last search found. */
  function KnownBefore(p: Progress, i: nat, c: Setting): int {
    if i == 0 then p.leader
    else if LostLeader(c.replies(i - 1)) then
      var found := Leader(Queries(c.servers, c.limit, c.ask, Rounds(p, i - 1, c).asked));
      if found.Some? then found.value else KnownBefore(p, i - 1, c)
    else KnownBefore(p, i - 1, c)
  }

  lemma ReplyKnows(p: Progress, c: Setting, reply: Reply)
    ensures var after := Replied(p, reply, c);
      && after.attempts == p.attempts + [Attempt(c.to, p.leader, reply)]
      && (after.ended.None? && !LostLeader(reply) ==> after.leader == p.leader)
      && (after.ended.None? && LostLeader(reply) ==>
            Leader(Queries(c.servers, c.limit, c.ask, p.asked)) == Some(after.leader))
  {
    hide Queries, Leader, Pauses, Slept, Delay;
  }

  lemma {:induction false} RoundsKnow(p: Progress, n: nat, c: Setting)
    requires Fresh(p)
    ensures var end := Rounds(p, n, c);
      && (end.ended.None? ==> |end.attempts| == n && end.leader == KnownBefore(p, n, c))
      && (forall i :: 0 <= i < |end.attempts| ==>
            end.attempts[i].to == c.to && end.attempts[i].known == KnownBefore(p, i, c))
  {
    hide Replied, Leader, LostLeader;
    if n > 0 {
      RoundsKnow(p, n - 1, c);
      ReplyKnows(Rounds(p, n - 1, c), c, c.replies(n - 1));
    }
  }

  /** When the call starts at the known leader, an attempt reaches the leader known before it if and
      only if that is the leader the call started with. */
  lemma {:induction false} AttemptReachesLeaderExactly(p: Progress, n: nat, c: Setting, i: nat)
    requires Fresh(p) && c.to == p.leader && i < |Rounds(p, n, c).attempts|
    ensures Rounds(p, n, c).attempts[i].known == KnownBefore(p, i, c)
    ensures Rounds(p, n, c).attempts[i].to == Rounds(p, n, c).attempts[i].known <==> KnownBefore(p, i, c) == p.leader
  {
    hide KnownBefore, Rounds;
    RoundsKnow(p, n, c);
  }

  /** What any other server would have answered does not matter, to the outcome or to anything else. */
  lemma {:induction false} OthersDoNotMatter(p: Progress, n: nat, c: Setting, send: (int, nat) -> Reply,
                                             send': (int, nat) -> Reply)
    requires forall i: nat :: send(c.to, i) == send'(c.to, i)
    ensures Rounds(p, n, c.(replies := SendTo(send, c.to))) == Rounds(p, n, c.(replies := SendTo(send', c.to)))
  {
    hide Queries, Leader, Pauses, Slept, Delay;
    if n > 0 {
      OthersDoNotMatter(p, n - 1, c, send, send');
      assert send(c.to, n - 1) == send'(c.to, n - 1);
    }
  }

  lemma {:induction false} SearchFinds(servers: seq<int>, limit: nat, ask: nat -> LeaderReply, k: nat, leader: int)
    requires servers != [] && limit > 0 && leader != NO_LIVE_LEADER && ask(k) == Names(leader)
    ensures Leader(Queries(servers, limit, ask, k)) == Some(leader)
  {
  }

  /** The leader has moved from a to b, a says so, every server names b, and b would accept: the
      client learns of b at once, and still sends every one of its attempts to a, in vain. */
  lemma {:induction false} MovedLeaderIsMissed(p: Progress, n: nat, c: Setting, send: (int, nat) -> Reply, b: int)
    requires Fresh(p) && c.to == p.leader != b && b != -1 && c.servers != [] && c.limit > 0 && n > 0
    requires c.replies == SendTo(send, c.to)
    requires forall i: nat :: send(c.to, i) == Answer(-3) && send(b, i) == Answer(0)
    requires forall k: nat :: c.ask(k) == Names(b)
    ensures var end := Rounds(p, n, c);
      && end.leader == b && Ended(end) == Done(-3)
      && |end.attempts| == n && end.attempts[0] == Attempt(c.to, c.to, Answer(-3))
      && forall i :: 1 <= i < n ==> end.attempts[i] == Attempt(c.to, b, Answer(-3))
    ensures Rounds(p, n, c).ended.None?
  {
    hide Queries, Leader, Pauses, Slept, Delay;
    if n > 1 {
      MovedLeaderIsMissed(p, n - 1, c, send, b);
    }
    var before := Rounds(p, n - 1, c);
    SearchFinds(c.servers, c.limit, c.ask, before.asked, b);
    assert c.replies(n - 1) == Answer(-3);
  }

  class Client {
    const servers: seq<int>
    const numRetries: nat
    var leaderId: int
    var asked: nat
    var slept: nat

    constructor (ids: seq<int>, retries: nat, leader: int)
      ensures servers == ids && numRetries == retries && leaderId == leader && asked == 0 && slept == 0
    {
      servers, numRetries, leaderId := ids, retries, leader;
      asked, slept := 0, 0;
    }

    /** One server's turn: what happens inside the try block and in its handler. */
    method AskServer(server: int, ask: nat -> LeaderReply, delayMs: nat, ghost j: nat)
      returns (leader: Option<int>, newDelayMs: nat)
      requires delayMs == Delay(j)
      modifies this`asked, this`slept
      ensures var b := Block(server, numRetries, ask, old(asked));
        && asked == old(asked) + |b|
        && leader == Leader(b)
        && newDelayMs == Delay(j + BlockPauses(b))
        && slept == old(slept) + Slept(j + BlockPauses(b)) - Slept(j)
    {
      hide Block, Slept, Delay, BlockPauses, EndsLive, Leader, NamesNone;
      NoneYet();
      newDelayMs := delayMs;
      ghost var b: seq<Query> := [];
      for i := 0 to numRetries
        invariant |b| == i && asked == old(asked) + i
        invariant Block(server, numRetries, ask, old(asked)) == b + Block(server, numRetries - i, ask, asked)
        invariant newDelayMs == Delay(j + i) && slept == old(slept) + Slept(j + i) - Slept(j)
        invariant NamesNone(b)
      {
        BlockStep(server, numRetries - i, ask, asked, b);
        PauseStep(j + i);
        TurnEnds(b, Query(server, ask(asked)));
        var reply := ask(asked);
        asked := asked + 1;
        b := b + [Query(server, reply)];
        if reply.Fails? {
          slept := slept + newDelayMs;
          newDelayMs := newDelayMs * 2 % SIZE_T;
          return None, newDelayMs;
        }
        if reply.id != NO_LIVE_LEADER {
          return Some(reply.id), newDelayMs;
        }
        slept := slept + newDelayMs;
        newDelayMs := newDelayMs * 2 % SIZE_T;
      }
      BlockEnds(server, ask, asked, b);
      PauseStep(j + numRetries);
      TurnEnds(b, Query(server, Fails));
      slept := slept + newDelayMs;
      newDelayMs := newDelayMs * 2 % SIZE_T;
      leader := None;
    }

    method GetLeaderId(ask: nat -> LeaderReply) returns (r: Result<int, string>)
      modifies this`asked, this`slept
      ensures var q := Queries(servers, numRetries, ask, old(asked));
        && asked == old(asked) + |q|
        && (r.Ok? <==> Leader(q).Some?)
        && (r.Ok? ==> Leader(q) == Some(r.value) && r.value != -1)
      ensures slept == old(slept) + Slept(Pauses(servers, numRetries, ask, old(asked)))
    {
      hide Block, BlockPauses, Leader, Queries, Pauses, Slept, Delay;
      SearchStarts(servers, numRetries, ask, asked);
      PauseStep(0);
      var delayMs := 100;
      ghost var j: nat := 0;
      ghost var q: seq<Query> := [];
      for s := 0 to |servers|
        invariant asked == old(asked) + |q| && Leader(q).None?
        invariant Queries(servers, numRetries, ask, old(asked)) == q + Queries(servers[s..], numRetries, ask, asked)
        invariant Pauses(servers, numRetries, ask, old(asked)) == j + Pauses(servers[s..], numRetries, ask, asked)
        invariant delayMs == Delay(j) && slept == old(slept) + Slept(j)
      {
        ghost var b := Block(servers[s], numRetries, ask, asked);
        ghost var k := asked;
        SearchStep(servers, s, numRetries, ask, k, q);
        var leader;
        leader, delayMs := AskServer(servers[s], ask, delayMs, j);
        j := j + BlockPauses(b);
        q := q + b;
        if leader.Some? {
          return Ok(leader.value);
        }
      }
      SearchEnds(servers, numRetries, ask, asked, q);
      r := Err("failed to connect to any server");
    }

    /** True after a leader change, false where the reply asks for none; the search may throw. */
    method TryHandleLeaderChange(raftRc: int, ask: nat -> LeaderReply) returns (r: Result<bool, string>)
      modifies this`asked, this`slept, this`leaderId
      ensures r == Ok(false) <==> raftRc !in {-3, -1}
      ensures r == Ok(false) ==> leaderId == old(leaderId) && asked == old(asked) && slept == old(slept)
      ensures var q := Queries(servers, numRetries, ask, old(asked));
        raftRc in {-3, -1} ==>
          && asked == old(asked) + |q|
          && (r.Ok? <==> Leader(q).Some?)
          && leaderId == (if r.Ok? then Leader(q).value else old(leaderId))
          && slept == old(slept) + Slept(Pauses(servers, numRetries, ask, old(asked)))
    {
      if raftRc == NOT_LEADER || raftRc == REQUEST_CANCELLED {
        var found := GetLeaderId(ask);
        if found.Err? {
          return Err(found.error);
        }
        leaderId := found.value;
        return Ok(true);
      }
      r := Ok(false);
    }

    /** A put, an update or a delete. The handle is looked up once, so every attempt goes to the
        server that led when the call began, whoever leads after a change. */
    method Mutate(send: (int, nat) -> Reply, ask: nat -> LeaderReply) returns (outcome: Outcome, ghost end: Progress)
      modifies this
      ensures old(leaderId) !in servers ==> outcome == Thrown && end == old(Begin())
      ensures old(leaderId) in servers ==>
                && end == Rounds(old(Begin()), numRetries, At(old(leaderId), SendTo(send, old(leaderId)), ask))
                && outcome == Ended(end)
      ensures asked == end.asked && slept == end.slept && leaderId == end.leader
      ensures forall i :: 0 <= i < |end.attempts| ==> end.attempts[i].to == old(leaderId)
    {
      if leaderId !in servers {
        return Thrown, Begin();
      }
      ghost var begin, c := Begin(), At(leaderId, SendTo(send, leaderId), ask);
      outcome, end := RetryMutation(SendTo(send, leaderId), ask, leaderId);
      RoundsKnow(begin, numRetries, c);
    }

    function Begin(): Progress
      reads this
    {
      Progress([], asked, slept, leaderId, 0, None)
    }

    function At(to: int, replies: nat -> Reply, ask: nat -> LeaderReply): Setting
      reads this
    {
      Setting(to, replies, servers, numRetries, ask)
    }

    /** f sends to a server it has been given, `to`. */
    method RetryMutation(f: nat -> Reply, ask: nat -> LeaderReply, ghost to: int)
      returns (outcome: Outcome, ghost end: Progress)
      modifies this
      ensures end == Rounds(old(Begin()), numRetries, At(to, f, ask)) && outcome == Ended(end)
      ensures asked == end.asked && slept == end.slept && leaderId == end.leader
    {
      hide Slept, Delay, Queries, Pauses, Leader;
      ghost var c := At(to, f, ask);
      outcome := Undefined;
      end := Begin();
      var delayMs := 100;
      PauseStep(0);
      for i := 0 to numRetries
        invariant end == Rounds(old(Begin()), i, c) && end.ended.None?
        invariant asked == end.asked && slept == end.slept && leaderId == end.leader
        invariant outcome == Ended(end) && delayMs == Delay(end.changes)
      {
        var result := f(i);
        PauseStep(end.changes);
        end := Replied(end, result, c);
        StaysEnded(old(Begin()), i + 1, numRetries, c);
        if result.Throws? {
          outcome := Thrown;
          return;
        }
        outcome := Done(result.raftRc);
        if result.raftRc == 0 {
          return;
        } else if result.raftRc == WEIRD_CASE {
          return;
        } else {
          var changed := TryHandleLeaderChange(result.raftRc, ask);
          if changed.Err? {
            outcome := Thrown;
            return;
          }
          if changed.value {
            slept := slept + delayMs;
            delayMs := delayMs * 2 % SIZE_T;
          }
        }
      }
    }
  }

  function SendTo(send: (int, nat) -> Reply, server: int): nat -> Reply {
    (i: nat) => send(server, i)
  }

  lemma {:induction false} StaysEnded(p: Progress, i: nat, n: nat, c: Setting)
    requires i <= n
    ensures Rounds(p, i, c).ended.Some? ==> Rounds(p, n, c) == Rounds(p, i, c)
    decreases n
  {
    if i < n {
      StaysEnded(p, i, n - 1, c);
    }
  }
}
