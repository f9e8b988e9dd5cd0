/** From the servers a client reaches to the server a key is read from. */
module ClientRouting {
  import opened Products
  import opened ReadPolicy
  import opened Wrappers
  import opened MurmurBits
  import MurmurValues
  import MurmurX86_32

  // The clients map, and the ids it lists.

  /** A server as the cluster announces it: its port, if the text holds a number, and whether a
      connection succeeds. */
  datatype Endpoint = Endpoint(id: int, port: Option<int>, reachable: bool)

  predicate GoodPort(e: Endpoint) {
    e.port.Some? && 1 <= e.port.value <= 65535
  }

  function Reached(endpoints: seq<Endpoint>): set<int> {
    set e | e in endpoints && e.reachable :: e.id
  }

  predicate Ascending(ids: seq<int>) {
    forall i, j :: 0 <= i < j < |ids| ==> ids[i] < ids[j]
  }

  ghost predicate Lists(ids: seq<int>, servers: set<int>) {
    Ascending(ids) && forall id :: id in ids <==> id in servers
  }

  method Connect(endpoints: seq<Endpoint>) returns (r: Result<seq<int>, string>)
    ensures r.Ok? <==> forall e :: e in endpoints ==> e.port.Some? && 1 <= e.port.value <= 65535
    ensures r.Ok? ==> Lists(r.value, Reached(endpoints))
    ensures r.Ok? ==> forall i, j :: 0 <= i < j < |r.value| ==> r.value[i] < r.value[j]
    ensures r.Ok? ==> forall id :: id in r.value <==> exists e :: e in endpoints && e.reachable && e.id == id
  {
    var clients: set<int> := {};
    for i := 0 to |endpoints|
      invariant clients == Reached(endpoints[..i])
      invariant forall j :: 0 <= j < i ==> GoodPort(endpoints[j])
    {
      var srv := endpoints[i];
      assert srv in endpoints;
      if srv.port.None? {
        return Err("stoi");
      }
      if 1 > srv.port.value || srv.port.value > 65535 {
        return Err("invalid port number");
      }
      if srv.reachable {
        clients := clients + {srv.id};
      }
      assert endpoints[..i + 1] == endpoints[..i] + [srv];
    }
    assert endpoints[..|endpoints|] == endpoints;
    var srvIds := InOrder(clients);
    r := Ok(srvIds);
  }

  /** A std::map is walked in the order of its keys. */
  method InOrder(keys: set<int>) returns (ids: seq<int>)
    ensures Lists(ids, keys)
  {
    ids := [];
    var left := keys;
    while left != {}
      invariant left <= keys && Lists(ids, keys - left)
      invariant forall i, id :: 0 <= i < |ids| && id in left ==> ids[i] < id
      decreases |left|
    {
      ghost var m := LeastInt(left);
      var id :| id in left && forall j :: j in left ==> id <= j;
      left := left - {id};
      ids := ids + [id];
    }
    assert keys - left == keys;
  }

  lemma HasElement(keys: set<int>)
    ensures keys == {} || exists k :: k in keys
  {
    if forall k :: k !in keys {
      assert keys == {};
    }
  }

  lemma {:induction false} LeastInt(keys: set<int>) returns (m: int)
    requires keys != {}
    ensures m in keys && forall j :: j in keys ==> m <= j
  {
    HasElement(keys);
    var k :| k in keys;
    var rest := keys - {k};
    assert forall j :: j in keys ==> j == k || j in rest;
    if rest == {} {
      m := k;
    } else {
      m := LeastInt(rest);
      m := if k < m then k else m;
    }
  }

  /** One set of servers is listed in one way. */
  lemma {:induction false} ListingIsUnique(a: seq<int>, b: seq<int>, servers: set<int>)
    requires Lists(a, servers) && Lists(b, servers)
    ensures a == b
  {
    EmptyListing(a, servers);
    EmptyListing(b, servers);
    if a != [] {
      var x, y := a[|a| - 1], b[|b| - 1];
      assert x in servers && y in servers;
      assert x in b && y in a;
      assert x == y;
      DropLast(a, servers);
      DropLast(b, servers);
      ListingIsUnique(a[..|a| - 1], b[..|b| - 1], servers - {x});
    }
  }

  lemma EmptyListing(ids: seq<int>, servers: set<int>)
    requires Lists(ids, servers)
    ensures ids == [] <==> servers == {}
  {
    HasElement(servers);
    if ids != [] {
      assert ids[0] in ids;
    }
  }

  lemma DropLast(a: seq<int>, servers: set<int>)
    requires Lists(a, servers) && a != []
    ensures Lists(a[..|a| - 1], servers - {a[|a| - 1]})
  {
    var front, last := a[..|a| - 1], a[|a| - 1];
    assert a == front + [last];
    forall id ensures id in front <==> id in servers - {last} {
      if id in front {
        var i :| 0 <= i < |front| && front[i] == id;
        assert a[i] == id && id in a;
      }
    }
  }

  // The hash policy.

  const MMHSEED: bv32 := 1234567890

  function Token(key: seq<bv8>, len: bv32): (t: nat)
    requires IsLength(len, key)
    ensures t <= MAX
  {
    MurmurX86_32.Hash(key, len, MMHSEED) as int
  }

  /** The token of "Hello, world!". */
  lemma TokenOfHello()
    ensures IsLength(13, MurmurValues.HELLO) && Token(MurmurValues.HELLO, 13) == 681628624
  {
    MurmurValues.HelloToken();
    hide MurmurX86_32.Hash;
    assert (0x28a0d3d0 as bv32) as int == 681628624;
  }

  /** The server a key is read from, with k ranges for every server. */
  function HashRoute(ids: seq<int>, k: nat, key: seq<bv8>, len: bv32): Option<int>
    requires IsLength(len, key)
    requires ids != [] && 0 < |ids| * k < TWO_32
  {
    Pick(ids, Route(|ids|, |ids| * k, Token(key, len)))
  }

  method ReadByHash(policy: RangePolicy, ghost k: nat, key: seq<bv8>, len: bv32) returns (id: Option<int>)
    requires IsLength(len, key)
    requires policy.serverIds != [] && 0 < |policy.serverIds| * k < TWO_32
    requires policy.ranges == Bounds(|policy.serverIds| * k)
    ensures id == HashRoute(policy.serverIds, k, key, len)
  {
    var hash, _ := MurmurX86_32.MurmurHash3_x86_32(key, len, MMHSEED);
    hide MurmurX86_32.Hash;
    id := policy.NextServer(hash as int);
  }

  /** Clients that reach the same servers agree on every key, in whatever order, and however often,
      the servers were announced; and a key without a server is one with a token at the top. */
  lemma SameServersSameRouting(a: seq<Endpoint>, b: seq<Endpoint>, idsA: seq<int>, idsB: seq<int>, k: nat,
                               key: seq<bv8>, len: bv32)
    requires Reached(a) == Reached(b) != {} && Lists(idsA, Reached(a)) && Lists(idsB, Reached(b))
    requires IsLength(len, key) && 0 < |idsA| * k < TWO_32
    ensures idsA == idsB && idsA != []
    ensures HashRoute(idsA, k, key, len) == HashRoute(idsB, k, key, len)
    ensures HashRoute(idsA, k, key, len).None? <==> Token(key, len) > MAX - MAX % (|idsA| * k)
    ensures HashRoute(idsA, k, key, len).Some? ==> HashRoute(idsA, k, key, len).value in Reached(a)
  {
    ListingIsUnique(idsA, idsB, Reached(a));
    EmptyListing(idsA, Reached(a));
    UnroutedAreTheTop(|idsA|, k, Token(key, len));
  }

  // Round robin.

  /** The position after i reads. */
  function Turn(n: nat, i: nat): nat
    requires n > 0
  {
    if i == 0 then 0 else (Turn(n, i - 1) + 1) % n
  }

  class RoundRobinPolicy {
    const serverIds: seq<int>
    var rri: nat
    ghost var served: nat

    ghost predicate Valid()
      reads this
    {
      |serverIds| > 0 && rri == Turn(|serverIds|, served) && rri < |serverIds|
    }

    constructor (ids: seq<int>)
      requires ids != []
      ensures Valid() && serverIds == ids && served == 0
    {
      serverIds := ids;
      rri := 0;
      served := 0;
    }

    method NextServer() returns (id: int)
      requires Valid()
      modifies this
      ensures Valid() && served == old(served) + 1
      ensures id == serverIds[old(rri)] && old(rri) == Turn(|serverIds|, old(served))
    {
      id := serverIds[rri];
      rri := (rri + 1) % |serverIds|;
      served := served + 1;
    }
  }

  lemma {:induction false} TurnIsRemainder(n: nat, i: nat)
    requires n > 0
    ensures Turn(n, i) == i % n
  {
    if i > 0 {
      TurnIsRemainder(n, i - 1);
      RemainderOfSum(i - 1, 1, n);
    }
  }

  /** How many of the first m reads go to server j. */
  function ReadsTo(n: nat, m: nat, j: nat): nat
    requires n > 0
  {
    if m == 0 then 0 else ReadsTo(n, m - 1, j) + if Turn(n, m - 1) == j then 1 else 0
  }

  lemma {:induction false} ReadsAreHits(n: nat, m: nat, j: nat)
    requires n > 0
    ensures ReadsTo(n, m, j) == Hits(m, n, j)
  {
    if m > 0 {
      ReadsAreHits(n, m - 1, j);
      TurnIsRemainder(n, m - 1);
    }
  }

  /** Any n reads in a row reach every server once, and at no time is one server two reads ahead. */
  lemma TurnsAreFair(n: nat, m: nat, i: nat, j: nat)
    requires i < n && j < n
    ensures Turn(n, m) == m % n
    ensures ReadsTo(n, m + n, j) == ReadsTo(n, m, j) + 1
    ensures -1 <= ReadsTo(n, m, i) - ReadsTo(n, m, j) <= 1
  {
    TurnIsRemainder(n, m);
    ReadsAreHits(n, m, i);
    ReadsAreHits(n, m, j);
    ReadsAreHits(n, m + n, j);
    HitsAreEven(m, n, i);
    HitsAreEven(m, n, j);
    HitsAreEven(m + n, n, j);
    Division(m, n);
    Successor(m / n, n);
    QuotientIs(m + n, n, m / n + 1, m % n);
  }
}
