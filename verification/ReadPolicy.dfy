/** How a client chooses the server a read goes to: by ranges of 32-bit tokens, or in turn. */
module ReadPolicy {
  import opened Products
  import opened Wrappers

  const MAX: int := 0xFFFF_FFFF
  const TWO_32: int := 0x1_0000_0000

  // Ranges.

  /** The width of a range. The divisor is cut to 32 bits, and must not be cut to zero. */
  function Incr(total: nat): (incr: nat)
    requires total % TWO_32 != 0
  {
    MAX / (total % TWO_32)
  }

  /** The upper ends of the ranges, as 32-bit addition leaves them. */
  function Bounds(total: nat): seq<int>
    requires total % TWO_32 != 0
  {
    seq(total, i requires 0 <= i < total => Times(i + 1, Incr(total)) % TWO_32)
  }

  /** The first range a token is not above. */
  predicate IsFirst(ranges: seq<int>, token: nat, r: Option<nat>) {
    match r
    case None => forall i :: 0 <= i < |ranges| ==> ranges[i] < token
    case Some(i) => i < |ranges| && token <= ranges[i] && forall j :: 0 <= j < i ==> ranges[j] < token
  }

  /** In closed form: which range, out of `total`, a token falls into. */
  function RangeOf(total: nat, token: nat): (r: Option<int>)
    requires 0 < total < TWO_32
  {
    if token == 0 then Some(0)
    else if Incr(total) > 0 && token <= Times(total, Incr(total)) then Some((token - 1) / Incr(total))
    else None
  }

  class RangePolicy {
    const serverIds: seq<int>
    var ranges: seq<int>

    constructor (ids: seq<int>)
      ensures serverIds == ids && ranges == []
    {
      serverIds := ids;
      ranges := [];
    }

    /** The part of the constructor that may throw. */
    method Partition(numTokens: nat) returns (r: Result<(), string>)
      requires ranges == []
      requires numTokens > 0 ==> |serverIds| * numTokens % TWO_32 != 0
      modifies this
      ensures numTokens == 0 ==> r.Err? && ranges == []
      ensures numTokens > 0 ==> r == Ok(()) && ranges == Bounds(|serverIds| * numTokens)
    {
      if numTokens == 0 {
        return Err("num_tokens cannot be 0");
      }
      ranges := Accumulate(|serverIds| * numTokens);
      r := Ok(());
    }

    /** None where the program returns an index no server has. */
    method Next(token: nat) returns (server: Option<nat>)
      requires |serverIds| > 0
      ensures server.None? ==> IsFirst(ranges, token, None)
      ensures server.Some? ==> exists i: nat :: IsFirst(ranges, token, Some(i)) && server.value == i % |serverIds|
    {
      for i := 0 to |ranges|
        invariant forall j :: 0 <= j < i ==> ranges[j] < token
      {
        if token <= ranges[i] {
          assert IsFirst(ranges, token, Some(i));
          return Some(i % |serverIds|);
        }
      }
      return None;
    }

    /** The server's id. Where there is no range the program indexes past its servers. */
    method NextServer(token: nat) returns (id: Option<int>)
      requires 0 < |serverIds| && ranges != [] && |ranges| < TWO_32 && ranges == Bounds(|ranges|)
      ensures id == Pick(serverIds, Route(|serverIds|, |ranges|, token))
    {
      var i := Next(token);
      if i.Some? {
        ghost var r: nat :| IsFirst(ranges, token, Some(r)) && i.value == r % |serverIds|;
        ScanDivides(|ranges|, token, Some(r));
        return Some(serverIds[i.value]);
      }
      ScanDivides(|ranges|, token, None);
      return None;
    }
  }

  method Accumulate(totalTokens: nat) returns (ranges: seq<int>)
    requires totalTokens % TWO_32 != 0
    ensures ranges == Bounds(totalTokens)
  {
    hide Times;
    var incr := MAX / (totalTokens % TWO_32);
    assert incr == Incr(totalTokens);
    var next := 0;
    ranges := [];
    Successor(0, incr);
    for i := 0 to totalTokens
      invariant |ranges| == i && next == Times(i, incr) % TWO_32
      invariant forall j :: 0 <= j < i ==> ranges[j] == Times(j + 1, incr) % TWO_32
    {
      Successor(i, incr);
      RemainderOfSum(Times(i, incr), incr, TWO_32);
      next := (next + incr) % TWO_32;
      ranges := ranges + [next];
    }
    assert forall j :: 0 <= j < totalTokens ==> ranges[j] == Bounds(totalTokens)[j];
  }

  /** A range is at least one token wide, and all of them fit below MAX, leaving the remainder. */
  lemma WidthsAddUp(total: nat)
    requires 0 < total < TWO_32
    ensures Incr(total) >= 1 && Times(total, Incr(total)) + MAX % total == MAX && 0 <= MAX % total < total
  {
    Division(MAX, total);
    assert total % TWO_32 == total;
    assert Times(total, Incr(total)) == Times(Incr(total), total);
    assert Times(0, total) == 0;
  }

  /** Accumulation does not overflow: the bounds are the multiples of one width. */
  lemma BoundsAreMultiples(total: nat, i: nat)
    requires i < total < TWO_32
    ensures Bounds(total)[i] == Times(i + 1, Incr(total))
    ensures 0 < Bounds(total)[i] <= Times(total, Incr(total)) <= MAX
  {
    hide Times;
    WidthsAddUp(total);
    hide Incr;
    Monotone(i + 1, total, Incr(total));
    Monotone(1, i + 1, Incr(total));
    Successor(0, Incr(total));
  }

  /** The scan finds the range that division finds. */
  lemma ScanDivides(total: nat, token: nat, r: Option<nat>)
    requires 0 < total < TWO_32 && IsFirst(Bounds(total), token, r)
    ensures r == RangeOf(total, token)
  {
    hide Times;
    WidthsAddUp(total);
    BoundsAreMultiples(total, 0);
    BoundsAreMultiples(total, total - 1);
    hide Incr;
    var incr := Incr(total);
    if r.Some? {
      BoundsAreMultiples(total, r.value);
      if r.value > 0 {
        BoundsAreMultiples(total, r.value - 1);
      }
      hide Bounds;
      if token > 0 {
        Successor(r.value, incr);
        Successor(0, incr);
        QuotientIs(token - 1, incr, r.value, token - 1 - Times(r.value, incr));
      }
    }
  }

  function Route(n: nat, total: nat, token: nat): (server: Option<int>)
    requires n > 0 && 0 < total < TWO_32
    ensures server.Some? ==> 0 <= server.value < n
  {
    var r := RangeOf(total, token);
    if r.Some? then Some(r.value % n) else None
  }

  function Pick(ids: seq<int>, i: Option<int>): Option<int>
    requires i.Some? ==> 0 <= i.value < |ids|
  {
    if i.Some? then Some(ids[i.value]) else None
  }

  // How many tokens a server owns.

  /** The number of tokens below `hi` that go to `server`, or nowhere. */
  function Owned(n: nat, total: nat, server: Option<int>, hi: nat): nat
    requires n > 0 && 0 < total < TWO_32
  {
    if hi == 0 then 0
    else Owned(n, total, server, hi - 1) + if Route(n, total, hi - 1) == server then 1 else 0
  }

  /** The number of i below m with i % n == j. */
  function Hits(m: nat, n: nat, j: int): nat
    requires n > 0
  {
    if m == 0 then 0 else Hits(m - 1, n, j) + if (m - 1) % n == j then 1 else 0
  }

  lemma {:induction false} HitsAreEven(m: nat, n: nat, j: nat)
    requires j < n
    ensures Hits(m, n, j) == m / n + if j < m % n then 1 else 0
  {
    if m > 0 {
      HitsAreEven(m - 1, n, j);
      NextRemainder(m - 1, n);
      Division(m - 1, n);
    }
  }

  /** The tokens of range i: between two multiples of the width. */
  lemma TokenInRange(total: nat, i: nat, d: nat)
    requires i < total < TWO_32 && 0 < d <= Incr(total)
    ensures Times(i, Incr(total)) >= 0 && RangeOf(total, Times(i, Incr(total)) + d) == Some(i)
  {
    hide Times;
    WidthsAddUp(total);
    hide Incr;
    var incr := Incr(total);
    Successor(i, incr);
    Monotone(0, i, incr);
    Monotone(i + 1, total, incr);
    Successor(0, incr);
    QuotientIs(Times(i, incr) + d - 1, incr, i, d - 1);
  }

  /** Inside one range every token has the same server. */
  lemma {:induction false} RangeIsOwned(n: nat, total: nat, i: nat, d: nat, server: Option<int>)
    requires n > 0 && i < total < TWO_32 && d <= Incr(total)
    ensures Times(i, Incr(total)) >= 0
    ensures Owned(n, total, server, Times(i, Incr(total)) + 1 + d)
         == Owned(n, total, server, Times(i, Incr(total)) + 1) + if server == Some(i % n) then d else 0
  {
    hide Incr, RangeOf;
    Monotone(0, i, Incr(total));
    Successor(0, Incr(total));
    hide Times;
    if d > 0 {
      RangeIsOwned(n, total, i, d - 1, server);
      TokenInRange(total, i, d);
    }
  }

  lemma {:induction false} RangesAreOwned(n: nat, total: nat, b: nat, server: Option<int>)
    requires n > 0 && 0 < total < TWO_32 && b <= total
    ensures Times(b, Incr(total)) >= 0
    ensures Owned(n, total, server, Times(b, Incr(total)) + 1)
         == (if server == Some(0) then 1 else 0)
          + if server.Some? then Times(Hits(b, n, server.value), Incr(total)) else 0
  {
    hide Times, Incr;
    var incr := Incr(total);
    Successor(0, incr);
    if b == 0 {
      FirstToken(n, total, server);
    } else {
      RangesAreOwned(n, total, b - 1, server);
      RangeIsOwned(n, total, b - 1, incr, server);
      Successor(b - 1, incr);
      if server.Some? {
        Successor(Hits(b - 1, n, server.value), incr);
      }
    }
  }

  lemma {:induction false} FirstToken(n: nat, total: nat, server: Option<int>)
    requires n > 0 && 0 < total < TWO_32
    ensures Owned(n, total, server, 1) == if server == Some(0) then 1 else 0
  {
    assert Route(n, total, 0) == Some(0);
    assert Owned(n, total, server, 0) == 0;
  }

  lemma {:induction false} BeyondIsUnrouted(n: nat, total: nat, extra: nat, server: Option<int>)
    requires n > 0 && 0 < total < TWO_32
    ensures Times(total, Incr(total)) >= 0
    ensures var top := Times(total, Incr(total)) + 1;
      Owned(n, total, server, top + extra) == Owned(n, total, server, top) + if server.None? then extra else 0
  {
    Monotone(0, total, Incr(total));
    Successor(0, Incr(total));
    hide Times, Incr;
    if extra > 0 {
      BeyondIsUnrouted(n, total, extra - 1, server);
      assert Route(n, total, Times(total, Incr(total)) + extra) == None;
    }
  }

  /** Of all 2^32 tokens each of n servers with k ranges owns k whole ranges, the first server one
      token more, and as many as the division leaves over go nowhere. */
  lemma {:induction false} SharesAreExact(n: nat, k: nat, j: nat)
    requires n > 0 && 0 < n * k < TWO_32 && j < n
    ensures Owned(n, n * k, Some(j), 0x1_0000_0000) == k * (0xFFFF_FFFF / (n * k)) + if j == 0 then 1 else 0
    ensures Owned(n, n * k, None, 0x1_0000_0000) == 0xFFFF_FFFF % (n * k)
  {
    var total := n * k;
    assert total == Times(k, n);
    assert k * Incr(total) == Times(k, Incr(total));
    assert Incr(total) == 0xFFFF_FFFF / (n * k);
    hide Times;
    WidthsAddUp(total);
    RangesAreOwned(n, total, total, Some(j));
    RangesAreOwned(n, total, total, None);
    BeyondIsUnrouted(n, total, MAX % total, Some(j));
    BeyondIsUnrouted(n, total, MAX % total, None);
    HitsAreEven(total, n, j);
    QuotientIs(total, n, k, 0);
  }

  /** The tokens that go nowhere are the greatest ones. */
  lemma UnroutedAreTheTop(n: nat, k: nat, token: nat)
    requires n > 0 && 0 < n * k < TWO_32 && token <= MAX
    ensures Route(n, n * k, token).None? <==> token > 0xFFFF_FFFF - 0xFFFF_FFFF % (n * k)
  {
    WidthsAddUp(n * k);
  }
}
