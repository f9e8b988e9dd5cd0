/** Concatenation of message sequences. */
module Streams {

  function Flatten(parts: seq<string>): string {
    if parts == [] then "" else Flatten(parts[..|parts| - 1]) + parts[|parts| - 1]
  }

  lemma {:induction false} FlattenSnoc(parts: seq<string>, last: string)
    ensures Flatten(parts + [last]) == Flatten(parts) + last
  {
    assert (parts + [last])[..|parts|] == parts;
  }

  lemma {:induction false} FlattenAppend(a: seq<string>, b: seq<string>)
    ensures Flatten(a + b) == Flatten(a) + Flatten(b)
  {
    if b == [] {
      assert a + b == a;
    } else {
      var front, last := b[..|b| - 1], b[|b| - 1];
      assert b == front + [last];
      assert a + b == (a + front) + [last];
      FlattenAppend(a, front);
      FlattenSnoc(a + front, last);
      FlattenSnoc(front, last);
    }
  }

  /** Appending to the last part appends to the whole. */
  lemma FlattenGrowLast(parts: seq<string>, more: string)
    requires parts != []
    ensures Flatten(parts[|parts| - 1 := parts[|parts| - 1] + more]) == Flatten(parts) + more
  {
    var k := |parts| - 1;
    assert parts[k := parts[k] + more][..k] == parts[..k];
  }

  lemma Regroup(a: string, b: string, c: string)
    ensures a + (b + c) == a + b + c
  {
  }
}
