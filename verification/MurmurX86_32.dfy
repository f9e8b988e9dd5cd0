/** MurmurHash3_x86_32: the hash that read policies route keys with. */
module MurmurX86_32 {
  import opened BlockFold
  import opened MurmurBits

  function MulC1(k: bv32): bv32 { k * 0xcc9e2d51 }

  function DivC1(k: bv32): bv32 { k * 0xdee13bb1 }

  function MulC2(k: bv32): bv32 { k * 0x1b873593 }

  function DivC2(k: bv32): bv32 { k * 0x56ed309b }

  function Mix(k: bv32): bv32 { MulC2(Rotl32(MulC1(k), 15)) }

  function Unmix(k: bv32): bv32 { DivC1(Rotl32(DivC2(k), 17)) }

  lemma MultipliersUndo(k: bv32)
    ensures DivC1(MulC1(k)) == k && DivC2(MulC2(k)) == k
  {
    assert DivC1(k * 0xcc9e2d51) == k;
    assert DivC2(k * 0x1b873593) == k;
  }

  lemma MixUndo(k: bv32)
    ensures Unmix(Mix(k)) == k
  {
    MultipliersUndo(k);
    Rotl32Undo(MulC1(k));
    MultipliersUndo(Rotl32(MulC1(k), 15));
  }

  function Step(h: bv32, k: bv32): bv32 {
    Affine32(Rotl32(Xor32(h, Mix(k)), 13), 0xe6546b64)
  }

  function Unstep(h: bv32): bv32 {
    Rotl32(Unaffine32(h, 0xe6546b64), 19)
  }

  lemma StepUndo(h: bv32, k: bv32)
    ensures Unstep(Step(h, k)) == Xor32(h, Mix(k))
    ensures Xor32(Unstep(Step(h, k)), Mix(k)) == h
    ensures Unmix(Xor32(h, Unstep(Step(h, k)))) == k
  {
    Affine32Undo(Rotl32(Xor32(h, Mix(k)), 13), 0xe6546b64);
    Rotl32Undo(Xor32(h, Mix(k)));
    Xor32Undo(h, Mix(k));
    MixUndo(k);
  }

  /** One round of the block loop loses neither the state nor the block. */
  lemma StepLosesNothing()
    ensures KeepsStatesApart(Step) && KeepsBlocksApart(Step)
  {
    forall s, t, b | Step(s, b) == Step(t, b) ensures s == t {
      StepUndo(s, b);
      StepUndo(t, b);
    }
    forall s, b, c | Step(s, b) == Step(s, c) ensures b == c {
      StepUndo(s, b);
      StepUndo(s, c);
    }
  }

  /** The key's whole words, left to right. */
  function Words(key: seq<bv8>): (ws: seq<bv32>) {
    seq(|key| / 4, i requires 0 <= i => Word32(key, 4 * i))
  }

  /** The zero to three bytes after the last whole word, padded with zeros. */
  function TailWord(key: seq<bv8>): bv32 {
    Word32(key, |key| / 4 * 4)
  }

  function Finish(h: bv32, k: bv32, len: bv32): bv32 {
    Fmix32(Xor32(Xor32(h, Mix(k)), len))
  }

  /** The hash as a left-to-right fold over the key's words, its tail and its length. */
  function Hash(key: seq<bv8>, len: bv32, seed: bv32): bv32
    requires IsLength(len, key)
  {
    Finish(Fold(Step, seed, Words(key)), TailWord(key), len)
  }

  lemma FinishUndo(h: bv32, k: bv32, len: bv32)
    ensures var m := Xor32(Unfmix32(Finish(h, k, len)), len);
            Xor32(m, Mix(k)) == h && Unmix(Xor32(h, m)) == k
    ensures Xor32(Xor32(h, Mix(k)), Unfmix32(Finish(h, k, len))) == len
  {
    Fmix32Undo(Xor32(Xor32(h, Mix(k)), len));
    Xor32Undo(Xor32(h, Mix(k)), len);
    Xor32Undo(h, Mix(k));
    MixUndo(k);
  }

  /** The tail and the finaliser lose neither the state nor the tail word. */
  lemma FinishLosesNothing(len: bv32)
    ensures KeepsStatesApart((h, k) => Finish(h, k, len))
    ensures KeepsBlocksApart((h, k) => Finish(h, k, len))
  {
    forall h, h', k | Finish(h, k, len) == Finish(h', k, len) ensures h == h' {
      FinishUndo(h, k, len);
      FinishUndo(h', k, len);
    }
    forall h, k, k' | Finish(h, k, len) == Finish(h, k', len) ensures k == k' {
      FinishUndo(h, k, len);
      FinishUndo(h, k', len);
    }
  }

  lemma MixZero()
    ensures Mix(0) == 0
  {
    assert MulC1(0) == 0;
    assert Rotl32(0, 15) == 0;
    assert MulC2(0) == 0;
  }

  lemma SameOutside(a: seq<bv8>, b: seq<bv8>, i: nat, n: nat)
    requires DifferOnlyInBlock(a, b, i, 4) && n != i
    ensures Word32(a, 4 * n) == Word32(b, 4 * n)
  {
    hide Assemble32;
    forall j: nat | 4 * n <= j < 4 * n + 4 ensures ByteAt(a, j) == ByteAt(b, j) {
      assert !(4 * i <= j < 4 * i + 4);
    }
  }

  /** Keys of one length that differ inside a single 4-byte block never collide. */
  lemma OneBlockNeverCollides(a: seq<bv8>, b: seq<bv8>, len: bv32, seed: bv32, i: nat)
    requires IsLength(len, a) && DifferOnlyInBlock(a, b, i, 4)
    ensures Hash(a, len, seed) != Hash(b, len, seed)
  {
    hide IsLength, Step, Finish, Word32;
    SameLength(len, a, b);
    WordsApart(a, b, 4 * i);
    forall j | 0 <= j <= |a| / 4 && j != i ensures Word32(a, 4 * j) == Word32(b, 4 * j) {
      SameOutside(a, b, i, j);
    }
    assert |a| / 4 * 4 == 4 * (|a| / 4);
    StepLosesNothing();
    FinishLosesNothing(len);
    OneBlockApart(Step, (h, k) => Finish(h, k, len), seed, Words(a), TailWord(a), Words(b), TailWord(b), i);
  }

  /** For a fixed key, different seeds give different hashes. */
  lemma SeedsNeverCollide(key: seq<bv8>, len: bv32, s: bv32, t: bv32)
    requires IsLength(len, key) && s != t
    ensures Hash(key, len, s) != Hash(key, len, t)
  {
    hide IsLength;
    StepLosesNothing();
    FoldKeepsStatesApart(Step, s, t, Words(key));
    FinishLosesNothing(len);
    var finish := (h, k) => Finish(h, k, len);
    assert finish(Fold(Step, s, Words(key)), TailWord(key)) != finish(Fold(Step, t, Words(key)), TailWord(key));
  }

  /** Keys whose padded words are the same, and only the lengths differ, never collide either. */
  lemma LengthsNeverCollide(a: seq<bv8>, lenA: bv32, b: seq<bv8>, lenB: bv32, seed: bv32)
    requires IsLength(lenA, a) && IsLength(lenB, b) && |a| != |b|
    requires Words(a) == Words(b) && TailWord(a) == TailWord(b)
    ensures Hash(a, lenA, seed) != Hash(b, lenB, seed)
  {
    hide IsLength, Step, Finish;
    LengthsApart(lenA, a, lenB, b);
    var h := Fold(Step, seed, Words(a));
    FinishUndo(h, TailWord(a), lenA);
    FinishUndo(h, TailWord(a), lenB);
  }

  /** The program itself: word indices run from -nblocks up to zero, and the tail is a
      fall-through switch. `visited` records the byte offsets read. */
  method MurmurHash3_x86_32(key: seq<bv8>, len: bv32, seed: bv32) returns (out: bv32, ghost visited: seq<int>)
    requires IsLength(len, key)
    ensures out == Hash(key, len, seed)
    ensures |visited| == |key| && forall j :: 0 <= j < |key| ==> j in visited
  {
    hide IsLength, Rotl32, Xor32, MulC1, MulC2, Affine32, Fmix32, Word32;
    var nblocks := |key| / 4;
    var h1 := seed;
    visited := [];

    var i := -nblocks;
    while i != 0
      invariant -nblocks <= i <= 0
      invariant h1 == Fold(Step, seed, Words(key)[..nblocks + i])
      invariant |visited| == 4 * (nblocks + i)
      invariant forall j :: 0 <= j < |visited| ==> visited[j] == j
    {
      var at := nblocks * 4 + 4 * i;
      var k1 := GetBlock32(key, nblocks * 4, i);
      visited := visited + [at, at + 1, at + 2, at + 3];
      FoldSnoc(Step, seed, Words(key)[..nblocks + i], k1);
      assert Words(key)[..nblocks + i + 1] == Words(key)[..nblocks + i] + [k1];

      k1 := MulC1(k1);
      k1 := Rotl32(k1, 15);
      k1 := MulC2(k1);

      h1 := Xor32(h1, k1);
      h1 := Rotl32(h1, 13);
      h1 := Affine32(h1, 0xe6546b64);
      i := i + 1;
    }
    assert Words(key)[..nblocks] == Words(key);
    ghost var whole := visited;
    ghost var tailVisited;
    h1, tailVisited := MixTail(h1, key[nblocks * 4..], nblocks * 4);
    visited := visited + tailVisited;

    h1 := Xor32(h1, len);
    out := Fmix32(h1);
    SuffixWord32(key, nblocks * 4, 0);
    AllVisited(whole, visited, |key|);
  }

  /** The switch on the last zero to three bytes, each case falling through to the next. */
  method MixTail(h: bv32, tail: seq<bv8>, ghost at: int) returns (h1: bv32, ghost visited: seq<int>)
    requires |tail| < 4
    ensures h1 == Xor32(h, Mix(Word32(tail, 0)))
    ensures visited == TailVisited(at, |tail|)
  {
    hide Rotl32, Xor32, MulC1, MulC2, Word32;
    h1 := h;
    visited := [];
    var k1: bv32 := 0;
    if |tail| >= 3 {
      k1 := Xor32(k1, tail[2] as bv32 << 16);
      visited := visited + [at + 2];
    }
    if |tail| >= 2 {
      k1 := Xor32(k1, tail[1] as bv32 << 8);
      visited := visited + [at + 1];
    }
    if |tail| >= 1 {
      k1 := Xor32(k1, tail[0] as bv32);
      visited := visited + [at];
      LadderIsWord32(tail, 0);
      k1 := MulC1(k1);
      k1 := Rotl32(k1, 15);
      k1 := MulC2(k1);
      h1 := Xor32(h1, k1);
    } else {
      ZeroTail(h);
    }
  }

  lemma ZeroTail(h: bv32)
    ensures Xor32(h, Mix(Word32([], 0))) == h
  {
    assert Assemble32(0, 0, 0, 0) == 0;
    MixZero();
    assert Xor32(h, 0) == h;
  }

  /** The tail offsets in the order the switch reads them. */
  function TailVisited(at: int, n: nat): seq<int> {
    seq(n, j => at + n - 1 - j)
  }

  lemma AllVisited(whole: seq<int>, visited: seq<int>, len: nat)
    requires |whole| == len / 4 * 4 && forall j :: 0 <= j < |whole| ==> whole[j] == j
    requires visited == whole + TailVisited(|whole|, len % 4)
    ensures |visited| == len && forall j :: 0 <= j < len ==> j in visited
  {
    forall j | 0 <= j < len ensures j in visited {
      if j < |whole| {
        assert visited[j] == j;
      } else {
        assert visited[|whole| + len - 1 - j] == j;
      }
    }
  }
}
