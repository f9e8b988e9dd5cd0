/** MurmurHash3_x64_128: two 64-bit lanes over 16-byte blocks, indexed from the front. */
module MurmurX64_128 {
  import opened BlockFold
  import opened MurmurBits

  function MulC1(k: bv64): bv64 { k * 0x87c37b91114253d5 }

  function DivC1(k: bv64): bv64 { k * 0xa98409e882ce4d7d }

  function MulC2(k: bv64): bv64 { k * 0x4cf5ad432745937f }

  function DivC2(k: bv64): bv64 { k * 0xa81e14edd9de2c7f }

  lemma MultipliersUndo(k: bv64)
    ensures DivC1(MulC1(k)) == k && DivC2(MulC2(k)) == k
  {
    assert DivC1(k * 0x87c37b91114253d5) == k;
    assert DivC2(k * 0x4cf5ad432745937f) == k;
  }

  function Mix1(k: bv64): bv64 { MulC2(Rotl64(MulC1(k), 31)) }

  function Unmix1(k: bv64): bv64 { DivC1(Rotl64(DivC2(k), 33)) }

  function Mix2(k: bv64): bv64 { MulC1(Rotl64(MulC2(k), 33)) }

  function Unmix2(k: bv64): bv64 { DivC2(Rotl64(DivC1(k), 31)) }

  lemma MixUndo(k: bv64)
    ensures Unmix1(Mix1(k)) == k && Unmix2(Mix2(k)) == k
  {
    hide Rotl64, MulC1, MulC2, DivC1, DivC2;
    MultipliersUndo(k);
    Rotl64Undo(MulC1(k));
    Rotl64Undo(MulC2(k));
    MultipliersUndo(Rotl64(MulC1(k), 31));
    MultipliersUndo(Rotl64(MulC2(k), 33));
  }

  lemma MixZero()
    ensures Mix1(0) == 0 && Mix2(0) == 0
  {
  }

  /** Two words: a block, or the two lanes of the state. */
  datatype Pair = Pair(w1: bv64, w2: bv64)

  function Absorb(s: Pair, k: Pair): Pair {
    Pair(Xor64(s.w1, Mix1(k.w1)), Xor64(s.w2, Mix2(k.w2)))
  }

  function AbsorbedState(m: Pair, k: Pair): Pair {
    Pair(Xor64(m.w1, Mix1(k.w1)), Xor64(m.w2, Mix2(k.w2)))
  }

  function AbsorbedBlock(m: Pair, s: Pair): Pair {
    Pair(Unmix1(Xor64(s.w1, m.w1)), Unmix2(Xor64(s.w2, m.w2)))
  }

  lemma AbsorbUndo(s: Pair, k: Pair)
    ensures AbsorbedState(Absorb(s, k), k) == s
    ensures AbsorbedBlock(Absorb(s, k), s) == k
  {
    hide Xor64, Mix1, Mix2, Unmix1, Unmix2;
    MixUndo(k.w1);
    MixUndo(k.w2);
    Xor64Undo(s.w1, Mix1(k.w1));
    Xor64Undo(s.w2, Mix2(k.w2));
  }

  // One lane of a block round: take in the mixed word, rotate, add the other lane.

  function Lane1(h: bv64, m: bv64, add: bv64): bv64 {
    Affine64(Add64(Rotl64(Xor64(h, m), 27), add), 0x52dce729)
  }

  function Unlane1(h: bv64, add: bv64): bv64 {
    Rotl64(Sub64(Unaffine64(h, 0x52dce729), add), 37)
  }

  function Lane2(h: bv64, m: bv64, add: bv64): bv64 {
    Affine64(Add64(Rotl64(Xor64(h, m), 31), add), 0x38495ab5)
  }

  function Unlane2(h: bv64, add: bv64): bv64 {
    Rotl64(Sub64(Unaffine64(h, 0x38495ab5), add), 33)
  }

  lemma LanesUndo(h: bv64, m: bv64, add: bv64)
    ensures Unlane1(Lane1(h, m, add), add) == Xor64(h, m)
    ensures Unlane2(Lane2(h, m, add), add) == Xor64(h, m)
  {
    hide Rotl64, Xor64, Add64, Sub64, Affine64, Unaffine64;
    Rotl64Undo(Xor64(h, m));
    Add64Undo(Rotl64(Xor64(h, m), 27), add);
    Affine64Undo(Add64(Rotl64(Xor64(h, m), 27), add), 0x52dce729);
    Add64Undo(Rotl64(Xor64(h, m), 31), add);
    Affine64Undo(Add64(Rotl64(Xor64(h, m), 31), add), 0x38495ab5);
  }

  /** One round of the block loop: the first lane takes in the old second one, the second
      lane the new first one. */
  function Step(s: Pair, k: Pair): Pair {
    var h1 := Lane1(s.w1, Mix1(k.w1), s.w2);
    var h2 := Lane2(s.w2, Mix2(k.w2), h1);
    Pair(h1, h2)
  }

  function StateBefore(r: Pair, k: Pair): Pair {
    var w2 := Xor64(Unlane2(r.w2, r.w1), Mix2(k.w2));
    var w1 := Xor64(Unlane1(r.w1, w2), Mix1(k.w1));
    Pair(w1, w2)
  }

  function BlockTaken(r: Pair, s: Pair): Pair {
    Pair(Unmix1(Xor64(s.w1, Unlane1(r.w1, s.w2))), Unmix2(Xor64(s.w2, Unlane2(r.w2, r.w1))))
  }

  lemma StepUndo(s: Pair, k: Pair)
    ensures StateBefore(Step(s, k), k) == s
    ensures BlockTaken(Step(s, k), s) == k
  {
    hide Xor64, Mix1, Mix2, Unmix1, Unmix2, Lane1, Lane2, Unlane1, Unlane2;
    var r := Step(s, k);
    LanesUndo(s.w1, Mix1(k.w1), s.w2);
    LanesUndo(s.w2, Mix2(k.w2), r.w1);
    AbsorbUndo(s, k);
  }

  /** One round loses neither the state nor the block. */
  lemma StepLosesNothing()
    ensures KeepsStatesApart(Step) && KeepsBlocksApart(Step)
  {
    hide StateBefore, BlockTaken;
    forall s, t, b | Step(s, b) == Step(t, b) ensures s == t {
      StepUndo(s, b);
      StepUndo(t, b);
    }
    forall s, b, c | Step(s, b) == Step(s, c) ensures b == c {
      StepUndo(s, b);
      StepUndo(s, c);
    }
  }

  function Spread(q: Pair): Pair {
    var h1 := Add64(q.w1, q.w2);
    Pair(h1, Add64(q.w2, h1))
  }

  function Unspread(r: Pair): Pair {
    var h2 := Sub64(r.w2, r.w1);
    Pair(Sub64(r.w1, h2), h2)
  }

  lemma SpreadUndo(q: Pair)
    ensures Unspread(Spread(q)) == q
  {
    hide Add64, Sub64;
    Add64Undo(q.w1, q.w2);
    Add64Undo(q.w2, Spread(q).w1);
  }

  function Fmix(q: Pair): Pair {
    Pair(Fmix64(q.w1), Fmix64(q.w2))
  }

  function Unfmix(q: Pair): Pair {
    Pair(Unfmix64(q.w1), Unfmix64(q.w2))
  }

  function AddLength(q: Pair, l: bv64): Pair {
    Pair(Xor64(q.w1, l), Xor64(q.w2, l))
  }

  function Finish(s: Pair, k: Pair, len: bv32): Pair {
    Spread(Fmix(Spread(AddLength(Absorb(s, k), Widened(len)))))
  }

  function Unfinish(r: Pair, len: bv32): Pair {
    AddLength(Unspread(Unfmix(Unspread(r))), Widened(len))
  }

  lemma FinishUndo(s: Pair, k: Pair, len: bv32)
    ensures Unfinish(Finish(s, k, len), len) == Absorb(s, k)
  {
    hide Xor64, Fmix64, Unfmix64, Spread, Unspread, Absorb, Widened;
    var m := Absorb(s, k);
    var l := Widened(len);
    var q := Spread(AddLength(m, l));
    SpreadUndo(AddLength(m, l));
    SpreadUndo(Fmix(q));
    Fmix64Undo(q.w1);
    Fmix64Undo(q.w2);
    Xor64Undo(m.w1, l);
    Xor64Undo(m.w2, l);
  }

  lemma FinishLosesNothing(len: bv32)
    ensures KeepsStatesApart((s, k) => Finish(s, k, len))
    ensures KeepsBlocksApart((s, k) => Finish(s, k, len))
  {
    hide Finish, Unfinish, Absorb, AbsorbedState, AbsorbedBlock;
    forall s, t, k | Finish(s, k, len) == Finish(t, k, len) ensures s == t {
      FinishUndo(s, k, len);
      FinishUndo(t, k, len);
      AbsorbUndo(s, k);
      AbsorbUndo(t, k);
    }
    forall s, k, k' | Finish(s, k, len) == Finish(s, k', len) ensures k == k' {
      FinishUndo(s, k, len);
      FinishUndo(s, k', len);
      AbsorbUndo(s, k);
      AbsorbUndo(s, k');
    }
  }

  /** Two words from byte `at` on, padded with zeros past the end. */
  function PairAt(key: seq<bv8>, at: nat): Pair {
    Pair(Word64(key, at), Word64(key, at + 8))
  }

  function Blocks(key: seq<bv8>): (qs: seq<Pair>) {
    seq(|key| / 16, i requires 0 <= i => PairAt(key, 16 * i))
  }

  function TailBlock(key: seq<bv8>): Pair {
    PairAt(key, |key| / 16 * 16)
  }

  /** The seed is widened without sign. */
  function Seeded(seed: bv32): Pair {
    Pair(seed as bv64, seed as bv64)
  }

  function Hash(key: seq<bv8>, len: bv32, seed: bv32): Pair
    requires IsLength(len, key)
  {
    Finish(Fold(Step, Seeded(seed), Blocks(key)), TailBlock(key), len)
  }

  lemma BlocksApart(a: seq<bv8>, b: seq<bv8>, at: nat)
    requires |a| == |b| && a != b
    requires forall j :: 0 <= j < |a| && !(at <= j < at + 16) ==> a[j] == b[j]
    ensures PairAt(a, at) != PairAt(b, at)
  {
    hide Word64;
    var j :| 0 <= j < |a| && a[j] != b[j];
    if PairAt(a, at) == PairAt(b, at) {
      Word64TellsBytes(a, b, at + (j - at) / 8 * 8, j);
    }
  }

  lemma SameOutside(a: seq<bv8>, b: seq<bv8>, i: nat, n: nat)
    requires DifferOnlyInBlock(a, b, i, 16)
    requires n != i
    ensures PairAt(a, 16 * n) == PairAt(b, 16 * n)
  {
    hide Assemble32, Assemble64;
    forall j: nat | 16 * n <= j < 16 * n + 16 ensures ByteAt(a, j) == ByteAt(b, j) {
      assert !(16 * i <= j < 16 * i + 16);
    }
  }

  /** Keys of one length that differ inside a single 16-byte block never collide. */
  lemma OneBlockNeverCollides(a: seq<bv8>, b: seq<bv8>, len: bv32, seed: bv32, i: nat)
    requires IsLength(len, a) && DifferOnlyInBlock(a, b, i, 16)
    ensures Hash(a, len, seed) != Hash(b, len, seed)
  {
    hide IsLength, Step, Finish, PairAt;
    SameLength(len, a, b);
    BlocksApart(a, b, 16 * i);
    forall j | 0 <= j <= |a| / 16 && j != i ensures PairAt(a, 16 * j) == PairAt(b, 16 * j) {
      SameOutside(a, b, i, j);
    }
    assert |a| / 16 * 16 == 16 * (|a| / 16);
    StepLosesNothing();
    FinishLosesNothing(len);
    OneBlockApart(Step, (h, k) => Finish(h, k, len), Seeded(seed),
                  Blocks(a), TailBlock(a), Blocks(b), TailBlock(b), i);
  }

  /** For a fixed key, different seeds give different hashes. */
  lemma SeedsNeverCollide(key: seq<bv8>, len: bv32, s: bv32, t: bv32)
    requires IsLength(len, key) && s != t
    ensures Hash(key, len, s) != Hash(key, len, t)
  {
    hide IsLength, Step, Finish, PairAt;
    assert Seeded(s) != Seeded(t);
    StepLosesNothing();
    FoldKeepsStatesApart(Step, Seeded(s), Seeded(t), Blocks(key));
    FinishLosesNothing(len);
    var finish := (h, k) => Finish(h, k, len);
    assert finish(Fold(Step, Seeded(s), Blocks(key)), TailBlock(key))
        != finish(Fold(Step, Seeded(t), Blocks(key)), TailBlock(key));
  }

  lemma FinishTellsLength(s: Pair, k: Pair, len: bv32)
    ensures Xor64(Absorb(s, k).w1, Unspread(Unfmix(Unspread(Finish(s, k, len)))).w1) == Widened(len)
  {
    hide Xor64, Fmix64, Unfmix64, Spread, Unspread, Absorb, Widened;
    var m := Absorb(s, k);
    var q := Spread(AddLength(m, Widened(len)));
    SpreadUndo(AddLength(m, Widened(len)));
    SpreadUndo(Fmix(q));
    Fmix64Undo(q.w1);
    Fmix64Undo(q.w2);
    Xor64Undo(m.w1, Widened(len));
  }

  /** Keys whose padded blocks are the same, and only the lengths differ, never collide either. */
  lemma LengthsNeverCollide(a: seq<bv8>, lenA: bv32, b: seq<bv8>, lenB: bv32, seed: bv32)
    requires IsLength(lenA, a) && IsLength(lenB, b) && |a| != |b|
    requires Blocks(a) == Blocks(b) && TailBlock(a) == TailBlock(b)
    ensures Hash(a, lenA, seed) != Hash(b, lenB, seed)
  {
    hide IsLength, Step, Finish, Unspread, Unfmix, AddLength, Absorb, Widened;
    LengthsApart(lenA, a, lenB, b);
    var s := Fold(Step, Seeded(seed), Blocks(a));
    FinishTellsLength(s, TailBlock(a), lenA);
    FinishTellsLength(s, TailBlock(a), lenB);
    WidenedApart(lenA, lenB);
  }

  /** The body of the block loop. */
  method Round(g1: bv64, g2: bv64, b1: bv64, b2: bv64) returns (h1: bv64, h2: bv64)
    ensures Pair(h1, h2) == Step(Pair(g1, g2), Pair(b1, b2))
  {
    hide Rotl64, Xor64, Add64, MulC1, MulC2, Affine64;
    h1, h2 := g1, g2;
    var k1, k2 := b1, b2;

    k1 := MulC1(k1);
    k1 := Rotl64(k1, 31);
    k1 := MulC2(k1);
    h1 := Xor64(h1, k1);

    h1 := Rotl64(h1, 27);
    h1 := Add64(h1, h2);
    h1 := Affine64(h1, 0x52dce729);

    k2 := MulC2(k2);
    k2 := Rotl64(k2, 33);
    k2 := MulC1(k2);
    h2 := Xor64(h2, k2);

    h2 := Rotl64(h2, 31);
    h2 := Add64(h2, h1);
    h2 := Affine64(h2, 0x38495ab5);
  }

  /** The word i words into the key. */
  function GetBlock64(key: seq<bv8>, i: nat): bv64
    requires 8 * i + 8 <= |key|
  {
    Word64(key, 8 * i)
  }

  /** The program itself: a forward loop over whole blocks, then the fall-through switch. */
  method MurmurHash3_x64_128(key: seq<bv8>, len: bv32, seed: bv32) returns (out: Pair)
    requires IsLength(len, key)
    ensures out == Hash(key, len, seed)
  {
    hide IsLength, Step, Absorb, Spread, Fmix, AddLength, Word64;
    var nblocks := |key| / 16;
    var h1, h2 := seed as bv64, seed as bv64;

    for i := 0 to nblocks
      invariant Pair(h1, h2) == Fold(Step, Seeded(seed), Blocks(key)[..i])
    {
      var k1 := GetBlock64(key, i * 2 + 0);
      var k2 := GetBlock64(key, i * 2 + 1);
      ghost var k := Pair(k1, k2);
      FoldSnoc(Step, Seeded(seed), Blocks(key)[..i], k);
      assert Blocks(key)[..i + 1] == Blocks(key)[..i] + [k];
      h1, h2 := Round(h1, h2, k1, k2);
    }
    assert Blocks(key)[..nblocks] == Blocks(key);

    h1, h2 := MixTail(h1, h2, key[nblocks * 16..]);
    SuffixWord64(key, nblocks * 16, 0);
    SuffixWord64(key, nblocks * 16, 8);
    out := Finalize(h1, h2, len);
  }

  method Finalize(g1: bv64, g2: bv64, len: bv32) returns (out: Pair)
    ensures out == Spread(Fmix(Spread(AddLength(Pair(g1, g2), Widened(len)))))
  {
    hide Xor64, Add64, Fmix64, Widened;
    var h1, h2 := g1, g2;
    h1 := Xor64(h1, Widened(len));
    h2 := Xor64(h2, Widened(len));

    h1 := Add64(h1, h2);
    h2 := Add64(h2, h1);

    h1 := Fmix64(h1);
    h2 := Fmix64(h2);

    h1 := Add64(h1, h2);
    h2 := Add64(h2, h1);

    out := Pair(h1, h2);
  }

  /** The switch on the last zero to fifteen bytes: every case falls through to the next, and
      a lane is mixed in after its lowest byte. */
  method MixTail(g1: bv64, g2: bv64, tail: seq<bv8>) returns (h1: bv64, h2: bv64)
    requires |tail| < 16
    ensures Pair(h1, h2) == Absorb(Pair(g1, g2), PairAt(tail, 0))
  {
    hide Xor64, Word64, Mix1, Mix2;
    h2 := MixTail2(g2, tail);
    h1 := MixTail1(g1, tail);
  }

  // case 15 down to case 9
  method MixTail2(g: bv64, tail: seq<bv8>) returns (h: bv64)
    requires |tail| < 16
    ensures h == Xor64(g, Mix2(Word64(tail, 8)))
  {
    hide Rotl64, Xor64, MulC1, MulC2, Word64, Case64;
    h := g;
    var k: bv64 := 0;
    k := Case64(k, tail, 15, 56); // no such label: there is no byte 15
    k := Case64(k, tail, 14, 48);
    k := Case64(k, tail, 13, 40);
    k := Case64(k, tail, 12, 32);
    k := Case64(k, tail, 11, 24);
    k := Case64(k, tail, 10, 16);
    k := Case64(k, tail, 9, 8);
    k := Case64(k, tail, 8, 0);
    CasesAreWord64(tail, 8);
    if |tail| > 8 {
      k := MulC2(k);
      k := Rotl64(k, 33);
      k := MulC1(k);
      h := Xor64(h, k);
    } else {
      NoWord64(tail, 8);
      ZeroWord(g);
    }
  }

  // case 8 down to case 1
  method MixTail1(g: bv64, tail: seq<bv8>) returns (h: bv64)
    requires |tail| < 16
    ensures h == Xor64(g, Mix1(Word64(tail, 0)))
  {
    hide Rotl64, Xor64, MulC1, MulC2, Word64, Case64;
    h := g;
    var k: bv64 := 0;
    k := Case64(k, tail, 7, 56);
    k := Case64(k, tail, 6, 48);
    k := Case64(k, tail, 5, 40);
    k := Case64(k, tail, 4, 32);
    k := Case64(k, tail, 3, 24);
    k := Case64(k, tail, 2, 16);
    k := Case64(k, tail, 1, 8);
    k := Case64(k, tail, 0, 0);
    CasesAreWord64(tail, 0);
    if |tail| > 0 {
      k := MulC1(k);
      k := Rotl64(k, 31);
      k := MulC2(k);
      h := Xor64(h, k);
    } else {
      NoWord64(tail, 0);
      ZeroWord(g);
    }
  }

  lemma ZeroWord(h: bv64)
    ensures Xor64(h, Mix1(0)) == h && Xor64(h, Mix2(0)) == h
  {
    MixZero();
    assert Xor64(h, 0) == h;
  }
}
