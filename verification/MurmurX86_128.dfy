/** MurmurHash3_x86_128: four 32-bit lanes over 16-byte blocks. */
module MurmurX86_128 {
  import opened BlockFold
  import opened MurmurBits

  function MulC1(k: bv32): bv32 { k * 0x239b961b }

  function DivC1(k: bv32): bv32 { k * 0x89c95413 }

  function MulC2(k: bv32): bv32 { k * 0xab0e9789 }

  function DivC2(k: bv32): bv32 { k * 0xdf130eb9 }

  function MulC3(k: bv32): bv32 { k * 0x38b34ae5 }

  function DivC3(k: bv32): bv32 { k * 0x747862ed }

  function MulC4(k: bv32): bv32 { k * 0xa1e38b93 }

  function DivC4(k: bv32): bv32 { k * 0x58d64a9b }

  lemma MultipliersUndo(k: bv32)
    ensures DivC1(MulC1(k)) == k && DivC2(MulC2(k)) == k
    ensures DivC3(MulC3(k)) == k && DivC4(MulC4(k)) == k
  {
    assert DivC1(k * 0x239b961b) == k;
    assert DivC2(k * 0xab0e9789) == k;
    assert DivC3(k * 0x38b34ae5) == k;
    assert DivC4(k * 0xa1e38b93) == k;
  }

  function Mix1(k: bv32): bv32 { MulC2(Rotl32(MulC1(k), 15)) }

  function Unmix1(k: bv32): bv32 { DivC1(Rotl32(DivC2(k), 17)) }

  function Mix2(k: bv32): bv32 { MulC3(Rotl32(MulC2(k), 16)) }

  function Unmix2(k: bv32): bv32 { DivC2(Rotl32(DivC3(k), 16)) }

  function Mix3(k: bv32): bv32 { MulC4(Rotl32(MulC3(k), 17)) }

  function Unmix3(k: bv32): bv32 { DivC3(Rotl32(DivC4(k), 15)) }

  function Mix4(k: bv32): bv32 { MulC1(Rotl32(MulC4(k), 18)) }

  function Unmix4(k: bv32): bv32 { DivC4(Rotl32(DivC1(k), 14)) }

  lemma MixUndo(k: bv32)
    ensures Unmix1(Mix1(k)) == k && Unmix2(Mix2(k)) == k
    ensures Unmix3(Mix3(k)) == k && Unmix4(Mix4(k)) == k
  {
    hide Rotl32, MulC1, MulC2, MulC3, MulC4, DivC1, DivC2, DivC3, DivC4;
    MultipliersUndo(k);
    Rotl32Undo(MulC1(k));
    Rotl32Undo(MulC2(k));
    Rotl32Undo(MulC3(k));
    Rotl32Undo(MulC4(k));
    MultipliersUndo(Rotl32(MulC1(k), 15));
    MultipliersUndo(Rotl32(MulC2(k), 16));
    MultipliersUndo(Rotl32(MulC3(k), 17));
    MultipliersUndo(Rotl32(MulC4(k), 18));
  }

  lemma MixZero()
    ensures Mix1(0) == 0 && Mix2(0) == 0 && Mix3(0) == 0 && Mix4(0) == 0
  {
  }

  /** Four words: a block, or the four lanes of the state. */
  datatype Quad = Quad(w1: bv32, w2: bv32, w3: bv32, w4: bv32)

  /** A block's effect on the lanes, before the lanes are stirred. */
  function Absorb(s: Quad, k: Quad): Quad {
    Quad(Xor32(s.w1, Mix1(k.w1)), Xor32(s.w2, Mix2(k.w2)), Xor32(s.w3, Mix3(k.w3)), Xor32(s.w4, Mix4(k.w4)))
  }

  function AbsorbedState(m: Quad, k: Quad): Quad {
    Quad(Xor32(m.w1, Mix1(k.w1)), Xor32(m.w2, Mix2(k.w2)), Xor32(m.w3, Mix3(k.w3)), Xor32(m.w4, Mix4(k.w4)))
  }

  function AbsorbedBlock(m: Quad, s: Quad): Quad {
    Quad(Unmix1(Xor32(s.w1, m.w1)), Unmix2(Xor32(s.w2, m.w2)), Unmix3(Xor32(s.w3, m.w3)), Unmix4(Xor32(s.w4, m.w4)))
  }

  lemma AbsorbUndo(s: Quad, k: Quad)
    ensures AbsorbedState(Absorb(s, k), k) == s
    ensures AbsorbedBlock(Absorb(s, k), s) == k
  {
    hide Xor32, Mix1, Mix2, Mix3, Mix4, Unmix1, Unmix2, Unmix3, Unmix4;
    MixUndo(k.w1);
    MixUndo(k.w2);
    MixUndo(k.w3);
    MixUndo(k.w4);
    Xor32Undo(s.w1, Mix1(k.w1));
    Xor32Undo(s.w2, Mix2(k.w2));
    Xor32Undo(s.w3, Mix3(k.w3));
    Xor32Undo(s.w4, Mix4(k.w4));
  }

  // One lane of a block round: take in the mixed word, rotate, add a neighbour.

  function Lane1(h: bv32, m: bv32, add: bv32): bv32 {
    Affine32(Add32(Rotl32(Xor32(h, m), 19), add), 0x561ccd1b)
  }

  function Unlane1(h: bv32, add: bv32): bv32 {
    Rotl32(Sub32(Unaffine32(h, 0x561ccd1b), add), 13)
  }

  function Lane2(h: bv32, m: bv32, add: bv32): bv32 {
    Affine32(Add32(Rotl32(Xor32(h, m), 17), add), 0x0bcaa747)
  }

  function Unlane2(h: bv32, add: bv32): bv32 {
    Rotl32(Sub32(Unaffine32(h, 0x0bcaa747), add), 15)
  }

  function Lane3(h: bv32, m: bv32, add: bv32): bv32 {
    Affine32(Add32(Rotl32(Xor32(h, m), 15), add), 0x96cd1c35)
  }

  function Unlane3(h: bv32, add: bv32): bv32 {
    Rotl32(Sub32(Unaffine32(h, 0x96cd1c35), add), 17)
  }

  function Lane4(h: bv32, m: bv32, add: bv32): bv32 {
    Affine32(Add32(Rotl32(Xor32(h, m), 13), add), 0x32ac3b17)
  }

  function Unlane4(h: bv32, add: bv32): bv32 {
    Rotl32(Sub32(Unaffine32(h, 0x32ac3b17), add), 19)
  }

  lemma LanesUndo(h: bv32, m: bv32, add: bv32)
    ensures Unlane1(Lane1(h, m, add), add) == Xor32(h, m)
    ensures Unlane2(Lane2(h, m, add), add) == Xor32(h, m)
    ensures Unlane3(Lane3(h, m, add), add) == Xor32(h, m)
    ensures Unlane4(Lane4(h, m, add), add) == Xor32(h, m)
  {
    hide Rotl32, Xor32, Add32, Sub32, Affine32, Unaffine32;
    Rotl32Undo(Xor32(h, m));
    Add32Undo(Rotl32(Xor32(h, m), 19), add);
    Affine32Undo(Add32(Rotl32(Xor32(h, m), 19), add), 0x561ccd1b);
    Add32Undo(Rotl32(Xor32(h, m), 17), add);
    Affine32Undo(Add32(Rotl32(Xor32(h, m), 17), add), 0x0bcaa747);
    Add32Undo(Rotl32(Xor32(h, m), 15), add);
    Affine32Undo(Add32(Rotl32(Xor32(h, m), 15), add), 0x96cd1c35);
    Add32Undo(Rotl32(Xor32(h, m), 13), add);
    Affine32Undo(Add32(Rotl32(Xor32(h, m), 13), add), 0x32ac3b17);
  }

  /** One round of the block loop. The first three lanes take in their right neighbour as it
      was before the round, the last one takes in the new first lane. */
  function Step(s: Quad, k: Quad): Quad {
    var h1 := Lane1(s.w1, Mix1(k.w1), s.w2);
    var h2 := Lane2(s.w2, Mix2(k.w2), s.w3);
    var h3 := Lane3(s.w3, Mix3(k.w3), s.w4);
    var h4 := Lane4(s.w4, Mix4(k.w4), h1);
    Quad(h1, h2, h3, h4)
  }

  /** The state a round started from, recovered from the right-most lane on. */
  function StateBefore(r: Quad, k: Quad): Quad {
    var w4 := Xor32(Unlane4(r.w4, r.w1), Mix4(k.w4));
    var w3 := Xor32(Unlane3(r.w3, w4), Mix3(k.w3));
    var w2 := Xor32(Unlane2(r.w2, w3), Mix2(k.w2));
    var w1 := Xor32(Unlane1(r.w1, w2), Mix1(k.w1));
    Quad(w1, w2, w3, w4)
  }

  /** The block a round took in, recovered from the state it started from. */
  function BlockTaken(r: Quad, s: Quad): Quad {
    Quad(Unmix1(Xor32(s.w1, Unlane1(r.w1, s.w2))), Unmix2(Xor32(s.w2, Unlane2(r.w2, s.w3))),
         Unmix3(Xor32(s.w3, Unlane3(r.w3, s.w4))), Unmix4(Xor32(s.w4, Unlane4(r.w4, r.w1))))
  }

  lemma StepUndo(s: Quad, k: Quad)
    ensures StateBefore(Step(s, k), k) == s
    ensures BlockTaken(Step(s, k), s) == k
  {
    hide Xor32, Mix1, Mix2, Mix3, Mix4, Unmix1, Unmix2, Unmix3, Unmix4,
         Lane1, Lane2, Lane3, Lane4, Unlane1, Unlane2, Unlane3, Unlane4;
    var r := Step(s, k);
    LanesUndo(s.w1, Mix1(k.w1), s.w2);
    LanesUndo(s.w2, Mix2(k.w2), s.w3);
    LanesUndo(s.w3, Mix3(k.w3), s.w4);
    LanesUndo(s.w4, Mix4(k.w4), r.w1);
    AbsorbUndo(s, k);
  }

  /** One round loses neither the state nor the block. */
  lemma StepLosesNothing()
    ensures KeepsStatesApart(Step) && KeepsBlocksApart(Step)
  {
    hide StateBefore, BlockTaken;
    forall s, t, b | Step(s, b) == Step(t, b) ensures s == t {
      StepUndo(s, b);
      StepUndo(t, b);
    }
    forall s, b, c | Step(s, b) == Step(s, c) ensures b == c {
      StepUndo(s, b);
      StepUndo(s, c);
    }
  }

  /** Every lane becomes a sum of all of them. */
  function Spread(q: Quad): Quad {
    var h1 := Add32(Add32(Add32(q.w1, q.w2), q.w3), q.w4);
    Quad(h1, Add32(q.w2, h1), Add32(q.w3, h1), Add32(q.w4, h1))
  }

  function Unspread(r: Quad): Quad {
    var h2 := Sub32(r.w2, r.w1);
    var h3 := Sub32(r.w3, r.w1);
    var h4 := Sub32(r.w4, r.w1);
    Quad(Sub32(Sub32(Sub32(r.w1, h4), h3), h2), h2, h3, h4)
  }

  lemma SpreadUndo(q: Quad)
    ensures Unspread(Spread(q)) == q
  {
    hide Add32, Sub32;
    var h1 := Spread(q).w1;
    Add32Undo(q.w2, h1);
    Add32Undo(q.w3, h1);
    Add32Undo(q.w4, h1);
    Add32Undo(Add32(Add32(q.w1, q.w2), q.w3), q.w4);
    Add32Undo(Add32(q.w1, q.w2), q.w3);
    Add32Undo(q.w1, q.w2);
  }

  function Fmix(q: Quad): Quad {
    Quad(Fmix32(q.w1), Fmix32(q.w2), Fmix32(q.w3), Fmix32(q.w4))
  }

  function Unfmix(q: Quad): Quad {
    Quad(Unfmix32(q.w1), Unfmix32(q.w2), Unfmix32(q.w3), Unfmix32(q.w4))
  }

  function AddLength(q: Quad, l: bv32): Quad {
    Quad(Xor32(q.w1, l), Xor32(q.w2, l), Xor32(q.w3, l), Xor32(q.w4, l))
  }

  function Finish(s: Quad, k: Quad, len: bv32): Quad {
    Spread(Fmix(Spread(AddLength(Absorb(s, k), len))))
  }

  function Unfinish(r: Quad, len: bv32): Quad {
    AddLength(Unspread(Unfmix(Unspread(r))), len)
  }

  lemma FinishUndo(s: Quad, k: Quad, len: bv32)
    ensures Unfinish(Finish(s, k, len), len) == Absorb(s, k)
  {
    hide Xor32, Fmix32, Unfmix32, Spread, Unspread, Absorb;
    var m := Absorb(s, k);
    var l := len;
    var q := Spread(AddLength(m, l));
    SpreadUndo(AddLength(m, l));
    SpreadUndo(Fmix(q));
    Fmix32Undo(q.w1);
    Fmix32Undo(q.w2);
    Fmix32Undo(q.w3);
    Fmix32Undo(q.w4);
    Xor32Undo(m.w1, l);
    Xor32Undo(m.w2, l);
    Xor32Undo(m.w3, l);
    Xor32Undo(m.w4, l);
  }

  lemma FinishLosesNothing(len: bv32)
    ensures KeepsStatesApart((s, k) => Finish(s, k, len))
    ensures KeepsBlocksApart((s, k) => Finish(s, k, len))
  {
    hide Finish, Unfinish, Absorb, AbsorbedState, AbsorbedBlock;
    forall s, t, k | Finish(s, k, len) == Finish(t, k, len) ensures s == t {
      FinishUndo(s, k, len);
      FinishUndo(t, k, len);
      AbsorbUndo(s, k);
      AbsorbUndo(t, k);
    }
    forall s, k, k' | Finish(s, k, len) == Finish(s, k', len) ensures k == k' {
      FinishUndo(s, k, len);
      FinishUndo(s, k', len);
      AbsorbUndo(s, k);
      AbsorbUndo(s, k');
    }
  }

  /** Four words from byte `at` on, padded with zeros past the end. */
  function QuadAt(key: seq<bv8>, at: nat): Quad {
    Quad(Word32(key, at), Word32(key, at + 4), Word32(key, at + 8), Word32(key, at + 12))
  }

  function Blocks(key: seq<bv8>): (qs: seq<Quad>) {
    seq(|key| / 16, i requires 0 <= i => QuadAt(key, 16 * i))
  }

  function TailBlock(key: seq<bv8>): Quad {
    QuadAt(key, |key| / 16 * 16)
  }

  /** The hash as a left-to-right fold over the key's 16-byte blocks, its tail and its length. */
  function Hash(key: seq<bv8>, len: bv32, seed: bv32): Quad
    requires IsLength(len, key)
  {
    Finish(Fold(Step, Quad(seed, seed, seed, seed), Blocks(key)), TailBlock(key), len)
  }

  lemma BlocksApart(a: seq<bv8>, b: seq<bv8>, at: nat)
    requires |a| == |b| && a != b
    requires forall j :: 0 <= j < |a| && !(at <= j < at + 16) ==> a[j] == b[j]
    ensures QuadAt(a, at) != QuadAt(b, at)
  {
    hide Word32;
    var j :| 0 <= j < |a| && a[j] != b[j];
    if QuadAt(a, at) == QuadAt(b, at) {
      Word32TellsBytes(a, b, at + (j - at) / 4 * 4, j);
    }
  }

  lemma SameOutside(a: seq<bv8>, b: seq<bv8>, i: nat, n: nat)
    requires DifferOnlyInBlock(a, b, i, 16)
    requires n != i
    ensures QuadAt(a, 16 * n) == QuadAt(b, 16 * n)
  {
    hide Assemble32;
    forall j: nat | 16 * n <= j < 16 * n + 16 ensures ByteAt(a, j) == ByteAt(b, j) {
      assert !(16 * i <= j < 16 * i + 16);
    }
  }

  /** Keys of one length that differ inside a single 16-byte block never collide. */
  lemma OneBlockNeverCollides(a: seq<bv8>, b: seq<bv8>, len: bv32, seed: bv32, i: nat)
    requires IsLength(len, a) && DifferOnlyInBlock(a, b, i, 16)
    ensures Hash(a, len, seed) != Hash(b, len, seed)
  {
    hide IsLength, Step, Finish, QuadAt;
    SameLength(len, a, b);
    BlocksApart(a, b, 16 * i);
    forall j | 0 <= j <= |a| / 16 && j != i ensures QuadAt(a, 16 * j) == QuadAt(b, 16 * j) {
      SameOutside(a, b, i, j);
    }
    assert |a| / 16 * 16 == 16 * (|a| / 16);
    StepLosesNothing();
    FinishLosesNothing(len);
    OneBlockApart(Step, (h, k) => Finish(h, k, len), Quad(seed, seed, seed, seed),
                  Blocks(a), TailBlock(a), Blocks(b), TailBlock(b), i);
  }

  /** For a fixed key, different seeds give different hashes. */
  lemma SeedsNeverCollide(key: seq<bv8>, len: bv32, s: bv32, t: bv32)
    requires IsLength(len, key) && s != t
    ensures Hash(key, len, s) != Hash(key, len, t)
  {
    hide IsLength, Step, Finish, QuadAt;
    StepLosesNothing();
    FoldKeepsStatesApart(Step, Quad(s, s, s, s), Quad(t, t, t, t), Blocks(key));
    FinishLosesNothing(len);
    var finish := (h, k) => Finish(h, k, len);
    assert finish(Fold(Step, Quad(s, s, s, s), Blocks(key)), TailBlock(key))
        != finish(Fold(Step, Quad(t, t, t, t), Blocks(key)), TailBlock(key));
  }

  lemma FinishTellsLength(s: Quad, k: Quad, len: bv32)
    ensures Xor32(Absorb(s, k).w1, Unspread(Unfmix(Unspread(Finish(s, k, len)))).w1) == len
  {
    hide Xor32, Fmix32, Unfmix32, Spread, Unspread, Absorb;
    var m := Absorb(s, k);
    var q := Spread(AddLength(m, len));
    SpreadUndo(AddLength(m, len));
    SpreadUndo(Fmix(q));
    Fmix32Undo(q.w1);
    Fmix32Undo(q.w2);
    Fmix32Undo(q.w3);
    Fmix32Undo(q.w4);
    Xor32Undo(m.w1, len);
  }

  /** Keys whose padded blocks are the same, and only the lengths differ, never collide either. */
  lemma LengthsNeverCollide(a: seq<bv8>, lenA: bv32, b: seq<bv8>, lenB: bv32, seed: bv32)
    requires IsLength(lenA, a) && IsLength(lenB, b) && |a| != |b|
    requires Blocks(a) == Blocks(b) && TailBlock(a) == TailBlock(b)
    ensures Hash(a, lenA, seed) != Hash(b, lenB, seed)
  {
    hide IsLength, Step, Finish, Unspread, Unfmix, AddLength, Absorb;
    LengthsApart(lenA, a, lenB, b);
    var s := Fold(Step, Quad(seed, seed, seed, seed), Blocks(a));
    FinishTellsLength(s, TailBlock(a), lenA);
    FinishTellsLength(s, TailBlock(a), lenB);
  }

  /** The body of the block loop. */
  method Round(g1: bv32, g2: bv32, g3: bv32, g4: bv32, b1: bv32, b2: bv32, b3: bv32, b4: bv32)
    returns (h1: bv32, h2: bv32, h3: bv32, h4: bv32)
    ensures Quad(h1, h2, h3, h4) == Step(Quad(g1, g2, g3, g4), Quad(b1, b2, b3, b4))
  {
    hide Rotl32, Xor32, Add32, MulC1, MulC2, MulC3, MulC4, Affine32;
    h1, h2, h3, h4 := g1, g2, g3, g4;
    var k1, k2, k3, k4 := b1, b2, b3, b4;

    k1 := MulC1(k1);
    k1 := Rotl32(k1, 15);
    k1 := MulC2(k1);
    h1 := Xor32(h1, k1);

    h1 := Rotl32(h1, 19);
    h1 := Add32(h1, h2);
    h1 := Affine32(h1, 0x561ccd1b);

    k2 := MulC2(k2);
    k2 := Rotl32(k2, 16);
    k2 := MulC3(k2);
    h2 := Xor32(h2, k2);

    h2 := Rotl32(h2, 17);
    h2 := Add32(h2, h3);
    h2 := Affine32(h2, 0x0bcaa747);

    k3 := MulC3(k3);
    k3 := Rotl32(k3, 17);
    k3 := MulC4(k3);
    h3 := Xor32(h3, k3);

    h3 := Rotl32(h3, 15);
    h3 := Add32(h3, h4);
    h3 := Affine32(h3, 0x96cd1c35);

    k4 := MulC4(k4);
    k4 := Rotl32(k4, 18);
    k4 := MulC1(k4);
    h4 := Xor32(h4, k4);

    h4 := Rotl32(h4, 13);
    h4 := Add32(h4, h1);
    h4 := Affine32(h4, 0x32ac3b17);
  }

  /** The program itself: negative word indices up to zero, then the fall-through switch. */
  method MurmurHash3_x86_128(key: seq<bv8>, len: bv32, seed: bv32) returns (out: Quad)
    requires IsLength(len, key)
    ensures out == Hash(key, len, seed)
  {
    hide IsLength, Step, Absorb, Spread, Fmix, AddLength, Word32;
    var nblocks := |key| / 16;
    var h1, h2, h3, h4 := seed, seed, seed, seed;

    var blocks := nblocks * 16;
    var i := -nblocks;
    while i != 0
      invariant -nblocks <= i <= 0
      invariant Quad(h1, h2, h3, h4) == Fold(Step, Quad(seed, seed, seed, seed), Blocks(key)[..nblocks + i])
    {
      var k1 := GetBlock32(key, blocks, i * 4 + 0);
      var k2 := GetBlock32(key, blocks, i * 4 + 1);
      var k3 := GetBlock32(key, blocks, i * 4 + 2);
      var k4 := GetBlock32(key, blocks, i * 4 + 3);
      ghost var k := Quad(k1, k2, k3, k4);
      FoldSnoc(Step, Quad(seed, seed, seed, seed), Blocks(key)[..nblocks + i], k);
      assert Blocks(key)[..nblocks + i + 1] == Blocks(key)[..nblocks + i] + [k];

      h1, h2, h3, h4 := Round(h1, h2, h3, h4, k1, k2, k3, k4);
      i := i + 1;
    }
    assert Blocks(key)[..nblocks] == Blocks(key);

    h1, h2, h3, h4 := MixTail(h1, h2, h3, h4, key[blocks..]);
    SuffixWord32(key, blocks, 0);
    SuffixWord32(key, blocks, 4);
    SuffixWord32(key, blocks, 8);
    SuffixWord32(key, blocks, 12);

    out := Finalize(h1, h2, h3, h4, len);
  }

  method Finalize(g1: bv32, g2: bv32, g3: bv32, g4: bv32, len: bv32) returns (out: Quad)
    ensures out == Spread(Fmix(Spread(AddLength(Quad(g1, g2, g3, g4), len))))
  {
    hide Xor32, Add32, Fmix32;
    var h1, h2, h3, h4 := g1, g2, g3, g4;
    h1 := Xor32(h1, len);
    h2 := Xor32(h2, len);
    h3 := Xor32(h3, len);
    h4 := Xor32(h4, len);

    h1 := Add32(h1, h2);
    h1 := Add32(h1, h3);
    h1 := Add32(h1, h4);
    h2 := Add32(h2, h1);
    h3 := Add32(h3, h1);
    h4 := Add32(h4, h1);

    h1 := Fmix32(h1);
    h2 := Fmix32(h2);
    h3 := Fmix32(h3);
    h4 := Fmix32(h4);

    h1 := Add32(h1, h2);
    h1 := Add32(h1, h3);
    h1 := Add32(h1, h4);
    h2 := Add32(h2, h1);
    h3 := Add32(h3, h1);
    h4 := Add32(h4, h1);

    out := Quad(h1, h2, h3, h4);
  }

  /** The switch on the last zero to fifteen bytes: every case falls through to the next, and
      a lane is mixed in after its lowest byte. */
  method MixTail(g1: bv32, g2: bv32, g3: bv32, g4: bv32, tail: seq<bv8>)
    returns (h1: bv32, h2: bv32, h3: bv32, h4: bv32)
    requires |tail| < 16
    ensures Quad(h1, h2, h3, h4) == Absorb(Quad(g1, g2, g3, g4), QuadAt(tail, 0))
  {
    hide Xor32, Word32, Mix1, Mix2, Mix3, Mix4;
    h4 := MixTail4(g4, tail);
    h3 := MixTail3(g3, tail);
    h2 := MixTail2(g2, tail);
    h1 := MixTail1(g1, tail);
  }

  // case 15 down to case 13
  method MixTail4(g: bv32, tail: seq<bv8>) returns (h: bv32)
    requires |tail| < 16
    ensures h == Xor32(g, Mix4(Word32(tail, 12)))
  {
    hide Rotl32, Xor32, MulC1, MulC2, Word32, Case32, MulC3, MulC4;
    h := g;
    var k: bv32 := 0;
    k := Case32(k, tail, 15, 24); // no such label: there is no byte 15
    k := Case32(k, tail, 14, 16);
    k := Case32(k, tail, 13, 8);
    k := Case32(k, tail, 12, 0);
    CasesAreWord32(tail, 12);
    if |tail| > 12 {
      k := MulC4(k);
      k := Rotl32(k, 18);
      k := MulC1(k);
      h := Xor32(h, k);
    } else {
      NoWord32(tail, 12);
      ZeroWord(g);
    }
  }

  // case 12 down to case 9
  method MixTail3(g: bv32, tail: seq<bv8>) returns (h: bv32)
    requires |tail| < 16
    ensures h == Xor32(g, Mix3(Word32(tail, 8)))
  {
    hide Rotl32, Xor32, MulC1, MulC2, Word32, Case32, MulC3, MulC4;
    h := g;
    var k: bv32 := 0;
    k := Case32(k, tail, 11, 24);
    k := Case32(k, tail, 10, 16);
    k := Case32(k, tail, 9, 8);
    k := Case32(k, tail, 8, 0);
    CasesAreWord32(tail, 8);
    if |tail| > 8 {
      k := MulC3(k);
      k := Rotl32(k, 17);
      k := MulC4(k);
      h := Xor32(h, k);
    } else {
      NoWord32(tail, 8);
      ZeroWord(g);
    }
  }

  // case 8 down to case 5
  method MixTail2(g: bv32, tail: seq<bv8>) returns (h: bv32)
    requires |tail| < 16
    ensures h == Xor32(g, Mix2(Word32(tail, 4)))
  {
    hide Rotl32, Xor32, MulC1, MulC2, Word32, Case32, MulC3, MulC4;
    h := g;
    var k: bv32 := 0;
    k := Case32(k, tail, 7, 24);
    k := Case32(k, tail, 6, 16);
    k := Case32(k, tail, 5, 8);
    k := Case32(k, tail, 4, 0);
    CasesAreWord32(tail, 4);
    if |tail| > 4 {
      k := MulC2(k);
      k := Rotl32(k, 16);
      k := MulC3(k);
      h := Xor32(h, k);
    } else {
      NoWord32(tail, 4);
      ZeroWord(g);
    }
  }

  // case 4 down to case 1
  method MixTail1(g: bv32, tail: seq<bv8>) returns (h: bv32)
    requires |tail| < 16
    ensures h == Xor32(g, Mix1(Word32(tail, 0)))
  {
    hide Rotl32, Xor32, MulC1, MulC2, Word32, Case32, MulC3, MulC4;
    h := g;
    var k: bv32 := 0;
    k := Case32(k, tail, 3, 24);
    k := Case32(k, tail, 2, 16);
    k := Case32(k, tail, 1, 8);
    k := Case32(k, tail, 0, 0);
    CasesAreWord32(tail, 0);
    if |tail| > 0 {
      k := MulC1(k);
      k := Rotl32(k, 15);
      k := MulC2(k);
      h := Xor32(h, k);
    } else {
      NoWord32(tail, 0);
      ZeroWord(g);
    }
  }

  lemma ZeroWord(h: bv32)
    ensures Xor32(h, Mix1(0)) == h && Xor32(h, Mix2(0)) == h
    ensures Xor32(h, Mix3(0)) == h && Xor32(h, Mix4(0)) == h
  {
    MixZero();
    assert Xor32(h, 0) == h;
  }
}
