/** The word operations MurmurHash3 is built from, each with the fact that it loses
    nothing: equal results come from equal arguments. On a finite word type an injective
    operation is a bijection. */
module MurmurBits {

  // Little-endian words; a word that runs past the end of the key is padded with zeros.

  function ByteAt(key: seq<bv8>, i: nat): bv8 {
    if i < |key| then key[i] else 0
  }

  function Word32(key: seq<bv8>, at: nat): bv32 {
    Assemble32(ByteAt(key, at), ByteAt(key, at + 1), ByteAt(key, at + 2), ByteAt(key, at + 3))
  }

  function Word64(key: seq<bv8>, at: nat): bv64 {
    Assemble64(Word32(key, at), Word32(key, at + 4))
  }

  function Assemble32(b0: bv8, b1: bv8, b2: bv8, b3: bv8): bv32 {
    (b0 as bv32) ^ (b1 as bv32 << 8) ^ (b2 as bv32 << 16) ^ (b3 as bv32 << 24)
  }

  function Assemble64(lo: bv32, hi: bv32): bv64 {
    (lo as bv64) ^ (hi as bv64 << 32)
  }

  lemma Assemble32Injective(b0: bv8, b1: bv8, b2: bv8, b3: bv8, c0: bv8, c1: bv8, c2: bv8, c3: bv8)
    requires Assemble32(b0, b1, b2, b3) == Assemble32(c0, c1, c2, c3)
    ensures b0 == c0 && b1 == c1 && b2 == c2 && b3 == c3
  {
  }

  lemma Assemble64Injective(lo: bv32, hi: bv32, lo': bv32, hi': bv32)
    requires Assemble64(lo, hi) == Assemble64(lo', hi')
    ensures lo == lo' && hi == hi'
  {
  }

  /** A word tells the bytes under it apart, at every offset the two keys share. */
  lemma Word32TellsBytes(a: seq<bv8>, b: seq<bv8>, at: nat, j: nat)
    requires |a| == |b| && at <= j < at + 4 && j < |a|
    requires Word32(a, at) == Word32(b, at)
    ensures a[j] == b[j]
  {
    Assemble32Injective(ByteAt(a, at), ByteAt(a, at + 1), ByteAt(a, at + 2), ByteAt(a, at + 3),
                        ByteAt(b, at), ByteAt(b, at + 1), ByteAt(b, at + 2), ByteAt(b, at + 3));
    assert ByteAt(a, j) == ByteAt(b, j);
  }

  lemma Word64TellsBytes(a: seq<bv8>, b: seq<bv8>, at: nat, j: nat)
    requires |a| == |b| && at <= j < at + 8 && j < |a|
    requires Word64(a, at) == Word64(b, at)
    ensures a[j] == b[j]
  {
    Assemble64Injective(Word32(a, at), Word32(a, at + 4), Word32(b, at), Word32(b, at + 4));
    Word32TellsBytes(a, b, if j < at + 4 then at else at + 4, j);
  }

  /** The word i words after byte `blocks`; i may be negative, and the word lies in the key. */
  function GetBlock32(key: seq<bv8>, blocks: nat, i: int): bv32
    requires 0 <= blocks + 4 * i && blocks + 4 * i + 4 <= |key|
  {
    Word32(key, blocks + 4 * i)
  }

  /** Reading from a suffix of the key. */
  lemma SuffixWord32(key: seq<bv8>, from: nat, at: nat)
    requires from <= |key|
    ensures Word32(key[from..], at) == Word32(key, from + at)
  {
    assert forall j: nat :: ByteAt(key[from..], j) == ByteAt(key, from + j);
  }

  /** The key's length as the C int it is passed as. */
  predicate IsLength(len: bv32, key: seq<bv8>) {
    len as int == |key| < 0x8000_0000
  }

  lemma SameLength(len: bv32, a: seq<bv8>, b: seq<bv8>)
    requires IsLength(len, a) && |a| == |b|
    ensures IsLength(len, b)
  {
  }

  lemma LengthsApart(len: bv32, a: seq<bv8>, len': bv32, b: seq<bv8>)
    requires IsLength(len, a) && IsLength(len', b) && |a| != |b|
    ensures len != len'
  {
  }

  /** The length as the 64-bit word it is mixed in as; it is never negative. */
  function Widened(len: bv32): bv64 {
    len as bv64
  }

  lemma WidenedApart(len: bv32, len': bv32)
    requires len != len'
    ensures Widened(len) != Widened(len')
  {
  }

  /** Two keys of one length that agree outside block i. Block |key| / 4 is the tail. */
  ghost predicate DifferOnlyInBlock(a: seq<bv8>, b: seq<bv8>, i: nat, width: nat)
    requires width > 0
  {
    && |a| == |b|
    && a != b
    && forall j :: 0 <= j < |a| && !(width * i <= j < width * i + width) ==> a[j] == b[j]
  }

  lemma SuffixWord64(key: seq<bv8>, from: nat, at: nat)
    requires from <= |key|
    ensures Word64(key[from..], at) == Word64(key, from + at)
  {
    SuffixWord32(key, from, at);
    SuffixWord32(key, from, at + 4);
  }

  lemma WordsApart(a: seq<bv8>, b: seq<bv8>, at: nat)
    requires |a| == |b| && a != b
    requires forall j :: 0 <= j < |a| && !(at <= j < at + 4) ==> a[j] == b[j]
    ensures Word32(a, at) != Word32(b, at)
  {
    var j :| 0 <= j < |a| && a[j] != b[j];
    if Word32(a, at) == Word32(b, at) {
      Word32TellsBytes(a, b, at, j);
    }
  }

  // Rotations. Amounts stay in bit-vector form, as the shifts they feed do.

  function Rotl32(x: bv32, r: bv32): bv32
    requires 0 < r < 32
  {
    (x << r) | (x >> (32 - r))
  }

  function Rotl64(x: bv64, r: bv64): bv64
    requires 0 < r < 64
  {
    (x << r) | (x >> (64 - r))
  }

  /** A rotation by any amount the hash functions use is undone by the complementary one. */
  lemma Rotl32Undo(x: bv32)
    ensures Rotl32(Rotl32(x, 13), 19) == x
    ensures Rotl32(Rotl32(x, 15), 17) == x
    ensures Rotl32(Rotl32(x, 16), 16) == x
    ensures Rotl32(Rotl32(x, 17), 15) == x
    ensures Rotl32(Rotl32(x, 18), 14) == x
    ensures Rotl32(Rotl32(x, 19), 13) == x
  {
    assert Rotl32((x << 13) | (x >> 19), 19) == x;
    assert Rotl32((x << 15) | (x >> 17), 17) == x;
    assert Rotl32((x << 16) | (x >> 16), 16) == x;
    assert Rotl32((x << 17) | (x >> 15), 15) == x;
    assert Rotl32((x << 18) | (x >> 14), 14) == x;
    assert Rotl32((x << 19) | (x >> 13), 13) == x;
  }

  lemma Rotl64Undo(x: bv64)
    ensures Rotl64(Rotl64(x, 27), 37) == x
    ensures Rotl64(Rotl64(x, 31), 33) == x
    ensures Rotl64(Rotl64(x, 33), 31) == x
  {
    assert Rotl64((x << 27) | (x >> 37), 37) == x;
    assert Rotl64((x << 31) | (x >> 33), 33) == x;
    assert Rotl64((x << 33) | (x >> 31), 31) == x;
  }

  // Exclusive or.

  function Xor32(x: bv32, y: bv32): bv32 { x ^ y }

  function Xor64(x: bv64, y: bv64): bv64 { x ^ y }

  lemma Xor32Undo(x: bv32, y: bv32)
    ensures Xor32(Xor32(x, y), y) == x
    ensures Xor32(x, Xor32(x, y)) == y
  {
    assert Xor32(x ^ y, y) == x;
    assert Xor32(x, x ^ y) == y;
  }

  lemma Xor64Undo(x: bv64, y: bv64)
    ensures Xor64(Xor64(x, y), y) == x
    ensures Xor64(x, Xor64(x, y)) == y
  {
    assert Xor64(x ^ y, y) == x;
    assert Xor64(x, x ^ y) == y;
  }

  // The accumulation a fall-through switch performs: the highest byte present first, then
  // every byte below it.

  /** One case label of such a switch: if the tail reaches byte i, the byte goes in at its
      shift; control falls through to the next label either way. */
  function Case32(k: bv32, t: seq<bv8>, i: nat, shift: bv32): bv32
    requires shift < 32
  {
    if |t| > i then Xor32(k, t[i] as bv32 << shift) else k
  }

  function Case64(k: bv64, t: seq<bv8>, i: nat, shift: bv64): bv64
    requires shift < 64
  {
    if |t| > i then Xor64(k, t[i] as bv64 << shift) else k
  }

  lemma NothingShifted32(k: bv32, shift: bv32)
    requires shift < 32
    ensures Xor32(k, (0 as bv8) as bv32 << shift) == k
  {
    assert (0 as bv32 << shift) == 0;
  }

  /** A byte beyond the tail is padding, and padding changes nothing. */
  lemma CaseIsXor32(k: bv32, t: seq<bv8>, i: nat, shift: bv32)
    requires shift < 32
    ensures Case32(k, t, i, shift) == Xor32(k, ByteAt(t, i) as bv32 << shift)
  {
    hide Xor32;
    if i < |t| {
      assert ByteAt(t, i) == t[i];
    } else {
      assert ByteAt(t, i) == 0;
      NothingShifted32(k, shift);
    }
  }

  lemma BytesAreWord32(b0: bv8, b1: bv8, b2: bv8, b3: bv8)
    ensures var k := Xor32(0, b3 as bv32 << 24);
            var k := Xor32(Xor32(k, b2 as bv32 << 16), b1 as bv32 << 8);
            Xor32(k, b0 as bv32 << 0) == Assemble32(b0, b1, b2, b3)
  {
  }

  lemma CasesAreWord32(t: seq<bv8>, at: nat)
    ensures var k := Case32(0, t, at + 3, 24);
            var k := Case32(k, t, at + 2, 16);
            var k := Case32(k, t, at + 1, 8);
            Case32(k, t, at, 0) == Word32(t, at)
  {
    hide Case32, Xor32, ByteAt, Assemble32;
    var k3 := Case32(0, t, at + 3, 24);
    var k2 := Case32(k3, t, at + 2, 16);
    var k1 := Case32(k2, t, at + 1, 8);
    CaseIsXor32(0, t, at + 3, 24);
    CaseIsXor32(k3, t, at + 2, 16);
    CaseIsXor32(k2, t, at + 1, 8);
    CaseIsXor32(k1, t, at, 0);
    BytesAreWord32(ByteAt(t, at), ByteAt(t, at + 1), ByteAt(t, at + 2), ByteAt(t, at + 3));
  }

  lemma UnshiftedByte(k: bv32, b: bv8)
    ensures Xor32(k, b as bv32 << 0) == Xor32(k, b as bv32)
  {
  }

  /** The switch written out, its last byte without a shift. */
  lemma LadderIsWord32(t: seq<bv8>, at: nat)
    ensures var k := if |t| > at + 3 then Xor32(0, t[at + 3] as bv32 << 24) else 0;
            var k := if |t| > at + 2 then Xor32(k, t[at + 2] as bv32 << 16) else k;
            var k := if |t| > at + 1 then Xor32(k, t[at + 1] as bv32 << 8) else k;
            Word32(t, at) == if |t| > at then Xor32(k, t[at] as bv32) else k
  {
    hide Xor32, ByteAt, Word32, Assemble32;
    CasesAreWord32(t, at);
    if |t| > at {
      UnshiftedByte(Case32(Case32(Case32(0, t, at + 3, 24), t, at + 2, 16), t, at + 1, 8), t[at]);
    }
  }

  lemma NothingShifted64(k: bv64, shift: bv64)
    requires shift < 64
    ensures Xor64(k, (0 as bv8) as bv64 << shift) == k
  {
    assert (0 as bv64 << shift) == 0;
  }

  lemma CaseIsXor64(k: bv64, t: seq<bv8>, i: nat, shift: bv64)
    requires shift < 64
    ensures Case64(k, t, i, shift) == Xor64(k, ByteAt(t, i) as bv64 << shift)
  {
    hide Xor64;
    if i < |t| {
      assert ByteAt(t, i) == t[i];
    } else {
      assert ByteAt(t, i) == 0;
      NothingShifted64(k, shift);
    }
  }

  lemma BytesAreWord64(b: seq<bv8>)
    requires |b| == 8
    ensures var k := Xor64(0, b[7] as bv64 << 56);
            var k := Xor64(Xor64(k, b[6] as bv64 << 48), b[5] as bv64 << 40);
            var k := Xor64(Xor64(k, b[4] as bv64 << 32), b[3] as bv64 << 24);
            var k := Xor64(Xor64(k, b[2] as bv64 << 16), b[1] as bv64 << 8);
            Xor64(k, b[0] as bv64 << 0)
            == Assemble64(Assemble32(b[0], b[1], b[2], b[3]), Assemble32(b[4], b[5], b[6], b[7]))
  {
  }

  lemma CasesAreWord64(t: seq<bv8>, at: nat)
    ensures var k := Case64(0, t, at + 7, 56);
            var k := Case64(k, t, at + 6, 48);
            var k := Case64(k, t, at + 5, 40);
            var k := Case64(k, t, at + 4, 32);
            var k := Case64(k, t, at + 3, 24);
            var k := Case64(k, t, at + 2, 16);
            var k := Case64(k, t, at + 1, 8);
            Case64(k, t, at, 0) == Word64(t, at)
  {
    hide Case64, Xor64, ByteAt, Assemble32, Assemble64;
    var k7 := Case64(0, t, at + 7, 56);
    var k6 := Case64(k7, t, at + 6, 48);
    var k5 := Case64(k6, t, at + 5, 40);
    var k4 := Case64(k5, t, at + 4, 32);
    var k3 := Case64(k4, t, at + 3, 24);
    var k2 := Case64(k3, t, at + 2, 16);
    var k1 := Case64(k2, t, at + 1, 8);
    CaseIsXor64(0, t, at + 7, 56);
    CaseIsXor64(k7, t, at + 6, 48);
    CaseIsXor64(k6, t, at + 5, 40);
    CaseIsXor64(k5, t, at + 4, 32);
    CaseIsXor64(k4, t, at + 3, 24);
    CaseIsXor64(k3, t, at + 2, 16);
    CaseIsXor64(k2, t, at + 1, 8);
    CaseIsXor64(k1, t, at, 0);
    BytesAreWord64(seq(8, i requires 0 <= i => ByteAt(t, at + i)));
  }

  /** Past the end of the tail there is only padding. */
  lemma NoWord32(t: seq<bv8>, at: nat)
    requires at >= |t|
    ensures Word32(t, at) == 0
  {
    assert Assemble32(0, 0, 0, 0) == 0;
  }

  lemma NoWord64(t: seq<bv8>, at: nat)
    requires at >= |t|
    ensures Word64(t, at) == 0
  {
    NoWord32(t, at);
    NoWord32(t, at + 4);
    assert Assemble64(0, 0) == 0;
  }

  // Addition.

  function Add32(x: bv32, y: bv32): bv32 { x + y }

  function Sub32(x: bv32, y: bv32): bv32 { x - y }

  function Add64(x: bv64, y: bv64): bv64 { x + y }

  function Sub64(x: bv64, y: bv64): bv64 { x - y }

  lemma Add32Undo(x: bv32, y: bv32)
    ensures Sub32(Add32(x, y), y) == x
  {
    assert Sub32(x + y, y) == x;
  }

  lemma Add64Undo(x: bv64, y: bv64)
    ensures Sub64(Add64(x, y), y) == x
  {
    assert Sub64(x + y, y) == x;
  }

  // The step h * 5 + c.

  function Affine32(h: bv32, c: bv32): bv32 { h * 5 + c }

  function Unaffine32(h: bv32, c: bv32): bv32 { (h - c) * 0xcccccccd }

  lemma Affine32Undo(h: bv32, c: bv32)
    ensures Unaffine32(Affine32(h, c), c) == h
  {
    assert Unaffine32(h * 5 + c, c) == h;
  }

  function Affine64(h: bv64, c: bv64): bv64 { h * 5 + c }

  function Unaffine64(h: bv64, c: bv64): bv64 { (h - c) * 0xcccccccccccccccd }

  lemma Affine64Undo(h: bv64, c: bv64)
    ensures Unaffine64(Affine64(h, c), c) == h
  {
    assert Unaffine64(h * 5 + c, c) == h;
  }

  // Finalisers: two odd multipliers between three xor-shifts. Each multiplier is undone by
  // its inverse modulo the word size, each xor-shift by repeating it until the shifted copy
  // has left the word.

  function Shift16(h: bv32): bv32 { h ^ (h >> 16) }

  function Shift13(h: bv32): bv32 { h ^ (h >> 13) }

  function Unshift13(h: bv32): bv32 { h ^ (h >> 13) ^ (h >> 26) }

  function MulF1(h: bv32): bv32 { h * 0x85ebca6b }

  function DivF1(h: bv32): bv32 { h * 0xa5cb9243 }

  function MulF2(h: bv32): bv32 { h * 0xc2b2ae35 }

  function DivF2(h: bv32): bv32 { h * 0x7ed1b41d }

  lemma Stages32Undo(h: bv32)
    ensures Shift16(Shift16(h)) == h
    ensures Unshift13(Shift13(h)) == h
    ensures DivF1(MulF1(h)) == h
    ensures DivF2(MulF2(h)) == h
  {
    assert Shift16(h ^ (h >> 16)) == h;
    assert Unshift13(h ^ (h >> 13)) == h;
    assert DivF1(h * 0x85ebca6b) == h;
    assert DivF2(h * 0xc2b2ae35) == h;
  }

  function Fmix32(h: bv32): bv32 {
    Shift16(MulF2(Shift13(MulF1(Shift16(h)))))
  }

  function Unfmix32(h: bv32): bv32 {
    Shift16(DivF1(Unshift13(DivF2(Shift16(h)))))
  }

  /** The 32-bit finaliser is a bijection: Unfmix32 takes every result back. */
  lemma Fmix32Undo(h: bv32)
    ensures Unfmix32(Fmix32(h)) == h
  {
    Stages32Undo(h);
    Stages32Undo(Shift16(h));
    Stages32Undo(MulF1(Shift16(h)));
    Stages32Undo(Shift13(MulF1(Shift16(h))));
    Stages32Undo(MulF2(Shift13(MulF1(Shift16(h)))));
  }

  function Shift33(k: bv64): bv64 { k ^ (k >> 33) }

  function MulG1(k: bv64): bv64 { k * 0xff51afd7ed558ccd }

  function DivG1(k: bv64): bv64 { k * 0x4f74430c22a54005 }

  function MulG2(k: bv64): bv64 { k * 0xc4ceb9fe1a85ec53 }

  function DivG2(k: bv64): bv64 { k * 0x9cb4b2f8129337db }

  lemma Stages64Undo(k: bv64)
    ensures Shift33(Shift33(k)) == k
    ensures DivG1(MulG1(k)) == k
    ensures DivG2(MulG2(k)) == k
  {
    assert Shift33(k ^ (k >> 33)) == k;
    assert DivG1(k * 0xff51afd7ed558ccd) == k;
    assert DivG2(k * 0xc4ceb9fe1a85ec53) == k;
  }

  function Fmix64(k: bv64): bv64 {
    Shift33(MulG2(Shift33(MulG1(Shift33(k)))))
  }

  function Unfmix64(k: bv64): bv64 {
    Shift33(DivG1(Shift33(DivG2(Shift33(k)))))
  }

  /** The 64-bit finaliser is a bijection. */
  lemma Fmix64Undo(k: bv64)
    ensures Unfmix64(Fmix64(k)) == k
  {
    Stages64Undo(k);
    Stages64Undo(Shift33(k));
    Stages64Undo(MulG1(Shift33(k)));
    Stages64Undo(Shift33(MulG1(Shift33(k))));
    Stages64Undo(MulG2(Shift33(MulG1(Shift33(k)))));
  }
}
