/** Published values of the three hashes. They fix the constants, which no collision tells apart. */
module MurmurValues {
  import opened BlockFold
  import opened MurmurBits
  import X64 = MurmurX64_128
  import X86 = MurmurX86_32
  import X86Quad = MurmurX86_128

  // "Hello, world!"
  const HELLO: seq<bv8> := [72, 101, 108, 108, 111, 44, 32, 119, 111, 114, 108, 100, 33]

  // "The quick brown fox jumps over the lazy dog"
  const FOX: seq<bv8> :=
    [84, 104, 101, 32, 113, 117, 105, 99, 107, 32, 98, 114, 111, 119, 110, 32] +
    [102, 111, 120, 32, 106, 117, 109, 112, 115, 32, 111, 118, 101, 114, 32, 116] +
    [104, 101, 32, 108, 97, 122, 121, 32, 100, 111, 103]

  lemma ShortLengths()
    ensures IsLength(0, []) && IsLength(1, [0]) && IsLength(13, HELLO) && IsLength(43, FOX)
  {
    assert |HELLO| == 13 && |FOX| == 43;
  }

  /** Without a block or a tail, the seed and the length are all there is. */
  lemma NoBlocks()
    ensures IsLength(0, []) && X86.Hash([], 0, 0) == 0 && X86.Hash([], 0, 1) == 0x514e28b7
    ensures IsLength(1, [0]) && X86.Hash([0], 1, 0) == 0x514e28b7
  {
    ShortLengths();
    assert X86.Finish(0, 0, 0) == 0 && X86.Finish(1, 0, 0) == 0x514e28b7 && X86.Finish(0, 0, 1) == 0x514e28b7;
    assert X86.TailWord([]) == 0 && X86.TailWord([0]) == 0;
    hide X86.Finish, X86.TailWord, X86.Step, IsLength;
    assert X86.Words([]) == [] && X86.Words([0]) == [];
  }

  lemma HelloWords()
    ensures X86.Words(HELLO) == [0x6c6c6548, 0x77202c6f, 0x646c726f]
    ensures X86.TailWord(HELLO) == 0x00000021
  {
  }

  lemma HelloHash()
    ensures IsLength(13, HELLO) && X86.Hash(HELLO, 13, 0x9747b28c) == 0x24884cba
  {
    ShortLengths();
    HelloWords();
    assert X86.Step(0x9747b28c, 0x6c6c6548) == 0xdae4c92e;
    assert X86.Step(0xdae4c92e, 0x77202c6f) == 0x71c6b43c;
    assert X86.Step(0x71c6b43c, 0x646c726f) == 0x3bd692af;
    assert X86.Finish(0x3bd692af, 0x00000021, 13) == 0x24884cba;
    hide X86.Step, X86.Finish, X86.Words, X86.TailWord, IsLength;
    FoldThree(X86.Step, 0x9747b28c, 0x6c6c6548, 0x77202c6f, 0x646c726f);
  }

  /** With the seed that keys are routed with. */
  lemma HelloToken()
    ensures IsLength(13, HELLO) && X86.Hash(HELLO, 13, 1234567890) == 0x28a0d3d0
  {
    ShortLengths();
    HelloWords();
    assert X86.Step(0x499602d2, 0x6c6c6548) == 0x0d1f58dc;
    assert X86.Step(0x0d1f58dc, 0x77202c6f) == 0xeb1b5187;
    assert X86.Step(0xeb1b5187, 0x646c726f) == 0xc337d508;
    assert X86.Finish(0xc337d508, 0x00000021, 13) == 0x28a0d3d0;
    hide X86.Step, X86.Finish, X86.Words, X86.TailWord, IsLength;
    FoldThree(X86.Step, 1234567890, 0x6c6c6548, 0x77202c6f, 0x646c726f);
  }

  lemma {:induction false} FoldTwo<S, B>(step: (S, B) -> S, s: S, b1: B, b2: B)
    ensures Fold(step, s, [b1, b2]) == step(step(s, b1), b2)
  {
    FoldSnoc(step, s, [], b1);
    FoldSnoc(step, s, [b1], b2);
    assert [] + [b1] == [b1] && [b1] + [b2] == [b1, b2];
  }

  lemma {:induction false} FoldThree<S, B>(step: (S, B) -> S, s: S, b1: B, b2: B, b3: B)
    ensures Fold(step, s, [b1, b2, b3]) == step(step(step(s, b1), b2), b3)
  {
    assert [b1, b2, b3][1..] == [b2, b3];
    FoldTwo(step, step(s, b1), b2, b3);
  }

  lemma FoxQuads()
    ensures X86Quad.Blocks(FOX) == [
      X86Quad.Quad(0x20656854, 0x63697571, 0x7262206b, 0x206e776f),
      X86Quad.Quad(0x20786f66, 0x706d756a, 0x766f2073, 0x74207265)]
    ensures X86Quad.TailBlock(FOX) == X86Quad.Quad(0x6c206568, 0x20797a61, 0x00676f64, 0x00000000)
  {
    assert |FOX| == 43;
    assert X86Quad.QuadAt(FOX, 0) == X86Quad.Quad(0x20656854, 0x63697571, 0x7262206b, 0x206e776f);
    assert X86Quad.QuadAt(FOX, 16) == X86Quad.Quad(0x20786f66, 0x706d756a, 0x766f2073, 0x74207265);
    assert X86Quad.QuadAt(FOX, 32) == X86Quad.Quad(0x6c206568, 0x20797a61, 0x00676f64, 0x00000000);
    hide X86Quad.QuadAt;
  }

  lemma FoxRound1()
    ensures X86Quad.Step(X86Quad.Quad(0x00000000, 0x00000000, 0x00000000, 0x00000000),
                         X86Quad.Quad(0x20656854, 0x63697571, 0x7262206b, 0x206e776f))
         == X86Quad.Quad(0x747f5a24, 0xe268b3ab, 0x2f0812bd, 0xa61229a3)
  {
  }

  lemma FoxRound2()
    ensures X86Quad.Step(X86Quad.Quad(0x747f5a24, 0xe268b3ab, 0x2f0812bd, 0xa61229a3),
                         X86Quad.Quad(0x20786f66, 0x706d756a, 0x766f2073, 0x74207265))
         == X86Quad.Quad(0xbd5366b2, 0x3fc68449, 0xedb3f273, 0x14f7ebdc)
  {
  }

  lemma FoxFinish()
    ensures X86Quad.Finish(X86Quad.Quad(0xbd5366b2, 0x3fc68449, 0xedb3f273, 0x14f7ebdc),
                           X86Quad.Quad(0x6c206568, 0x20797a61, 0x00676f64, 0x00000000), 43)
         == X86Quad.Quad(0x2f1583c3, 0xecee2c67, 0x5d7bf66c, 0xe5e91d2c)
  {
    var q := X86Quad.Absorb(X86Quad.Quad(0xbd5366b2, 0x3fc68449, 0xedb3f273, 0x14f7ebdc),
                            X86Quad.Quad(0x6c206568, 0x20797a61, 0x00676f64, 0x00000000));
    assert q == X86Quad.Quad(0x1fff0624, 0xfe3bbfd2, 0x9452c762, 0x14f7ebdc);
    q := X86Quad.AddLength(q, 43);
    assert q == X86Quad.Quad(0x1fff060f, 0xfe3bbff9, 0x9452c749, 0x14f7ebf7);
    q := X86Quad.Spread(q);
    assert q == X86Quad.Quad(0xc7857948, 0xc5c13941, 0x5bd84091, 0xdc7d653f);
    q := X86Quad.Fmix(q);
    assert q == X86Quad.Quad(0x8c02cf0d, 0xbdd8a8a4, 0x2e6672a9, 0xb6d39969);
  }

  lemma FoxQuadHash()
    ensures IsLength(43, FOX)
    ensures X86Quad.Hash(FOX, 43, 0) == X86Quad.Quad(0x2f1583c3, 0xecee2c67, 0x5d7bf66c, 0xe5e91d2c)
  {
    ShortLengths();
    FoxQuads();
    FoxRound1();
    FoxRound2();
    FoxFinish();
    hide X86Quad.Step, X86Quad.Finish, X86Quad.Blocks, X86Quad.TailBlock, IsLength;
    FoldTwo(X86Quad.Step, X86Quad.Quad(0, 0, 0, 0), X86Quad.Blocks(FOX)[0], X86Quad.Blocks(FOX)[1]);
  }

  lemma FoxPairs()
    ensures X64.Blocks(FOX) == [X64.Pair(0x6369757120656854, 0x206e776f7262206b),
                                X64.Pair(0x706d756a20786f66, 0x74207265766f2073)]
    ensures X64.TailBlock(FOX) == X64.Pair(0x20797a616c206568, 0x0000000000676f64)
  {
    assert |FOX| == 43;
    assert X64.PairAt(FOX, 0) == X64.Pair(0x6369757120656854, 0x206e776f7262206b);
    assert X64.PairAt(FOX, 16) == X64.Pair(0x706d756a20786f66, 0x74207265766f2073);
    assert X64.PairAt(FOX, 32) == X64.Pair(0x20797a616c206568, 0x0000000000676f64);
    hide X64.PairAt;
  }

  lemma FoxPairRounds()
    ensures X64.Step(X64.Pair(0x0000000000000000, 0x0000000000000000),
                     X64.Pair(0x6369757120656854, 0x206e776f7262206b))
         == X64.Pair(0x065f54070009580c, 0x1185bfe0bc383732)
    ensures X64.Step(X64.Pair(0x065f54070009580c, 0x1185bfe0bc383732),
                     X64.Pair(0x706d756a20786f66, 0x74207265766f2073))
         == X64.Pair(0xef7ef36e84b36d66, 0x20112c4dac59411d)
  {
  }

  lemma FoxPairFinish()
    ensures X64.Finish(X64.Pair(0xef7ef36e84b36d66, 0x20112c4dac59411d),
                       X64.Pair(0x20797a616c206568, 0x0000000000676f64), 43)
         == X64.Pair(0xe34bbc7bbc071b6c, 0x7a433ca9c49a9347)
  {
    assert Widened(43) == 43;
    var q := X64.Absorb(X64.Pair(0xef7ef36e84b36d66, 0x20112c4dac59411d),
                        X64.Pair(0x20797a616c206568, 0x0000000000676f64));
    assert q == X64.Pair(0x515233ebf2a47c15, 0x106ea6d665619948);
    q := X64.AddLength(q, 43);
    assert q == X64.Pair(0x515233ebf2a47c3e, 0x106ea6d665619963);
    q := X64.Spread(q);
    assert q == X64.Pair(0x61c0dac2580615a1, 0x722f8198bd67af04);
    q := X64.Fmix(q);
    assert q == X64.Pair(0x4c543c4db373a391, 0x96f7802e089377db);
  }

  lemma FoxPairHash()
    ensures IsLength(43, FOX)
    ensures X64.Hash(FOX, 43, 0) == X64.Pair(0xe34bbc7bbc071b6c, 0x7a433ca9c49a9347)
  {
    ShortLengths();
    FoxPairs();
    FoxPairRounds();
    FoxPairFinish();
    assert X64.Seeded(0) == X64.Pair(0, 0);
    hide X64.Step, X64.Finish, X64.Blocks, X64.TailBlock, IsLength;
    FoldTwo(X64.Step, X64.Pair(0, 0), X64.Blocks(FOX)[0], X64.Blocks(FOX)[1]);
  }
}
