/** A left-to-right fold over the blocks of a message, and what a step that loses no
    information makes of it. Nothing here depends on how a block is mixed. */
module BlockFold {

  function Fold<S, B>(step: (S, B) -> S, state: S, blocks: seq<B>): S
    decreases |blocks|
  {
    if blocks == [] then state else Fold(step, step(state, blocks[0]), blocks[1..])
  }

  ghost predicate KeepsStatesApart<S(!new), B(!new), R(!new)>(step: (S, B) -> R) {
    forall s, t, b :: step(s, b) == step(t, b) ==> s == t
  }

  ghost predicate KeepsBlocksApart<S(!new), B(!new), R(!new)>(step: (S, B) -> R) {
    forall s, b, c :: step(s, b) == step(s, c) ==> b == c
  }

  lemma {:induction false} FoldSnoc<S, B>(step: (S, B) -> S, state: S, blocks: seq<B>, last: B)
    ensures Fold(step, state, blocks + [last]) == step(Fold(step, state, blocks), last)
    decreases |blocks|
  {
    if blocks == [] {
      assert ([last])[1..] == [];
    } else {
      FoldSnoc(step, step(state, blocks[0]), blocks[1..], last);
      assert (blocks + [last])[1..] == blocks[1..] + [last];
    }
  }

  /** Different states stay different however many equal blocks follow. */
  lemma {:induction false} FoldKeepsStatesApart<S(!new), B(!new)>(
      step: (S, B) -> S, s: S, t: S, blocks: seq<B>)
    requires KeepsStatesApart(step)
    requires s != t
    ensures Fold(step, s, blocks) != Fold(step, t, blocks)
    decreases |blocks|
  {
    if blocks != [] {
      FoldKeepsStatesApart(step, step(s, blocks[0]), step(t, blocks[0]), blocks[1..]);
    }
  }

  /** Two block sequences that differ in exactly one place lead to different states. */
  lemma {:induction false} FoldKeepsOneBlockApart<S(!new), B(!new)>(
      step: (S, B) -> S, s: S, bs: seq<B>, cs: seq<B>, i: nat)
    requires KeepsStatesApart(step) && KeepsBlocksApart(step)
    requires |bs| == |cs| && i < |bs| && bs[i] != cs[i]
    requires forall j :: 0 <= j < |bs| && j != i ==> bs[j] == cs[j]
    ensures Fold(step, s, bs) != Fold(step, s, cs)
    decreases |bs|
  {
    if i == 0 {
      assert bs[1..] == cs[1..];
      FoldKeepsStatesApart(step, step(s, bs[0]), step(s, cs[0]), bs[1..]);
    } else {
      FoldKeepsOneBlockApart(step, step(s, bs[0]), bs[1..], cs[1..], i - 1);
    }
  }

  /** A whole hash: fold the blocks, then finish with the tail block. It tells two messages
      apart that differ in one block, or in the tail alone. */
  lemma {:induction false} OneBlockApart<S(!new), B(!new), R(!new)>(
      step: (S, B) -> S, finish: (S, B) -> R, s: S, bs: seq<B>, bTail: B, cs: seq<B>, cTail: B, i: nat)
    requires KeepsStatesApart(step) && KeepsBlocksApart(step)
    requires KeepsStatesApart(finish) && KeepsBlocksApart(finish)
    requires |bs| == |cs|
    requires forall j :: 0 <= j < |bs| && j != i ==> bs[j] == cs[j]
    requires if i < |bs| then bs[i] != cs[i] && bTail == cTail else bTail != cTail
    ensures finish(Fold(step, s, bs), bTail) != finish(Fold(step, s, cs), cTail)
  {
    if i < |bs| {
      FoldKeepsOneBlockApart(step, s, bs, cs, i);
    } else {
      assert bs == cs;
    }
  }
}
