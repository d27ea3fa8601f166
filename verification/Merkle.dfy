/** The Merkle root of a block's transactions: an in-place reduction, and the tree it computes. */
module Merkle {
  import opened Sums

  /** How many digests level k of the tree has over n leaves. */
  function LevelSize(n: nat, k: nat): (r: nat)
    ensures n > 0 ==> r > 0
  {
    if k == 0 then n else (LevelSize(n, k - 1) + 1) / 2
  }

  /** One level from the one below: neighbours in their order, the last of an odd number twice. */
  function Paired<D>(h: (D, D) -> D, xs: seq<D>): (r: seq<D>)
    ensures |r| == (|xs| + 1) / 2
  {
    if xs == [] then []
    else if |xs| == 1 then [h(xs[0], xs[0])]
    else [h(xs[0], xs[1])] + Paired(h, xs[2..])
  }

  /** Which digests a pair is made of: neighbours in their order, the last of an odd number with itself. */
  lemma {:induction false} PairIs<D>(h: (D, D) -> D, xs: seq<D>, i: nat)
    requires 2 * i < |xs|
    ensures i < |Paired(h, xs)|
    ensures Paired(h, xs)[i] == if 2 * i + 1 < |xs| then h(xs[2 * i], xs[2 * i + 1]) else h(xs[2 * i], xs[2 * i])
  {
    if i > 0 { PairIs(h, xs[2..], i - 1); }
  }

  lemma {:induction false} PairsConcat<D>(h: (D, D) -> D, xs: seq<D>, ys: seq<D>)
    requires |xs| % 2 == 0
    ensures Paired(h, xs + ys) == Paired(h, xs) + Paired(h, ys)
  {
    if xs == [] {
      assert xs + ys == ys;
    } else {
      assert (xs + ys)[2..] == xs[2..] + ys;
      PairsConcat(h, xs[2..], ys);
    }
  }

  /** Level k of the tree over the leaves. */
  function Level<D>(h: (D, D) -> D, leaves: seq<D>, k: nat): (r: seq<D>)
    ensures |r| == LevelSize(|leaves|, k)
  {
    if k == 0 then leaves else Paired(h, Level(h, leaves, k - 1))
  }

  function Height(n: nat): nat {
    if n <= 1 then 0 else 1 + Height((n + 1) / 2)
  }

  function Pow2(k: nat): (r: nat)
    ensures r >= 1
  {
    if k == 0 then 1 else 2 * Pow2(k - 1)
  }

  /** Height is the ceiling of the binary logarithm. */
  lemma {:induction false} HeightIsCeilLog2(n: nat)
    requires n > 0
    ensures n <= Pow2(Height(n))
    ensures n > 1 ==> Pow2(Height(n) - 1) < n
  {
    if n > 1 {
      HeightIsCeilLog2((n + 1) / 2);
    }
  }

  lemma {:induction false} LevelSizeShift(n: nat, k: nat)
    ensures LevelSize(n, k + 1) == LevelSize((n + 1) / 2, k)
  {
    if k > 0 { LevelSizeShift(n, k - 1); }
  }

  /** The levels above the leaves shrink to one node at the height, and not before. */
  lemma {:induction false} HeightIsFirstSingle(n: nat, k: nat)
    requires n > 0
    ensures LevelSize(n, k) == 1 <==> k >= Height(n)
    decreases n, k
  {
    if n == 1 {
      if k > 0 { HeightIsFirstSingle(1, k - 1); }
    } else if k > 0 {
      LevelSizeShift(n, k - 1);
      HeightIsFirstSingle((n + 1) / 2, k - 1);
    }
  }

  /** The root: the single digest at the top. */
  function Root<D>(h: (D, D) -> D, leaves: seq<D>): D
    requires leaves != []
  {
    HeightIsFirstSingle(|leaves|, Height(|leaves|));
    Level(h, leaves, Height(|leaves|))[0]
  }

  /** What a block commits to: all zeroes when it has no transactions. */
  function Commitment<D>(h: (D, D) -> D, zero: D, txids: seq<D>): D {
    if txids == [] then zero else Root(h, txids)
  }

  /** One round: slot i is overwritten once its own inputs, 2i and 2i + 1, have been read. */
  method Round<D>(h: (D, D) -> D, padded: seq<D>, ghost level: seq<D>) returns (hashes: seq<D>)
    requires |padded| == |level| + |level| % 2
    requires forall j :: 0 <= j < |padded| ==> padded[j] == level[Min(j, |level| - 1)]
    ensures hashes == Paired(h, level)
  {
    hashes := padded;
    for i := 0 to |hashes| / 2
      invariant |hashes| == |padded|
      invariant forall j :: 0 <= j < i ==> hashes[j] == Paired(h, level)[j]
      invariant forall j :: 2 * i <= j < |hashes| ==> hashes[j] == padded[j]
    {
      PairIs(h, level, i);
      var left, right := hashes[2 * i], hashes[2 * i + 1];
      hashes := hashes[i := h(left, right)];
    }
    hashes := hashes[..|hashes| / 2];
  }

  /** The rounds of the loop overwrite the front of the vector while its back is still to be read. */
  method MerkleRoot<D>(h: (D, D) -> D, zero: D, txids: seq<D>) returns (root: D, ghost rounds: nat)
    ensures root == Commitment(h, zero, txids)
    ensures |txids| == 0 ==> root == zero
    ensures |txids| == 1 ==> root == txids[0]
    ensures |txids| == 2 ==> root == h(txids[0], txids[1])
    ensures txids != [] ==> rounds == Height(|txids|)
  {
    rounds := 0;
    if txids == [] {
      return zero, 0;
    }
    var hashes := txids;
    while |hashes| > 1
      invariant hashes == Level(h, txids, rounds) && rounds <= Height(|txids|)
      decreases |hashes|
    {
      HeightIsFirstSingle(|txids|, rounds);
      ghost var level := hashes;
      if |hashes| % 2 == 1 {
        hashes := hashes + [hashes[|hashes| - 1]];
      }
      hashes := Round(h, hashes, level);
      rounds := rounds + 1;
    }
    HeightIsFirstSingle(|txids|, rounds);
    root := hashes[0];
    if 0 < |txids| <= 2 {
      SmallCommitments(h, zero, txids[0], txids[|txids| - 1]);
      assert txids == if |txids| == 1 then [txids[0]] else [txids[0], txids[1]];
    }
  }

  // ---------------------------------------------------------------- binding

  ghost predicate Injective<D(!new)>(h: (D, D) -> D) {
    forall a, b, c, d :: h(a, b) == h(c, d) ==> a == c && b == d
  }

  lemma {:induction false} PairsBind<D(!new)>(h: (D, D) -> D, xs: seq<D>, ys: seq<D>)
    requires Injective(h) && |xs| == |ys| && Paired(h, xs) == Paired(h, ys)
    ensures xs == ys
  {
    if xs != [] {
      assert Paired(h, xs)[0] == Paired(h, ys)[0] && Paired(h, xs)[1..] == Paired(h, ys)[1..];
      if |xs| > 1 {
        PairsBind(h, xs[2..], ys[2..]);
        assert xs == [xs[0], xs[1]] + xs[2..] && ys == [ys[0], ys[1]] + ys[2..];
      }
    }
  }

  lemma {:induction false} LevelBinds<D(!new)>(h: (D, D) -> D, xs: seq<D>, ys: seq<D>, k: nat)
    requires Injective(h) && |xs| == |ys| && Level(h, xs, k) == Level(h, ys, k)
    ensures xs == ys
  {
    if k > 0 {
      PairsBind(h, Level(h, xs, k - 1), Level(h, ys, k - 1));
      LevelBinds(h, xs, ys, k - 1);
    }
  }

  /** With as many transactions, equal roots mean the same transactions in the same order. */
  lemma RootBinds<D(!new)>(h: (D, D) -> D, zero: D, xs: seq<D>, ys: seq<D>)
    requires Injective(h) && |xs| == |ys|
    ensures Commitment(h, zero, xs) == Commitment(h, zero, ys) <==> xs == ys
  {
    if xs != [] && Root(h, xs) == Root(h, ys) {
      var k := Height(|xs|);
      HeightIsFirstSingle(|xs|, k);
      assert Level(h, xs, k) == [Root(h, xs)] && Level(h, ys, k) == [Root(h, ys)];
      LevelBinds(h, xs, ys, k);
    }
  }

  lemma PaddingKeepsPairs<D>(h: (D, D) -> D, front: seq<D>, last: D)
    requires |front| % 2 == 0
    ensures Paired(h, front + [last]) == Paired(h, front + [last, last])
  {
    PairsConcat(h, front, [last]);
    PairsConcat(h, front, [last, last]);
  }

  /** The count matters: repeating the last of an odd number of transactions gives the same root. */
  lemma DuplicateKeepsRoot<D>(h: (D, D) -> D, xs: seq<D>)
    requires |xs| % 2 == 1 && |xs| > 1
    ensures Root(h, xs + [xs[|xs| - 1]]) == Root(h, xs)
  {
    var front, last := xs[..|xs| - 1], xs[|xs| - 1];
    PaddingKeepsPairs(h, front, last);
    assert xs == front + [last] && xs + [last] == front + [last, last];
    PairsHaveTheRoot(h, xs);
    PairsHaveTheRoot(h, xs + [last]);
  }

  // ---------------------------------------------------------------- the root by itself

  lemma {:induction false} LevelOfPairs<D>(h: (D, D) -> D, xs: seq<D>, k: nat)
    ensures Level(h, xs, k + 1) == Level(h, Paired(h, xs), k)
  {
    if k > 0 { LevelOfPairs(h, xs, k - 1); }
  }

  lemma HeightStep(n: nat) returns (k: nat)
    requires n > 1
    ensures k == Height((n + 1) / 2) && Height(n) == k + 1
  {
    k := Height((n + 1) / 2);
  }

  lemma RootIsTheTop<D>(h: (D, D) -> D, xs: seq<D>, k: nat)
    requires xs != [] && k == Height(|xs|)
    ensures Level(h, xs, k) == [Root(h, xs)]
  {
    HeightIsFirstSingle(|xs|, k);
  }

  /** The law of the levels: more than one digest have the root of their pairs. */
  lemma PairsHaveTheRoot<D>(h: (D, D) -> D, xs: seq<D>)
    requires |xs| > 1
    ensures Root(h, xs) == Root(h, Paired(h, xs))
  {
    var k := HeightStep(|xs|);
    var pairs := Paired(h, xs);
    RootIsTheTop(h, xs, k + 1);
    RootIsTheTop(h, pairs, k);
    LevelOfPairs(h, xs, k);
    assert [Root(h, xs)] == [Root(h, pairs)];
  }

  /** No transactions commit to zero, one to itself, two to the digest of the first followed by the second. */
  lemma SmallCommitments<D>(h: (D, D) -> D, zero: D, a: D, b: D)
    ensures Commitment(h, zero, []) == zero && Commitment(h, zero, [a]) == a && Commitment(h, zero, [a, b]) == h(a, b)
  {
    PairsHaveTheRoot(h, [a, b]);
    var p := Paired(h, [a, b]);
    PairIs(h, [a, b], 0);
    assert p == [h(a, b)] && Height(1) == 0;
    assert Root(h, p) == p[0] && Root(h, [a]) == a;
  }

  /** The tree from the top: the left half is full, the right one is the rest, and a missing half repeats the other. */
  function TopDown<D>(h: (D, D) -> D, xs: seq<D>, k: nat): D
    requires 0 < |xs| <= Pow2(k)
    decreases k
  {
    if k == 0 then xs[0]
    else
      var half := Pow2(k - 1);
      if |xs| <= half then h(TopDown(h, xs, k - 1), TopDown(h, xs, k - 1))
      else h(TopDown(h, xs[..half], k - 1), TopDown(h, xs[half..], k - 1))
  }

  lemma TopDownOfHalves<D>(h: (D, D) -> D, left: seq<D>, right: seq<D>, k: nat)
    requires |left| == Pow2(k) && 0 < |right| <= Pow2(k)
    ensures TopDown(h, left + right, k + 1) == h(TopDown(h, left, k), TopDown(h, right, k))
  {
    assert (left + right)[..|left|] == left && (left + right)[|left|..] == right;
  }

  lemma {:induction false} TopDownOfPairs<D>(h: (D, D) -> D, xs: seq<D>, k: nat)
    requires 0 < |xs| <= Pow2(k + 1)
    ensures 0 < |Paired(h, xs)| <= Pow2(k) && TopDown(h, xs, k + 1) == TopDown(h, Paired(h, xs), k)
    decreases k, 1
  {
    if k > 0 {
      if |xs| <= Pow2(k) {
        TopDownOfPairs(h, xs, k - 1);
      } else {
        TopDownOfFullPairs(h, xs[..Pow2(k)], xs[Pow2(k)..], k);
        assert xs == xs[..Pow2(k)] + xs[Pow2(k)..];
      }
    }
  }

  lemma {:induction false} TopDownOfFullPairs<D>(h: (D, D) -> D, left: seq<D>, right: seq<D>, k: nat)
    requires k > 0 && |left| == Pow2(k) && 0 < |right| <= Pow2(k)
    ensures 0 < |Paired(h, left + right)| <= Pow2(k)
    ensures TopDown(h, left + right, k + 1) == TopDown(h, Paired(h, left + right), k)
    decreases k, 0
  {
    TopDownOfPairs(h, left, k - 1);
    TopDownOfPairs(h, right, k - 1);
    PairsConcat(h, left, right);
    TopDownOfHalves(h, left, right, k);
    TopDownOfHalves(h, Paired(h, left), Paired(h, right), k - 1);
  }

  /** The root is that of the tree drawn from the top, as high as the ceiling of the binary logarithm. */
  lemma {:induction false} RootIsTopDown<D>(h: (D, D) -> D, xs: seq<D>)
    requires xs != []
    ensures |xs| <= Pow2(Height(|xs|)) && Root(h, xs) == TopDown(h, xs, Height(|xs|))
    decreases |xs|
  {
    HeightIsCeilLog2(|xs|);
    if |xs| > 1 {
      PairsHaveTheRoot(h, xs);
      RootIsTopDown(h, Paired(h, xs));
      TopDownOfPairs(h, xs, Height(|xs|) - 1);
    }
  }

  lemma HeightOfPow2(k: nat)
    ensures Height(Pow2(k)) == k
  {
    if k > 0 { HeightOfPow2(k - 1); }
  }

  /** Two full halves: the root is the digest of the left one's root followed by the right one's. */
  lemma RootOfHalves<D>(h: (D, D) -> D, xs: seq<D>, ys: seq<D>, k: nat)
    requires |xs| == |ys| == Pow2(k)
    ensures Root(h, xs + ys) == h(Root(h, xs), Root(h, ys))
  {
    HeightOfPow2(k);
    HeightOfPow2(k + 1);
    RootIsTopDown(h, xs);
    RootIsTopDown(h, ys);
    RootIsTopDown(h, xs + ys);
    TopDownOfHalves(h, xs, ys, k);
  }
}
