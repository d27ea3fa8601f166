/** Blocks linked by the hash of their parent's header. */
module Chain {
  import opened Sums
  import opened Merkle

  datatype Header<D> = Header(version: int, parent: D, merkleRoot: D, time: int, nBits: int, nonce: int)

  datatype Block<D> = Block(header: Header<D>, txids: seq<D>)

  /** The digests in use: of two digests, of a header, and the all-zero value. */
  datatype Digests<!D> = Digests(pair: (D, D) -> D, header: Header<D> -> D, zero: D)

  function Hash<D>(g: Digests<D>, b: Block<D>): D { g.header(b.header) }

  function ParentHash<D>(g: Digests<D>, parent: Option<Block<D>>): D {
    match parent
    case None => g.zero
    case Some(p) => Hash(g, p)
  }

  predicate IsValid<D(==)>(g: Digests<D>, b: Block<D>, parent: Option<Block<D>>) {
    b.header.parent == ParentHash(g, parent) && b.header.merkleRoot == Commitment(g.pair, g.zero, b.txids)
  }

  function ParentOf<D>(c: seq<Block<D>>, i: nat): Option<Block<D>>
    requires i < |c|
  {
    if i == 0 then None else Some(c[i - 1])
  }

  ghost predicate ValidAt<D>(g: Digests<D>, c: seq<Block<D>>, i: nat)
    requires i < |c|
  {
    IsValid(g, c[i], ParentOf(c, i))
  }

  ghost predicate ValidChain<D>(g: Digests<D>, c: seq<Block<D>>) {
    && c != []
    && forall i :: 0 <= i < |c| ==> ValidAt(g, c, i)
  }

  /** No two headers collide, and none hashes to the value that marks the first block. */
  ghost predicate Binding<D(!new)>(g: Digests<D>) {
    && Injective(g.pair)
    && (forall a, b :: g.header(a) == g.header(b) ==> a == b)
    && (forall a :: g.header(a) != g.zero)
  }

  lemma ValidPrefix<D>(g: Digests<D>, c: seq<Block<D>>)
    requires ValidChain(g, c) && |c| > 1
    ensures ValidChain(g, c[..|c| - 1])
  {
    var d := c[..|c| - 1];
    forall i | 0 <= i < |d| ensures ValidAt(g, d, i) {
      assert ValidAt(g, c, i);
    }
  }

  /** Two valid chains with the same tip hash have the same length and the same header at every height. */
  lemma {:induction false} TipDeterminesHeaders<D(!new)>(g: Digests<D>, a: seq<Block<D>>, b: seq<Block<D>>)
    requires Binding(g) && ValidChain(g, a) && ValidChain(g, b)
    requires Hash(g, a[|a| - 1]) == Hash(g, b[|b| - 1])
    ensures |a| == |b| && forall i :: 0 <= i < |a| ==> a[i].header == b[i].header
    decreases |a|
  {
    var x, y := |a| - 1, |b| - 1;
    assert a[x].header == b[y].header;
    assert ValidAt(g, a, x);
    assert ValidAt(g, b, y);
    if x > 0 && y > 0 {
      ValidPrefix(g, a);
      ValidPrefix(g, b);
      TipDeterminesHeaders(g, a[..x], b[..y]);
      forall i | 0 <= i < |a| ensures a[i].header == b[i].header {
        if i < x { assert a[..x][i].header == b[..y][i].header; }
      }
    }
  }

  /** ... and the same transactions wherever they carry equally many. */
  lemma TipDeterminesTransactions<D(!new)>(g: Digests<D>, a: seq<Block<D>>, b: seq<Block<D>>, i: nat)
    requires Binding(g) && ValidChain(g, a) && ValidChain(g, b)
    requires Hash(g, a[|a| - 1]) == Hash(g, b[|b| - 1]) && i < |a|
    ensures i < |b| && (|a[i].txids| == |b[i].txids| <==> a[i] == b[i])
  {
    TipDeterminesHeaders(g, a, b);
    assert ValidAt(g, a, i);
    assert ValidAt(g, b, i);
    if |a[i].txids| == |b[i].txids| { RootBinds(g.pair, g.zero, a[i].txids, b[i].txids); }
  }

  /** Without equal counts it fails: a valid chain stays valid with its odd tip block padded. */
  lemma PaddedTipStaysValid<D(!new)>(g: Digests<D>, a: seq<Block<D>>)
    requires ValidChain(g, a) && |a[|a| - 1].txids| % 2 == 1 && |a[|a| - 1].txids| > 1
    ensures var tip := a[|a| - 1];
            var padded := a[|a| - 1 := tip.(txids := tip.txids + [tip.txids[|tip.txids| - 1]])];
            ValidChain(g, padded) && Hash(g, padded[|a| - 1]) == Hash(g, tip) && padded != a
  {
    var tip := a[|a| - 1];
    DuplicateKeepsRoot(g.pair, tip.txids);
    var padded := a[|a| - 1 := tip.(txids := tip.txids + [tip.txids[|tip.txids| - 1]])];
    forall i | 0 <= i < |padded| ensures ValidAt(g, padded, i) {
      assert ValidAt(g, a, i);
    }
    assert padded[|a| - 1].txids != tip.txids;
  }

  /** A first block is accepted exactly with the zero parent and its own root. */
  lemma FirstBlockIff<D>(g: Digests<D>, b: Block<D>)
    ensures ValidChain(g, [b]) <==>
            b.header.parent == g.zero && b.header.merkleRoot == Commitment(g.pair, g.zero, b.txids)
  {
    assert ValidChain(g, [b]) <==> ValidAt(g, [b], 0);
  }

  /** A block extends a valid chain exactly when it carries the digest of the tip's header and its own root. */
  lemma ExtendsIff<D>(g: Digests<D>, c: seq<Block<D>>, b: Block<D>)
    requires ValidChain(g, c)
    ensures ValidChain(g, c + [b]) <==>
              && b.header.parent == g.header(c[|c| - 1].header)
              && b.header.merkleRoot == Commitment(g.pair, g.zero, b.txids)
  {
    var d := c + [b];
    forall i | 0 <= i < |c| ensures ValidAt(g, d, i) { assert ValidAt(g, c, i); }
    assert ValidChain(g, d) <==> ValidAt(g, d, |c|);
  }
}
