/** An anchor's root by itself: over the heads in the order of their chains, the tree that splits its leaves
    at the largest power of two below their number. */
module PlainRoot {
  import opened Text
  import opened Merkle

  predicate IsPower(k: nat) { k == 1 || (k > 1 && k % 2 == 0 && IsPower(k / 2)) }

  /** The largest power of two below a number. */
  function Split(n: nat): (k: nat)
    requires n >= 2
    ensures IsPower(k) && k < n <= 2 * k
    decreases n
  {
    if n == 2 then 1 else 2 * Split((n + 1) / 2)
  }

  /** The hash of both halves' hashes, the left of which is full. */
  function SplitHash(h: Hasher, leaves: seq<string>): string
    requires leaves != []
    decreases |leaves|
  {
    if |leaves| == 1 then leaves[0]
    else var k := Split(|leaves|); h.sha(SplitHash(h, leaves[..k]) + SplitHash(h, leaves[k..]))
  }

  lemma {:induction false} HalveSum(h: Hasher, a: seq<string>, b: seq<string>)
    requires |a| % 2 == 0
    ensures Halve(h, a + b) == Halve(h, a) + Halve(h, b)
    decreases |a|
  {
    if a == [] {
      assert a + b == b;
    } else {
      assert (a + b)[2..] == a[2..] + b;
      HalveSum(h, a[2..], b);
    }
  }

  /** Level by level, or by splitting at the largest power of two: one hash. */
  lemma {:induction false} TopSplits(h: Hasher, level: seq<string>, k: nat)
    requires IsPower(k) && k < |level| <= 2 * k
    ensures Top(h, level) == h.sha(Top(h, level[..k]) + Top(h, level[k..]))
    decreases |level|
  {
    var left, right := level[..k], level[k..];
    if k == 1 {
      assert level[2..] == [];
      assert Halve(h, level) == [h.sha(level[0] + level[1])];
      assert left == [level[0]] && right == [level[1]];
    } else {
      assert level == left + right;
      HalveSum(h, left, right);
      assert Halve(h, level)[..k / 2] == Halve(h, left) && Halve(h, level)[k / 2..] == Halve(h, right);
      TopSplits(h, Halve(h, level), k / 2);
    }
  }

  lemma {:induction false} TopIsSplit(h: Hasher, leaves: seq<string>)
    requires leaves != []
    ensures Top(h, leaves) == SplitHash(h, leaves)
    decreases |leaves|
  {
    if |leaves| > 1 {
      var k := Split(|leaves|);
      TopSplits(h, leaves, k);
      TopIsSplit(h, leaves[..k]);
      TopIsSplit(h, leaves[k..]);
    }
  }

  /** By chain; within one chain by place, and then by hash. */
  ghost predicate Comes(a: Head, b: Head) {
    if a.chain != b.chain then Precedes(a.chain, b.chain)
    else a.place < b.place || (a.place == b.place && Precedes(a.digest, b.digest))
  }

  lemma {:induction false} SortsToItself(heads: seq<Head>)
    requires forall i, j | 0 <= i < j < |heads| :: Comes(heads[i], heads[j])
    ensures Sort(heads) == heads
  {
    forall i, j | 0 <= i < j < |heads| ensures HeadBelow(heads[i], heads[j]) {
      BelowExactly(heads[i].chain, heads[j].chain);
      BelowExactly(heads[i].digest, heads[j].digest);
    }
    InOrderUnique(Sort(heads), heads);
  }

  /** The root over heads in the order of their chains. */
  lemma RootOfAscending(h: Hasher, heads: seq<Head>)
    requires forall i, j | 0 <= i < j < |heads| :: Comes(heads[i], heads[j])
    ensures Root(h, heads)
            == if heads == [] then None
               else Some(SplitHash(h,
                 seq(|heads|, i requires 0 <= i < |heads| => h.sha(h.json(HeadDocument(heads[i]))))))
  {
    SortsToItself(heads);
    if heads != [] {
      var leaves := seq(|heads|, i requires 0 <= i < |heads| => h.sha(h.json(HeadDocument(heads[i]))));
      assert leaves == Leaves(h, heads);
      TopIsSplit(h, leaves);
    }
  }
}
