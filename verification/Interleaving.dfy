/** Merging what two transactions wrote, and what a merge leaves unchanged. */
module Interleaving {
  import opened Text
  import opened Merkle
  import opened Ledger
  import opened Integrity
  import opened Writers

  predicate Apart(a: seq<Entry>, b: seq<Entry>) {
    forall x, y | x in a && y in b :: x.body.pos != y.body.pos
  }

  predicate AllBelow(a: seq<Entry>, b: seq<Entry>) {
    forall x, y | x in a && y in b :: x.body.pos < y.body.pos
  }

  lemma {:induction false} MergeMembers(a: seq<Entry>, b: seq<Entry>, e: Entry)
    ensures e in Merge(a, b) <==> e in a || e in b
    decreases |a| + |b|
  {
    if a != [] && b != [] {
      var x, y := a[|a| - 1], b[|b| - 1];
      assert a == a[..|a| - 1] + [x] && b == b[..|b| - 1] + [y];
      if x.body.pos < y.body.pos {
        MergeMembers(a, b[..|b| - 1], e);
      } else {
        MergeMembers(a[..|a| - 1], b, e);
      }
    }
  }

  lemma RisingFront(rows: seq<Entry>)
    requires rows != [] && Rising(rows)
    ensures Rising(rows[..|rows| - 1])
    ensures forall e | e in rows[..|rows| - 1] :: e.body.pos < rows[|rows| - 1].body.pos
  {
  }

  lemma RisingWith(rows: seq<Entry>, e: Entry)
    requires Rising(rows) && e.body.pos > 0 && forall x | x in rows :: x.body.pos < e.body.pos
    ensures Rising(rows + [e])
  {
    RisingSnoc(rows, e);
  }

  lemma {:induction false} MergeRises(a: seq<Entry>, b: seq<Entry>)
    requires Rising(a) && Rising(b) && Apart(a, b)
    ensures Rising(Merge(a, b))
    decreases |a| + |b|
  {
    if a != [] && b != [] {
      var x, y := a[|a| - 1], b[|b| - 1];
      RisingFront(a);
      RisingFront(b);
      if x.body.pos < y.body.pos {
        MergeRises(a, b[..|b| - 1]);
        forall e | e in Merge(a, b[..|b| - 1]) ensures e.body.pos < y.body.pos {
          MergeMembers(a, b[..|b| - 1], e);
          if e in a && e != x { assert e in a[..|a| - 1]; }
        }
        RisingWith(Merge(a, b[..|b| - 1]), y);
      } else {
        MergeRises(a[..|a| - 1], b);
        assert x.body.pos != y.body.pos;
        forall e | e in Merge(a[..|a| - 1], b) ensures e.body.pos < x.body.pos {
          MergeMembers(a[..|a| - 1], b, e);
          if e in b && e != y { assert e in b[..|b| - 1]; }
        }
        RisingWith(Merge(a[..|a| - 1], b), x);
      }
    }
  }

  lemma ChainGrowsRight(m: seq<Entry>, a: seq<Entry>, q: seq<Entry>, y: Entry, c: string)
    requires Chain(m, c) == Chain(a, c) + Chain(q, c)
    ensures Chain(m + [y], c) == Chain(a, c) + Chain(q + [y], c)
  {
    ChainSnoc(m, y, c);
    ChainSnoc(q, y, c);
  }

  lemma ChainGrowsLeft(m: seq<Entry>, p: seq<Entry>, x: Entry, b: seq<Entry>, c: string)
    requires Chain(m, c) == Chain(p, c) + Chain(b, c)
    requires ChainName(x.body) == c ==> Chain(b, c) == []
    ensures Chain(m + [x], c) == Chain(p + [x], c) + Chain(b, c)
  {
    ChainSnoc(m, x, c);
    ChainSnoc(p, x, c);
  }

  /** When a chain's rows in `b` all follow its rows in `a`, the merged chain is one after the other. */
  lemma {:induction false} MergeChain(a: seq<Entry>, b: seq<Entry>, c: string)
    requires Rising(b) && AllBelow(Chain(a, c), Chain(b, c))
    ensures Chain(Merge(a, b), c) == Chain(a, c) + Chain(b, c)
    decreases |a| + |b|
  {
    if a == [] {
      assert Chain(b, c) == [] + Chain(b, c);
    } else if b == [] {
      assert Chain(a, c) == Chain(a, c) + [];
    } else if a[|a| - 1].body.pos < b[|b| - 1].body.pos {
      var q, y := b[..|b| - 1], b[|b| - 1];
      assert b == q + [y];
      RisingFront(b);
      ChainPrefix(q, y, c);
      AllBelowPart(Chain(a, c), Chain(q, c), Chain(a, c), Chain(b, c));
      MergeChain(a, q, c);
      ChainGrowsRight(Merge(a, q), a, q, y, c);
    } else {
      var p, x := a[..|a| - 1], a[|a| - 1];
      assert a == p + [x];
      if ChainName(x.body) == c { NothingAfter(a, b, c); }
      ChainPrefix(p, x, c);
      AllBelowPart(Chain(p, c), Chain(b, c), Chain(a, c), Chain(b, c));
      MergeChain(p, b, c);
      ChainGrowsLeft(Merge(p, b), p, x, b, c);
    }
  }

  lemma ChainPrefix(rows: seq<Entry>, e: Entry, c: string)
    ensures Chain(rows, c) <= Chain(rows + [e], c)
  {
    ChainSnoc(rows, e, c);
  }

  lemma NothingAfter(a: seq<Entry>, b: seq<Entry>, c: string)
    requires a != [] && b != [] && Rising(b) && AllBelow(Chain(a, c), Chain(b, c))
    requires ChainName(a[|a| - 1].body) == c && b[|b| - 1].body.pos <= a[|a| - 1].body.pos
    ensures Chain(b, c) == []
  {
    ChainMembers(a, c, a[|a| - 1]);
    if Chain(b, c) != [] {
      ChainMembers(b, c, Chain(b, c)[0]);
    }
  }

  lemma AllBelowPart(p: seq<Entry>, q: seq<Entry>, a: seq<Entry>, b: seq<Entry>)
    requires AllBelow(a, b) && p <= a && q <= b
    ensures AllBelow(p, q)
  {
    assert forall x | x in p :: x in a;
    assert forall x | x in q :: x in b;
  }

  lemma {:induction false} AnchorsOfSum(x: seq<Entry>, y: seq<Entry>)
    ensures AnchorsOf(x + y) == AnchorsOf(x) + AnchorsOf(y)
  {
    if y == [] {
      assert x + y == x;
    } else {
      var front, last := y[..|y| - 1], y[|y| - 1];
      assert (x + y)[..|x + y| - 1] == x + front && (x + y)[|x + y| - 1] == last;
      AnchorsOfSum(x, front);
    }
  }

  // --- the heads of a window depend on its entries alone ---------------------------------------------

  /** The run chains' entries above `lo` and at or below `hi` are the same in both. */
  ghost predicate SameWindow(a: seq<Entry>, b: seq<Entry>, lo: int, hi: int) {
    forall e: Entry | ChainName(e.body) != "" && lo < e.body.pos <= hi :: e in a <==> e in b
  }

  lemma NewestUnique(a: seq<Item>, b: seq<Item>)
    requires a != [] && b != [] && forall x :: x in a <==> x in b
    ensures Newest(a) == Newest(b)
  {
    var x, y := Newest(a), Newest(b);
    assert x in b && y in a;
    assert ItemBelow(x, y) && ItemBelow(y, x);
    if x.pos == y.pos && x.place == y.place {
      BelowAntisymmetric(x.digest, y.digest);
    }
  }

  /** An item in a window is the item of an entry there. */
  lemma WindowItem(rows: seq<Entry>, c: string, lo: int, hi: int, x: Item) returns (e: Entry)
    requires x in Within(Items(rows, c), lo, hi)
    ensures e in rows && ChainName(e.body) == c && ItemOf(e) == x && lo < e.body.pos <= hi
  {
    WithinMembers(Items(rows, c), lo, hi, x);
    ItemsOfChain(rows, c);
    var i :| 0 <= i < |Items(rows, c)| && Items(rows, c)[i] == x;
    e := Chain(rows, c)[i];
    ChainMembers(rows, c, e);
  }

  lemma EntryItem(rows: seq<Entry>, e: Entry, lo: int, hi: int)
    requires e in rows && lo < e.body.pos <= hi
    ensures ItemOf(e) in Within(Items(rows, ChainName(e.body)), lo, hi)
  {
    var c := ChainName(e.body);
    ChainMembers(rows, c, e);
    ItemsOfChain(rows, c);
    var i :| 0 <= i < |Chain(rows, c)| && Chain(rows, c)[i] == e;
    assert Items(rows, c)[i] == ItemOf(e);
    WithinMembers(Items(rows, c), lo, hi, ItemOf(e));
  }

  lemma WindowItemMoves(a: seq<Entry>, b: seq<Entry>, c: string, lo: int, hi: int, x: Item)
    requires SameWindow(a, b, lo, hi) && c != "" && x in Within(Items(a, c), lo, hi)
    ensures x in Within(Items(b, c), lo, hi)
  {
    var e := WindowItem(a, c, lo, hi, x);
    EntryItem(b, e, lo, hi);
  }

  lemma SameWindowSwaps(a: seq<Entry>, b: seq<Entry>, lo: int, hi: int)
    requires SameWindow(a, b, lo, hi)
    ensures SameWindow(b, a, lo, hi)
  {
  }

  lemma SameHeadAt(a: seq<Entry>, b: seq<Entry>, c: string, lo: int, hi: int)
    requires SameWindow(a, b, lo, hi) && c in Heads(a, lo, hi)
    ensures c in Heads(b, lo, hi) && Heads(b, lo, hi)[c] == Heads(a, lo, hi)[c]
  {
    SameWindowSwaps(a, b, lo, hi);
    var p, q := Within(Items(a, c), lo, hi), Within(Items(b, c), lo, hi);
    WindowItemMoves(a, b, c, lo, hi, p[0]);
    InHeads(b, c, lo, hi);
    forall x ensures x in p <==> x in q {
      if x in p { WindowItemMoves(a, b, c, lo, hi, x); }
      if x in q { WindowItemMoves(b, a, c, lo, hi, x); }
    }
    NewestUnique(p, q);
  }

  /** One window's entries, one root, whatever else the two lists hold and in whatever order. */
  lemma SameRoot(h: Hasher, a: seq<Entry>, b: seq<Entry>, lo: int, hi: int)
    requires SameWindow(a, b, lo, hi)
    ensures CoveredRoot(h, a, lo, hi) == CoveredRoot(h, b, lo, hi)
  {
    SameWindowSwaps(a, b, lo, hi);
    var p, q := Heads(a, lo, hi), Heads(b, lo, hi);
    forall c | c in p ensures c in q && q[c] == p[c] { SameHeadAt(a, b, c, lo, hi); }
    forall c | c in q ensures c in p { SameHeadAt(b, a, c, lo, hi); }
    assert p == q;
  }
}
