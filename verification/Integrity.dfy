/** What an intact ledger is, said of the whole ledger at once, and that the walk finds nothing
    exactly then. */
module Integrity {
  import opened Text
  import opened Merkle
  import opened Ledger

  ghost predicate Rising(rows: seq<Entry>) {
    && (forall i | 0 <= i < |rows| :: 0 < rows[i].body.pos)
    && (forall i, j | 0 <= i < j < |rows| :: rows[i].body.pos < rows[j].body.pos)
  }

  ghost predicate OldRuleFirst(rows: seq<Entry>) {
    forall i, j | 0 <= i < j < |rows| :: rows[j].body.chainSeq.None? ==> rows[i].body.chainSeq.None?
  }

  /** Places are 1, 2, ... and every entry names the hash of the one before it. */
  ghost predicate LinkedAt(chain: seq<Entry>, k: nat)
    requires k < |chain|
  {
    && Place(chain[k].body) == k + 1
    && chain[k].body.prevHash == if k == 0 then None else Some(chain[k - 1].hash)
  }

  ghost predicate Linked(chain: seq<Entry>) {
    forall k | 0 <= k < |chain| :: LinkedAt(chain, k)
  }

  ghost predicate AllLinked(rows: seq<Entry>) {
    forall c: string :: Linked(Chain(rows, c))
  }

  ghost predicate AllHashed(h: Hasher, rows: seq<Entry>) {
    forall i | 0 <= i < |rows| :: HashOf(h, EntryDocument(rows[i].body)) == rows[i].hash
  }

  /** The anchors of a tenant's chain, oldest first. */
  function AnchorsOf(chain: seq<Entry>): seq<Entry> {
    if chain == [] then []
    else
      var last := chain[|chain| - 1];
      AnchorsOf(chain[..|chain| - 1]) + (if IsAnchor(last.body) then [last] else [])
  }

  function Anchors(rows: seq<Entry>): seq<Entry> { AnchorsOf(Chain(rows, "")) }

  /** What anchor `k` begins above: the bound of the anchor before it. */
  function From(anchors: seq<Entry>, k: nat): int
    requires k <= |anchors|
  {
    if k == 0 || anchors[k - 1].body.through.None? then 0 else anchors[k - 1].body.through.value
  }

  /** Anchor `k`'s root is the root over the newest entry per run chain in its window, read from
      the whole ledger. */
  ghost predicate AnchorHolds(h: Hasher, rows: seq<Entry>, k: nat)
    requires k < |Anchors(rows)|
  {
    var lo, b := From(Anchors(rows), k), Anchors(rows)[k].body;
    && b.through.Some?
    && lo <= b.through.value < b.pos
    && CoveredRoot(h, rows, lo, b.through.value) == b.contentDigest
  }

  ghost predicate AnchorsHold(h: Hasher, rows: seq<Entry>) {
    forall k | 0 <= k < |Anchors(rows)| :: AnchorHolds(h, rows, k)
  }

  ghost predicate Intact(h: Hasher, rows: seq<Entry>) {
    && Rising(rows)
    && OldRuleFirst(rows)
    && AllLinked(rows)
    && AllHashed(h, rows)
    && AnchorsHold(h, rows)
  }

  // --- one more entry --------------------------------------------------------------------------

  lemma RisingSnoc(rows: seq<Entry>, e: Entry)
    ensures Rising(rows + [e]) <==> Rising(rows) && Reached(rows) < e.body.pos
  {
    var all := rows + [e];
    if Rising(all) {
      forall i | 0 <= i < |rows| ensures rows[i].body.pos < e.body.pos {
        assert all[i].body.pos < all[|rows|].body.pos;
      }
      assert all[|rows|].body.pos > 0;
      assert Rising(rows) by {
        assert forall i | 0 <= i < |rows| :: rows[i] == all[i];
      }
    }
    if Rising(rows) && Reached(rows) < e.body.pos {
      forall i, j | 0 <= i < j < |all| ensures all[i].body.pos < all[j].body.pos {
        assert all[i] == rows[i] && all[i] in rows;
      }
    }
  }

  lemma OldRuleSnoc(rows: seq<Entry>, e: Entry)
    ensures OldRuleFirst(rows + [e]) <==> OldRuleFirst(rows) && !(e.body.chainSeq.None? && Ruled(rows))
  {
    var all := rows + [e];
    assert all[|rows|] == e && forall i | 0 <= i < |rows| :: all[i] == rows[i];
    if OldRuleFirst(rows) && !(e.body.chainSeq.None? && Ruled(rows)) {
      forall i, j | 0 <= i < j < |all| && all[j].body.chainSeq.None? ensures all[i].body.chainSeq.None? {
        assert all[i] in rows;
      }
    }
  }

  lemma LinkedSnoc(chain: seq<Entry>, e: Entry)
    ensures Linked(chain + [e]) <==>
            Linked(chain) && Place(e.body) == |chain| + 1
            && e.body.prevHash == if chain == [] then None else Some(chain[|chain| - 1].hash)
  {
    var all := chain + [e];
    forall k | 0 <= k < |chain| ensures LinkedAt(all, k) <==> LinkedAt(chain, k) {}
    if Linked(all) {
      forall k | 0 <= k < |chain| ensures LinkedAt(chain, k) { assert LinkedAt(all, k); }
      assert LinkedAt(all, |chain|);
    }
  }

  lemma AllLinkedSnoc(rows: seq<Entry>, e: Entry)
    ensures AllLinked(rows + [e]) <==> AllLinked(rows) && Linked(Chain(rows, ChainName(e.body)) + [e])
  {
    var name := ChainName(e.body);
    forall c: string ensures Chain(rows + [e], c) == if c == name then Chain(rows, c) + [e] else Chain(rows, c) {
      ChainSnoc(rows, e, c);
    }
    if AllLinked(rows + [e]) {
      assert Linked(Chain(rows + [e], name));
      LinkedSnoc(Chain(rows, name), e);
      forall c: string ensures Linked(Chain(rows, c)) {
        assert Linked(Chain(rows + [e], c));
      }
    }
  }

  lemma WithinSnoc(items: seq<Item>, x: Item, lo: int, hi: int)
    requires hi < x.pos
    ensures Within(items + [x], lo, hi) == Within(items, lo, hi)
  {
    AboveSnoc(items, x, lo);
    var above := Above(items, lo);
    assert (above + [x])[..|above|] == above;
    if lo >= x.pos {
      assert above + [] == above;
    }
  }

  /** An entry above a window changes nothing in it. */
  lemma HeadsSnoc(rows: seq<Entry>, e: Entry, lo: int, hi: int)
    requires hi < e.body.pos
    ensures Heads(rows + [e], lo, hi) == Heads(rows, lo, hi)
  {
    var a, b := Heads(rows + [e], lo, hi), Heads(rows, lo, hi);
    forall c: string ensures Within(Items(rows + [e], c), lo, hi) == Within(Items(rows, c), lo, hi) {
      ChainSnoc(rows, e, c);
      if ChainName(e.body) == c {
        WithinSnoc(Items(rows, c), ItemOf(e), lo, hi);
      } else {
        assert Items(rows + [e], c) == Items(rows, c);
      }
    }
    forall c | c in a ensures c in b { InHeads(rows, c, lo, hi); }
    forall c | c in b ensures c in a { InHeads(rows + [e], c, lo, hi); }
  }

  lemma InHeads(rows: seq<Entry>, c: string, lo: int, hi: int)
    requires c != "" && Within(Items(rows, c), lo, hi) != []
    ensures c in Heads(rows, lo, hi)
  {
    var x := Within(Items(rows, c), lo, hi)[0];
    WithinMembers(Items(rows, c), lo, hi, x);
    NameOfItem(rows, c, x);
  }

  lemma AnchorsSnoc(rows: seq<Entry>, e: Entry)
    ensures Anchors(rows + [e]) == Anchors(rows) + (if IsAnchor(e.body) then [e] else [])
  {
    ChainSnoc(rows, e, "");
    var tenants := Chain(rows, "");
    if ChainName(e.body) == "" {
      assert (tenants + [e])[..|tenants|] == tenants;
    } else {
      assert Chain(rows + [e], "") == tenants;
    }
  }

  /** While every anchor so far has its bound, the walk's bound is the newest anchor's. */
  lemma {:induction false} AnchoredIsNewest(h: Hasher, rows: seq<Entry>)
    requires Rising(rows) && AnchorsHold(h, rows)
    ensures Anchored(rows) == From(Anchors(rows), |Anchors(rows)|)
  {
    if rows != [] {
      var before, e := rows[..|rows| - 1], rows[|rows| - 1];
      assert rows == before + [e];
      RisingSnoc(before, e);
      AnchorsSnoc(before, e);
      AnchorsHoldBefore(h, before, e);
      AnchoredIsNewest(h, before);
      if IsAnchor(e.body) {
        var k := |Anchors(before)|;
        assert AnchorHolds(h, rows, k);
        assert From(Anchors(rows), k) == From(Anchors(before), k);
        assert BoundedAnchor(before, e);
      }
    }
  }

  lemma AnchorKept(h: Hasher, rows: seq<Entry>, e: Entry, k: nat)
    requires Rising(rows + [e]) && k < |Anchors(rows)|
    ensures |Anchors(rows)| <= |Anchors(rows + [e])|
    ensures AnchorHolds(h, rows + [e], k) <==> AnchorHolds(h, rows, k)
  {
    AnchorsSnoc(rows, e);
    var a, b := Anchors(rows), Anchors(rows + [e]);
    assert a[k] == b[k] && From(a, k) == From(b, k);
    AnchorMembers(Chain(rows, ""), a[k]);
    ChainMembers(rows, "", a[k]);
    RisingSnoc(rows, e);
    assert a[k].body.pos <= Reached(rows);
    if a[k].body.through.Some? && a[k].body.through.value < a[k].body.pos {
      HeadsSnoc(rows, e, From(a, k), a[k].body.through.value);
    }
  }

  lemma {:induction false} AnchorMembers(chain: seq<Entry>, e: Entry)
    ensures e in AnchorsOf(chain) <==> e in chain && IsAnchor(e.body)
  {
    if chain != [] {
      AnchorMembers(chain[..|chain| - 1], e);
      assert chain == chain[..|chain| - 1] + [chain[|chain| - 1]];
    }
  }

  lemma AnchorsHoldBefore(h: Hasher, rows: seq<Entry>, e: Entry)
    requires Rising(rows + [e]) && AnchorsHold(h, rows + [e])
    ensures AnchorsHold(h, rows)
  {
    forall k | 0 <= k < |Anchors(rows)| ensures AnchorHolds(h, rows, k) {
      AnchorKept(h, rows, e, k);
      assert AnchorHolds(h, rows + [e], k);
    }
  }

  lemma NewAnchor(h: Hasher, rows: seq<Entry>, e: Entry)
    requires IsAnchor(e.body) && Anchored(rows) == From(Anchors(rows), |Anchors(rows)|)
    ensures |Anchors(rows + [e])| == |Anchors(rows)| + 1
    ensures AnchorHolds(h, rows + [e], |Anchors(rows)|) <==> AnchorFindings(h, rows, e) == []
  {
    AnchorsSnoc(rows, e);
    var all, k, lo := Anchors(rows + [e]), |Anchors(rows)|, Anchored(rows);
    assert all[k] == e && From(all, k) == lo;
    if e.body.through.Some? && e.body.through.value < e.body.pos {
      HeadsSnoc(rows, e, lo, e.body.through.value);
      assert CoveredRoot(h, rows + [e], lo, e.body.through.value) == CoveredRoot(h, rows, lo, e.body.through.value);
    }
  }

  lemma AnchorsHoldSnoc(h: Hasher, rows: seq<Entry>, e: Entry)
    requires Rising(rows + [e])
    ensures AnchorsHold(h, rows + [e]) <==> AnchorsHold(h, rows) && AnchorFindings(h, rows, e) == []
  {
    AnchorsSnoc(rows, e);
    RisingSnoc(rows, e);
    var k := |Anchors(rows)|;
    if AnchorsHold(h, rows + [e]) { AnchorsHoldBefore(h, rows, e); }
    if AnchorsHold(h, rows) {
      AnchoredIsNewest(h, rows);
      AnchorsKept(h, rows, e);
      if IsAnchor(e.body) { NewAnchor(h, rows, e); }
      assert AnchorsHold(h, rows + [e]) <==> (IsAnchor(e.body) ==> AnchorHolds(h, rows + [e], k));
    }
  }

  lemma AnchorsKept(h: Hasher, rows: seq<Entry>, e: Entry)
    requires Rising(rows + [e]) && AnchorsHold(h, rows)
    ensures |Anchors(rows)| <= |Anchors(rows + [e])|
    ensures forall j | 0 <= j < |Anchors(rows)| :: AnchorHolds(h, rows + [e], j)
  {
    AnchorsSnoc(rows, e);
    forall j | 0 <= j < |Anchors(rows)| ensures AnchorHolds(h, rows + [e], j) {
      AnchorKept(h, rows, e, j);
      assert AnchorHolds(h, rows, j);
    }
  }

  lemma AllHashedSnoc(h: Hasher, rows: seq<Entry>, e: Entry)
    ensures AllHashed(h, rows + [e]) <==> AllHashed(h, rows) && HashOf(h, EntryDocument(e.body)) == e.hash
  {
    var all := rows + [e];
    assert all[|rows|] == e && forall i | 0 <= i < |rows| :: all[i] == rows[i];
    if AllHashed(h, all) {
      assert HashOf(h, EntryDocument(all[|rows|].body)) == all[|rows|].hash;
      forall i | 0 <= i < |rows| ensures HashOf(h, EntryDocument(rows[i].body)) == rows[i].hash {
        assert HashOf(h, EntryDocument(all[i].body)) == all[i].hash;
      }
    }
  }

  predicate Follows(rows: seq<Entry>, e: Entry) {
    var previous := Newer(rows, ChainName(e.body));
    && Place(e.body) == (if previous.None? then 1 else Place(previous.value.body) + 1)
    && e.body.prevHash == (if previous.None? then None else Some(previous.value.hash))
  }

  lemma FollowsSnoc(rows: seq<Entry>, e: Entry)
    ensures AllLinked(rows + [e]) <==> AllLinked(rows) && Follows(rows, e)
  {
    AllLinkedSnoc(rows, e);
    var chain := Chain(rows, ChainName(e.body));
    LinkedSnoc(chain, e);
    if AllLinked(rows) {
      assert Linked(chain);
      if chain != [] {
        assert LinkedAt(chain, |chain| - 1);
      }
    }
  }

  lemma NothingFound(h: Hasher, rows: seq<Entry>, e: Entry)
    ensures RowFindings(h, rows, e) == [] <==>
            && Reached(rows) < e.body.pos
            && !(e.body.chainSeq.None? && Ruled(rows))
            && Follows(rows, e)
            && HashOf(h, EntryDocument(e.body)) == e.hash
            && AnchorFindings(h, rows, e) == []
  {
  }

  lemma IntactSnoc(h: Hasher, rows: seq<Entry>, e: Entry)
    ensures Intact(h, rows + [e]) <==> Intact(h, rows) && RowFindings(h, rows, e) == []
  {
    NothingFound(h, rows, e);
    RisingSnoc(rows, e);
    OldRuleSnoc(rows, e);
    FollowsSnoc(rows, e);
    AllHashedSnoc(h, rows, e);
    if Rising(rows + [e]) {
      AnchorsHoldSnoc(h, rows, e);
    }
  }

  /** The one-pass walk finds nothing exactly in an intact ledger. */
  lemma {:induction false} ReportIffIntact(h: Hasher, rows: seq<Entry>)
    ensures Report(h, rows) == [] <==> Intact(h, rows)
  {
    if rows == [] {
      assert forall c: string :: Chain(rows, c) == [];
    } else {
      var before, e := rows[..|rows| - 1], rows[|rows| - 1];
      assert rows == before + [e];
      ReportIffIntact(h, before);
      IntactSnoc(h, before, e);
    }
  }
}
