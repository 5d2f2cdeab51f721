/** What the hash of one entry commits to: its chain before it, and, on the tenant's chain,
    every run chain's entry its anchors cover. */
module Commitment {
  import opened Text
  import opened Merkle
  import opened Ledger
  import opened Integrity

  /** The heads anchor `k` covers. */
  function Covered(rows: seq<Entry>, k: nat): seq<Head>
    requires k < |Anchors(rows)|
  {
    var through := Anchors(rows)[k].body.through;
    if through.None? then [] else HeadList(Heads(rows, From(Anchors(rows), k), through.value))
  }

  /** Every text hashed when the ledger is verified. */
  ghost function Hashed(h: Hasher, rows: seq<Entry>): set<string> {
    (set e | e in rows :: h.json(EntryDocument(e.body)))
    + (set k, t | 0 <= k < |Anchors(rows)| && t in RootTexts(h, Covered(rows, k)) :: t)
  }

  /** Two intact ledgers, with no collision among what verifying them hashes. */
  ghost predicate Comparable(h: Hasher, a: seq<Entry>, b: seq<Entry>) {
    Encodes(h) && Intact(h, a) && Intact(h, b) && CollisionFree(h, Hashed(h, a) + Hashed(h, b))
  }

  /** The bound of the newest anchor, 0 without one. */
  function Bound(rows: seq<Entry>): int { From(Anchors(rows), |Anchors(rows)|) }

  lemma ComparableSwaps(h: Hasher, a: seq<Entry>, b: seq<Entry>)
    requires Comparable(h, a, b)
    ensures Comparable(h, b, a)
  {
    assert Hashed(h, a) + Hashed(h, b) == Hashed(h, b) + Hashed(h, a);
  }

  lemma SameHash(h: Hasher, a: seq<Entry>, b: seq<Entry>, x: Entry, y: Entry)
    requires Comparable(h, a, b) && x in a && y in b && x.hash == y.hash
    ensures x == y
  {
    var i :| 0 <= i < |a| && a[i] == x;
    var j :| 0 <= j < |b| && b[j] == y;
    assert HashOf(h, EntryDocument(a[i].body)) == a[i].hash;
    assert HashOf(h, EntryDocument(b[j].body)) == b[j].hash;
    assert h.json(EntryDocument(x.body)) in Hashed(h, a);
    assert h.json(EntryDocument(y.body)) in Hashed(h, b);
    assert EntryDocument(x.body) == EntryDocument(y.body);
  }

  /** Among these entries, a hash stands for one entry. */
  ghost predicate HashesIdentify(a: seq<Entry>, b: seq<Entry>) {
    forall x, y | x in a && y in b && x.hash == y.hash :: x == y
  }

  lemma ComparableIdentify(h: Hasher, a: seq<Entry>, b: seq<Entry>)
    requires Comparable(h, a, b)
    ensures HashesIdentify(a, b) && AllLinked(a) && AllLinked(b)
  {
    forall x, y | x in a && y in b && x.hash == y.hash ensures x == y {
      SameHash(h, a, b, x, y);
    }
  }

  /** Two chains with one hash in them are one chain up to it. */
  lemma {:induction false} ChainUnwinds(a: seq<Entry>, b: seq<Entry>, c: string, d: string, i: nat, j: nat)
    requires HashesIdentify(a, b) && AllLinked(a) && AllLinked(b)
    requires i < |Chain(a, c)| && j < |Chain(b, d)| && Chain(a, c)[i].hash == Chain(b, d)[j].hash
    ensures c == d && i == j && Chain(a, c)[..i + 1] == Chain(b, d)[..j + 1]
  {
    var x, y := Chain(a, c), Chain(b, d);
    ChainMembers(a, c, x[i]);
    ChainMembers(b, d, y[j]);
    assert x[i] == y[j];
    assert LinkedAt(x, i) && LinkedAt(y, j);
    if i > 0 {
      ChainUnwinds(a, b, c, d, i - 1, j - 1);
      assert x[..i + 1] == x[..i] + [x[i]] && y[..j + 1] == y[..j] + [y[j]];
    } else {
      assert x[..1] == [x[0]] && y[..1] == [y[0]];
    }
  }

  // --- the anchors of a longer chain --------------------------------------------------------------

  lemma {:induction false} AnchorsOfPrefix(x: seq<Entry>, y: seq<Entry>)
    requires x <= y
    ensures AnchorsOf(x) <= AnchorsOf(y)
    decreases |y|
  {
    if x != y {
      var front := y[..|y| - 1];
      assert x == y[..|x|] == front[..|x|];
      AnchorsOfPrefix(x, front);
    }
  }

  /** Every position at or below the newest bound lies in one anchor's window. */
  lemma {:induction false} InSomeWindow(anchors: seq<Entry>, n: nat, pos: int) returns (k: nat)
    requires n <= |anchors| && 0 < pos <= From(anchors, n)
    ensures k < n && anchors[k].body.through.Some? && From(anchors, k) < pos <= anchors[k].body.through.value
  {
    if pos <= From(anchors, n - 1) {
      k := InSomeWindow(anchors, n - 1, pos);
    } else {
      k := n - 1;
    }
  }

  // --- one window ------------------------------------------------------------------------------------

  lemma HeadListed(m: map<string, Item>, x: Head)
    ensures x in HeadList(m) <==> x.chain in m && x == HeadOf(x.chain, m[x.chain])
  {
    HeadListMultiset(m);
    assert x in HeadList(m) <==> x in multiset(HeadList(m));
    assert x in HeadSet(m) <==> x in multiset(HeadSet(m));
  }

  /** Both ledgers carry the anchor `k`, and it holds in both. */
  ghost predicate SharedAnchor(h: Hasher, a: seq<Entry>, b: seq<Entry>, k: nat) {
    && k < |Anchors(a)| && k < |Anchors(b)|
    && Anchors(a)[k] == Anchors(b)[k] && From(Anchors(a), k) == From(Anchors(b), k)
    && AnchorHolds(h, a, k) && AnchorHolds(h, b, k)
  }

  lemma CoveredTexts(h: Hasher, rows: seq<Entry>, k: nat)
    requires k < |Anchors(rows)|
    ensures RootTexts(h, Covered(rows, k)) <= Hashed(h, rows)
  {
  }

  lemma SharedCovers(h: Hasher, a: seq<Entry>, b: seq<Entry>, k: nat)
    requires Encodes(h) && CollisionFree(h, Hashed(h, a) + Hashed(h, b)) && SharedAnchor(h, a, b, k)
    ensures multiset(Covered(a, k)) == multiset(Covered(b, k))
  {
    var p, q := Covered(a, k), Covered(b, k);
    CoveredTexts(h, a, k);
    CoveredTexts(h, b, k);
    assert Root(h, p) == Root(h, q);
    RootInjective(h, p, q);
  }

  /** One root, one set of heads. */
  lemma WindowAgrees(h: Hasher, a: seq<Entry>, b: seq<Entry>, k: nat, c: string)
    requires Encodes(h) && CollisionFree(h, Hashed(h, a) + Hashed(h, b)) && SharedAnchor(h, a, b, k)
    requires var through := Anchors(a)[k].body.through.value; c in Heads(a, From(Anchors(a), k), through)
    ensures var lo, through := From(Anchors(a), k), Anchors(a)[k].body.through.value;
            c in Heads(b, lo, through) && HeadOf(c, Heads(b, lo, through)[c]) == HeadOf(c, Heads(a, lo, through)[c])
  {
    SharedCovers(h, a, b, k);
    var lo, through := From(Anchors(a), k), Anchors(a)[k].body.through.value;
    var x := HeadOf(c, Heads(a, lo, through)[c]);
    HeadListed(Heads(a, lo, through), x);
    assert x in multiset(Covered(a, k)) && x in multiset(Covered(b, k));
    HeadListed(Heads(b, lo, through), x);
  }

  /** An item of a chain is the item of one of its entries. */
  lemma ItemInChain(rows: seq<Entry>, c: string, x: Item) returns (i: nat)
    requires x in Items(rows, c)
    ensures i < |Chain(rows, c)| && ItemOf(Chain(rows, c)[i]) == x
  {
    ItemsOfChain(rows, c);
    i :| 0 <= i < |Items(rows, c)| && Items(rows, c)[i] == x;
  }

  lemma {:induction false} ChainRises(rows: seq<Entry>, c: string)
    requires Rising(rows)
    ensures Rising(Chain(rows, c))
  {
    if rows != [] {
      var before, e := rows[..|rows| - 1], rows[|rows| - 1];
      assert rows == before + [e];
      RisingSnoc(before, e);
      ChainRises(before, c);
      if ChainName(e.body) == c {
        RisingSnoc(Chain(before, c), e);
        if Reached(Chain(before, c)) > 0 {
          var x :| x in Chain(before, c) && x.body.pos == Reached(Chain(before, c));
          ChainMembers(before, c, x);
        }
      }
    }
  }

  /** The place of an entry in its chain. */
  lemma EntryInChain(rows: seq<Entry>, e: Entry) returns (i: nat)
    requires e in rows
    ensures i < |Chain(rows, ChainName(e.body))| && Chain(rows, ChainName(e.body))[i] == e
  {
    ChainMembers(rows, ChainName(e.body), e);
    var c := Chain(rows, ChainName(e.body));
    i :| 0 <= i < |c| && c[i] == e;
  }

  /** A covered entry stands at or before its chain's head in the window. */
  lemma CoveredByHead(rows: seq<Entry>, e: Entry, lo: int, hi: int) returns (i: nat, j: nat)
    requires Rising(rows) && e in rows && ChainName(e.body) != "" && lo < e.body.pos <= hi
    ensures var c := ChainName(e.body);
            && c in Heads(rows, lo, hi)
            && i <= j < |Chain(rows, c)|
            && Chain(rows, c)[i] == e
            && ItemOf(Chain(rows, c)[j]) == Heads(rows, lo, hi)[c]
  {
    var c := ChainName(e.body);
    i := EntryInChain(rows, e);
    ItemsOfChain(rows, c);
    assert Items(rows, c)[i] == ItemOf(e);
    WithinMembers(Items(rows, c), lo, hi, ItemOf(e));
    InHeads(rows, c, lo, hi);
    var newest := Newest(Within(Items(rows, c), lo, hi));
    WithinMembers(Items(rows, c), lo, hi, newest);
    assert ItemBelow(ItemOf(e), newest);
    j := ItemInChain(rows, c, newest);
    ChainRises(rows, c);
  }

  /** What one window of `a` covers is in `b`, when both carry its anchor. */
  lemma WindowCommits(h: Hasher, a: seq<Entry>, b: seq<Entry>, k: nat, e: Entry)
    requires Encodes(h) && CollisionFree(h, Hashed(h, a) + Hashed(h, b)) && SharedAnchor(h, a, b, k)
    requires HashesIdentify(a, b) && AllLinked(a) && AllLinked(b) && Rising(a)
    requires e in a && ChainName(e.body) != ""
    requires From(Anchors(a), k) < e.body.pos <= Anchors(a)[k].body.through.value
    ensures e in b
  {
    var lo, hi, c := From(Anchors(a), k), Anchors(a)[k].body.through.value, ChainName(e.body);
    var i, j := CoveredByHead(a, e, lo, hi);
    WindowAgrees(h, a, b, k, c);
    var theirs := Heads(b, lo, hi)[c];
    assert theirs in Items(b, c) by {
      WithinMembers(Items(b, c), lo, hi, Newest(Within(Items(b, c), lo, hi)));
    }
    var m := ItemInChain(b, c, theirs);
    ChainUnwinds(a, b, c, c, j, m);
    assert e == Chain(a, c)[..j + 1][i] == Chain(b, c)[..m + 1][i];
    ChainMembers(b, c, e);
  }

  // --- the whole ledger ---------------------------------------------------------------------------------

  lemma TenantChainCommits(a: seq<Entry>, b: seq<Entry>, head: Entry)
    requires HashesIdentify(a, b) && AllLinked(a) && AllLinked(b)
    requires Chain(a, "") != [] && head in Chain(b, "")
    requires Chain(a, "")[|Chain(a, "")| - 1].hash == head.hash
    ensures Chain(a, "") <= Chain(b, "") && Anchors(a) <= Anchors(b)
  {
    var x, y := Chain(a, ""), Chain(b, "");
    var j :| 0 <= j < |y| && y[j] == head;
    ChainUnwinds(a, b, "", "", |x| - 1, j);
    assert x == x[..|x|] == y[..|x|];
    AnchorsOfPrefix(x, y);
  }

  lemma CoveringAnchor(h: Hasher, a: seq<Entry>, b: seq<Entry>, pos: int) returns (k: nat)
    requires AnchorsHold(h, a) && AnchorsHold(h, b) && Anchors(a) <= Anchors(b)
    requires 0 < pos <= Bound(a)
    ensures SharedAnchor(h, a, b, k) && From(Anchors(a), k) < pos <= Anchors(a)[k].body.through.value
  {
    k := InSomeWindow(Anchors(a), |Anchors(a)|, pos);
    assert Anchors(a)[k] == Anchors(b)[k];
    assert k > 0 ==> Anchors(a)[k - 1] == Anchors(b)[k - 1];
    assert AnchorHolds(h, a, k) && AnchorHolds(h, b, k);
  }

  lemma PositionsPositive(rows: seq<Entry>, e: Entry)
    requires Rising(rows) && e in rows
    ensures e.body.pos > 0
  {
  }

  /** The hash of a ledger's newest entry on the tenant's chain, found in another intact ledger's
      tenant chain, commits both to one tenant chain up to it and to one set of run chains'
      entries at or below the newest anchor's bound. */
  lemma AnchoredCommitment(h: Hasher, a: seq<Entry>, b: seq<Entry>, head: Entry)
    requires Comparable(h, a, b)
    requires Chain(a, "") != [] && head in Chain(b, "")
    requires Chain(a, "")[|Chain(a, "")| - 1].hash == head.hash
    ensures Chain(a, "") <= Chain(b, "")
    ensures forall e: Entry | ChainName(e.body) != "" && e.body.pos <= Bound(a) :: e in a <==> e in b
  {
    ComparableIdentify(h, a, b);
    TenantChainCommits(a, b, head);
    forall e: Entry | ChainName(e.body) != "" && e.body.pos <= Bound(a) ensures e in a <==> e in b {
      RunEntryCommits(h, a, b, e);
    }
  }

  lemma RunEntryCommits(h: Hasher, a: seq<Entry>, b: seq<Entry>, e: Entry)
    requires Comparable(h, a, b) && Anchors(a) <= Anchors(b)
    requires ChainName(e.body) != "" && e.body.pos <= Bound(a)
    ensures e in a <==> e in b
  {
    ComparableIdentify(h, a, b);
    ComparableSwaps(h, a, b);
    if e in a {
      PositionsPositive(a, e);
      var k := CoveringAnchor(h, a, b, e.body.pos);
      WindowCommits(h, a, b, k, e);
    }
    if e in b {
      PositionsPositive(b, e);
      var k := CoveringAnchor(h, a, b, e.body.pos);
      WindowCommits(h, b, a, k, e);
    }
  }

  /** Two ledgers the walk finds nothing in, with one newest hash on the tenant's chain. */
  lemma SameTenantHead(h: Hasher, a: seq<Entry>, b: seq<Entry>)
    requires Encodes(h) && CollisionFree(h, Hashed(h, a) + Hashed(h, b))
    requires Report(h, a) == [] && Report(h, b) == []
    requires Chain(a, "") != [] && Chain(b, "") != []
    requires Chain(a, "")[|Chain(a, "")| - 1].hash == Chain(b, "")[|Chain(b, "")| - 1].hash
    ensures Chain(a, "") == Chain(b, "") && Bound(a) == Bound(b)
    ensures forall e: Entry | ChainName(e.body) != "" && e.body.pos <= Bound(a) :: e in a <==> e in b
  {
    ReportIffIntact(h, a);
    ReportIffIntact(h, b);
    AnchoredCommitment(h, a, b, Chain(b, "")[|Chain(b, "")| - 1]);
    ComparableSwaps(h, a, b);
    AnchoredCommitment(h, b, a, Chain(a, "")[|Chain(a, "")| - 1]);
  }

  // --- a restored ledger ------------------------------------------------------------------------------------

  /** In a rising ledger the newest entry is the last. */
  lemma NewestIsLast(rows: seq<Entry>)
    requires rows != [] && Rising(rows)
    ensures NewestHead(rows) == Some((rows[|rows| - 1].body.pos, rows[|rows| - 1].hash))
  {
    var before, e := rows[..|rows| - 1], rows[|rows| - 1];
    assert rows == before + [e];
    if before != [] {
      RisingSnoc(before, e);
      NewestIsLast(before);
      assert before[|before| - 1].body.pos < e.body.pos by {
        assert rows[|rows| - 2].body.pos < rows[|rows| - 1].body.pos;
      }
    }
  }

  lemma {:induction false} HashHeld(rows: seq<Entry>, wanted: set<int>, pos: int) returns (e: Entry)
    requires pos in HashesAt(rows, wanted)
    ensures e in rows && e.body.pos == pos && e.hash == HashesAt(rows, wanted)[pos]
  {
    var before, last := rows[..|rows| - 1], rows[|rows| - 1];
    if pos in wanted && last.body.pos == pos {
      e := last;
    } else {
      e := HashHeld(before, wanted, pos);
      assert rows == before + [last];
    }
  }

  lemma LastOnItsChain(rows: seq<Entry>)
    requires rows != []
    ensures var e := rows[|rows| - 1];
            var c := Chain(rows, ChainName(e.body));
            c != [] && c[|c| - 1] == e
  {
  }

  /** Nothing found against the manifest's head: the entry it names is there, with its hash. */
  lemma HeadRestored(rows: seq<Entry>, wanted: set<int>, found: Chains, pos: int, digest: string,
          exact: Option<(int, string)>)
    returns (e: Entry)
    requires found.hashes == HashesAt(rows, wanted) && HeldTo(found, Some((pos, digest)), exact) == []
    ensures e in rows && e.body.pos == pos && e.hash == digest
    ensures exact.Some? ==> found.head == exact
  {
    e := HashHeld(rows, wanted, pos);
  }

  /** The chain of the original's newest entry is restored as it was; and when it is the tenant's,
      so is every run chain's entry its anchors covered. */
  ghost predicate HeadChainRestored(original: seq<Entry>, restored: seq<Entry>)
    requires original != []
  {
    var c := ChainName(original[|original| - 1].body);
    && Chain(original, c) <= Chain(restored, c)
    && (c == "" ==> RunsRestored(original, restored))
  }

  predicate SameNewest(original: seq<Entry>, restored: seq<Entry>)
    requires original != []
  {
    restored != [] && restored[|restored| - 1] == original[|original| - 1]
  }

  lemma ChainRestored(h: Hasher, original: seq<Entry>, restored: seq<Entry>, e: Entry)
    requires Comparable(h, original, restored)
    requires original != [] && e in restored && e.hash == original[|original| - 1].hash
    ensures HeadChainRestored(original, restored)
  {
    var c := ChainName(original[|original| - 1].body);
    OwnChainRestored(h, original, restored, e);
    if c == "" {
      ChainMembers(restored, "", e);
      AnchoredCommitment(h, original, restored, e);
    }
  }

  lemma OwnChainRestored(h: Hasher, original: seq<Entry>, restored: seq<Entry>, e: Entry)
    requires Comparable(h, original, restored)
    requires original != [] && e in restored && e.hash == original[|original| - 1].hash
    ensures var c := ChainName(original[|original| - 1].body);
            ChainName(e.body) == c && Chain(original, c) <= Chain(restored, c)
  {
    LastOnItsChain(original);
    ComparableIdentify(h, original, restored);
    var c := ChainName(original[|original| - 1].body);
    var j := EntryInChain(restored, e);
    assert ChainName(e.body) == c;
    var x, y := Chain(original, c), Chain(restored, c);
    ChainUnwinds(original, restored, c, c, |x| - 1, j);
    assert x == x[..|x|] == y[..|x|];
  }

  /** The run chains' entries the original's anchors cover are exactly those restored. */
  ghost predicate RunsRestored(original: seq<Entry>, restored: seq<Entry>) {
    forall e: Entry | ChainName(e.body) != "" && e.body.pos <= Bound(original) :: e in original <==> e in restored
  }

  /** The walk and the manifest's head find nothing amiss in what was restored. */
  ghost predicate NothingAmiss(h: Hasher, restored: seq<Entry>, wanted: set<int>, found: Chains,
          head: Option<(int, string)>, exact: Option<(int, string)>) {
    && found == Chains(|restored|, Report(h, restored), NewestHead(restored), HashesAt(restored, wanted))
    && found.findings == [] && HeldTo(found, head, exact) == []
  }

  lemma RestoredEntry(h: Hasher, restored: seq<Entry>, wanted: set<int>, found: Chains, pos: int,
          digest: string, exact: Option<(int, string)>)
    returns (e: Entry)
    requires NothingAmiss(h, restored, wanted, found, Some((pos, digest)), exact)
    ensures e in restored && e.body.pos == pos && e.hash == digest
    ensures exact.Some? ==> NewestHead(restored) == exact
    ensures Report(h, restored) == []
  {
    e := HeadRestored(restored, wanted, found, pos, digest, exact);
  }

  lemma CleanHead(h: Hasher, rows: seq<Entry>)
    requires rows != [] && Report(h, rows) == []
    ensures NewestHead(rows) == Some((rows[|rows| - 1].body.pos, rows[|rows| - 1].hash))
  {
    ReportIffIntact(h, rows);
    NewestIsLast(rows);
  }

  lemma RestoredChain(h: Hasher, original: seq<Entry>, restored: seq<Entry>, e: Entry)
    requires Encodes(h) && CollisionFree(h, Hashed(h, original) + Hashed(h, restored))
    requires original != [] && Report(h, original) == [] && Report(h, restored) == []
    requires e in restored && e.hash == original[|original| - 1].hash
    ensures HeadChainRestored(original, restored)
  {
    BothIntact(h, original, restored);
    ChainRestored(h, original, restored, e);
  }

  lemma RestoredNewest(h: Hasher, original: seq<Entry>, restored: seq<Entry>, head: Option<(int, string)>)
    requires Encodes(h) && CollisionFree(h, Hashed(h, original) + Hashed(h, restored))
    requires original != [] && Report(h, original) == [] && Report(h, restored) == []
    requires NewestHead(original) == head && NewestHead(restored) == head
    ensures SameNewest(original, restored)
  {
    BothIntact(h, original, restored);
    NewestRestored(h, original, restored);
  }

  /** When the walk and the manifest's head find nothing amiss in what was restored, the chain
      of that head is restored as it was; and when it is the tenant's chain, so is every run
      chain's entry its anchors covered. With the head noted at the moment restored to, the
      newest entry is the original's. */
  lemma RestoredHistory(h: Hasher, original: seq<Entry>, restored: seq<Entry>, wanted: set<int>, found: Chains,
          exact: Option<(int, string)>)
    requires Encodes(h) && CollisionFree(h, Hashed(h, original) + Hashed(h, restored))
    requires original != [] && Report(h, original) == []
    requires NothingAmiss(h, restored, wanted, found, NewestHead(original), exact)
    ensures HeadChainRestored(original, restored)
    ensures exact == NewestHead(original) ==> SameNewest(original, restored)
  {
    var e := HeadsEntry(h, original, restored, wanted, found, exact);
    RestoredChain(h, original, restored, e);
    if exact == NewestHead(original) {
      RestoredNewest(h, original, restored, exact);
    }
  }

  /** The entry the manifest's head names, in what was restored. */
  lemma HeadsEntry(h: Hasher, original: seq<Entry>, restored: seq<Entry>, wanted: set<int>, found: Chains,
          exact: Option<(int, string)>)
    returns (e: Entry)
    requires original != [] && Report(h, original) == []
    requires NothingAmiss(h, restored, wanted, found, NewestHead(original), exact)
    ensures e in restored && e.hash == original[|original| - 1].hash
    ensures Report(h, restored) == []
    ensures exact == NewestHead(original) ==> NewestHead(restored) == exact
  {
    var last := original[|original| - 1];
    CleanHead(h, original);
    e := RestoredEntry(h, restored, wanted, found, last.body.pos, last.hash, exact);
  }

  lemma BothIntact(h: Hasher, a: seq<Entry>, b: seq<Entry>)
    requires Encodes(h) && CollisionFree(h, Hashed(h, a) + Hashed(h, b))
    requires Report(h, a) == [] && Report(h, b) == []
    ensures Comparable(h, a, b) && Rising(a) && Rising(b)
  {
    ReportIffIntact(h, a);
    ReportIffIntact(h, b);
  }

  lemma NewestRestored(h: Hasher, original: seq<Entry>, restored: seq<Entry>)
    requires Comparable(h, original, restored) && original != []
    requires NewestHead(restored) == NewestHead(original)
    ensures SameNewest(original, restored)
  {
    NewestIsLast(original);
    NewestIsLast(restored);
    SameHash(h, original, restored, original[|original| - 1], restored[|restored| - 1]);
  }
}
