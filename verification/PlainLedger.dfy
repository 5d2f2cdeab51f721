/** A ledger without findings, entry by entry in the entries' own fields: no chain is named, no list kept. */
module PlainLedger {
  import opened Text
  import opened Merkle
  import opened Ledger
  import opened Integrity
  import opened PlainRoot

  // --- which entries stand on one chain -----------------------------------------------------------------------------

  /** An entry of the rule before the chains, or marked for the tenant's, or of no run. */
  predicate OnTenant(b: Body) {
    b.chainSeq.None? || b.chain == Some("tenant") || b.run.None? || b.run == Some("")
  }

  /** Both on the tenant's chain, or both on that of one run. */
  predicate Together(a: Body, b: Body) {
    if OnTenant(a) then OnTenant(b) else !OnTenant(b) && a.run == b.run
  }

  /** An entry is on a run's chain exactly where it has a place of its own, is not marked for the tenant's
      chain, and is of that run. */
  lemma ChainExactly(b: Body, r: string)
    requires r != ""
    ensures ChainName(b) == r <==> b.chainSeq.Some? && b.chain != Some("tenant") && b.run == Some(r)
  {
  }

  lemma TogetherOnChain(a: Body, b: Body)
    ensures ChainName(a) == ChainName(b) <==> Together(a, b)
    ensures ChainName(a) == "" <==> OnTenant(a)
  {
  }

  /** The newest of the earlier entries on this one's chain. */
  predicate Before(earlier: seq<Entry>, b: Body, i: nat) {
    i < |earlier| && Together(earlier[i].body, b) && forall j | i < j < |earlier| :: !Together(earlier[j].body, b)
  }

  predicate Alone(earlier: seq<Entry>, b: Body) { forall i | 0 <= i < |earlier| :: !Together(earlier[i].body, b) }

  lemma {:induction false} NewerIs(earlier: seq<Entry>, b: Body) returns (i: int)
    ensures -1 <= i < |earlier|
    ensures i == -1 ==> Alone(earlier, b) && Newer(earlier, ChainName(b)).None?
    ensures i >= 0 ==> Before(earlier, b, i) && Newer(earlier, ChainName(b)) == Some(earlier[i])
  {
    i := -1;
    if earlier != [] {
      var fewer, last := earlier[..|earlier| - 1], earlier[|earlier| - 1];
      TogetherOnChain(last.body, b);
      if Together(last.body, b) {
        i := |earlier| - 1;
      } else {
        i := NewerIs(fewer, b);
        assert forall j | 0 <= j < |fewer| :: earlier[j] == fewer[j];
      }
    }
  }

  lemma BeforeIsOne(earlier: seq<Entry>, b: Body, i: nat, j: nat)
    requires Before(earlier, b, i) && Before(earlier, b, j)
    ensures i == j
  {
  }

  // --- one entry ----------------------------------------------------------------------------------------------------

  /** Its place: its own, or its position by the rule before the chains. */
  predicate Stands(b: Body, place: int) { if b.chainSeq.Some? then b.chainSeq == Some(place) else b.pos == place }

  /** Above all positions before it, by the newer rule once that is in use, and with its own hash. */
  predicate InTurn(h: Hasher, earlier: seq<Entry>, e: Entry) {
    && e.body.pos > 0 && (forall i | 0 <= i < |earlier| :: earlier[i].body.pos < e.body.pos)
    && (e.body.chainSeq.None? ==> forall i | 0 <= i < |earlier| :: earlier[i].body.chainSeq.None?)
    && e.hash == h.sha(h.json(EntryDocument(e.body)))
  }

  /** First of its chain, or next after the newest before it there, whose hash it names. */
  ghost predicate Chained(earlier: seq<Entry>, e: Entry) {
    && (Alone(earlier, e.body) ==> Stands(e.body, 1) && e.body.prevHash.None?)
    && forall i, place | 0 <= i < |earlier| && Before(earlier, e.body, i) && Stands(earlier[i].body, place) ::
         Stands(e.body, place + 1) && e.body.prevHash == Some(earlier[i].hash)
  }

  lemma ChainedExactly(earlier: seq<Entry>, e: Entry)
    ensures Follows(earlier, e) <==> Chained(earlier, e)
  {
    var i := NewerIs(earlier, e.body);
    if i >= 0 {
      assert Stands(earlier[i].body, Place(earlier[i].body));
      forall j | 0 <= j < |earlier| && Before(earlier, e.body, j) ensures j == i { BeforeIsOne(earlier, e.body, i, j); }
    }
  }

  lemma InTurnExactly(h: Hasher, earlier: seq<Entry>, e: Entry)
    ensures Reached(earlier) < e.body.pos && !(e.body.chainSeq.None? && Ruled(earlier))
            && HashOf(h, EntryDocument(e.body)) == e.hash
            <==> InTurn(h, earlier, e)
  {
    if InTurn(h, earlier, e) && Reached(earlier) != 0 {
      var x :| x in earlier && x.body.pos == Reached(earlier);
    }
  }

  // --- what an anchor covers ----------------------------------------------------------------------------------------

  /** The newest entry of a run's chain within the window. */
  ghost predicate Heading(earlier: seq<Entry>, lo: int, hi: int, x: Head) {
    exists i: nat :: i < |earlier| && HeadsAt(earlier, lo, hi, x, i)
  }

  predicate InWindow(b: Body, run: string, lo: int, hi: int) { !OnTenant(b) && b.run == Some(run) && lo < b.pos <= hi }

  ghost predicate HeadsAt(earlier: seq<Entry>, lo: int, hi: int, x: Head, i: nat)
    requires i < |earlier|
  {
    var e := earlier[i];
    && InWindow(e.body, x.chain, lo, hi) && e.body.chainSeq == Some(x.place) && e.hash == x.digest
    && forall j | 0 <= j < |earlier| && InWindow(earlier[j].body, x.chain, lo, hi) :: earlier[j].body.pos <= e.body.pos
  }

  ghost predicate ByChain(heads: seq<Head>) {
    forall i, j | 0 <= i < j < |heads| :: heads[i].chain != heads[j].chain && Precedes(heads[i].chain, heads[j].chain)
  }

  /** The tree over these heads, none for none. */
  function RootOver(h: Hasher, heads: seq<Head>): Option<string> {
    if heads == [] then None
    else Some(SplitHash(h, seq(|heads|, i requires 0 <= i < |heads| => h.sha(h.json(HeadDocument(heads[i]))))))
  }

  /** The root over the newest entry of every run's chain in the window, in the order of the runs. */
  ghost predicate Covers(h: Hasher, earlier: seq<Entry>, lo: int, hi: int, root: Option<string>) {
    exists heads :: CoversWith(h, earlier, lo, hi, root, heads)
  }

  ghost predicate CoversWith(h: Hasher, earlier: seq<Entry>, lo: int, hi: int, root: Option<string>, heads: seq<Head>) {
    ByChain(heads) && (forall x :: x in heads <==> Heading(earlier, lo, hi, x)) && root == RootOver(h, heads)
  }

  predicate OfRun(e: Entry, c: string, x: Item) { !OnTenant(e.body) && e.body.run == Some(c) && x == ItemOf(e) }

  lemma ItemIs(earlier: seq<Entry>, c: string, x: Item)
    requires c != ""
    ensures x in Items(earlier, c) <==>
            exists i: nat :: i < |earlier| && OfRun(earlier[i], c, x)
  {
    ItemsOfChain(earlier, c);
    if x in Items(earlier, c) {
      var k :| 0 <= k < |Items(earlier, c)| && Items(earlier, c)[k] == x;
      ChainMembers(earlier, c, Chain(earlier, c)[k]);
    }
    if i: nat :| i < |earlier| && OfRun(earlier[i], c, x) {
      ChainMembers(earlier, c, earlier[i]);
      var k :| 0 <= k < |Chain(earlier, c)| && Chain(earlier, c)[k] == earlier[i];
      assert Items(earlier, c)[k] == x;
    }
  }

  lemma WindowItem(earlier: seq<Entry>, c: string, lo: int, hi: int, i: nat)
    requires i < |earlier| && InWindow(earlier[i].body, c, lo, hi)
    ensures ItemOf(earlier[i]) in Within(Items(earlier, c), lo, hi) && c in Heads(earlier, lo, hi)
  {
    ItemIs(earlier, c, ItemOf(earlier[i]));
    WithinMembers(Items(earlier, c), lo, hi, ItemOf(earlier[i]));
    NameOfItem(earlier, c, ItemOf(earlier[i]));
  }

  lemma ItemInWindow(earlier: seq<Entry>, c: string, lo: int, hi: int, x: Item) returns (i: nat)
    requires c != "" && x in Within(Items(earlier, c), lo, hi)
    ensures i < |earlier| && InWindow(earlier[i].body, c, lo, hi) && x == ItemOf(earlier[i])
  {
    WithinMembers(Items(earlier, c), lo, hi, x);
    ItemIs(earlier, c, x);
    i :| i < |earlier| && OfRun(earlier[i], c, x);
  }

  /** The head the walk takes for a chain is the newest in the window. */
  lemma HeadIsNewest(earlier: seq<Entry>, lo: int, hi: int, c: string)
    requires c in Heads(earlier, lo, hi)
    ensures Heading(earlier, lo, hi, HeadOf(c, Heads(earlier, lo, hi)[c]))
  {
    var within := Within(Items(earlier, c), lo, hi);
    var i := ItemInWindow(earlier, c, lo, hi, Newest(within));
    forall j | 0 <= j < |earlier| && InWindow(earlier[j].body, c, lo, hi)
      ensures earlier[j].body.pos <= earlier[i].body.pos
    {
      WindowItem(earlier, c, lo, hi, j);
      assert ItemBelow(ItemOf(earlier[j]), Newest(within));
    }
    assert HeadsAt(earlier, lo, hi, HeadOf(c, Heads(earlier, lo, hi)[c]), i);
  }

  lemma NewestIsHead(earlier: seq<Entry>, lo: int, hi: int, x: Head)
    requires Rising(earlier) && Heading(earlier, lo, hi, x)
    ensures x.chain in Heads(earlier, lo, hi) && x == HeadOf(x.chain, Heads(earlier, lo, hi)[x.chain])
  {
    var i: nat :| i < |earlier| && HeadsAt(earlier, lo, hi, x, i);
    WindowItem(earlier, x.chain, lo, hi, i);
    var newest := Newest(Within(Items(earlier, x.chain), lo, hi));
    var j := ItemInWindow(earlier, x.chain, lo, hi, newest);
    assert ItemBelow(ItemOf(earlier[i]), newest);
    assert earlier[j].body.pos <= earlier[i].body.pos;
  }

  lemma ListIsByChain(m: map<string, Item>)
    ensures ByChain(HeadList(m))
  {
    var names := Sorted(m.Keys);
    ListedAt(m, names);
    forall i, j | 0 <= i < j < |names| ensures names[i] != names[j] && Precedes(names[i], names[j]) {
      BelowExactly(names[i], names[j]);
    }
  }

  lemma InList(m: map<string, Item>, x: Head)
    ensures x in HeadList(m) <==> x.chain in m && x == HeadOf(x.chain, m[x.chain])
  {
    var names := Sorted(m.Keys);
    ListedAt(m, names);
    if x.chain in m && x == HeadOf(x.chain, m[x.chain]) {
      var i :| 0 <= i < |names| && names[i] == x.chain;
      assert HeadList(m)[i] == x;
    }
  }

  lemma RootOfByChain(h: Hasher, heads: seq<Head>)
    requires ByChain(heads)
    ensures Root(h, heads) == RootOver(h, heads)
  {
    forall i, j | 0 <= i < j < |heads| ensures Comes(heads[i], heads[j]) {}
    RootOfAscending(h, heads);
  }

  /** Two lists of one set of heads, each by chain, have one root. */
  lemma OneRoot(h: Hasher, a: seq<Head>, b: seq<Head>)
    requires ByChain(a) && ByChain(b) && forall x :: x in a <==> x in b
    ensures RootOver(h, a) == RootOver(h, b)
  {
    DistinctMultiset(a);
    DistinctMultiset(b);
    assert (set x | x in a) == (set x | x in b);
    RootOfMultiset(h, a, b);
    RootOfByChain(h, a);
    RootOfByChain(h, b);
  }

  lemma CoversExactly(h: Hasher, earlier: seq<Entry>, lo: int, hi: int, root: Option<string>)
    requires Rising(earlier)
    ensures CoveredRoot(h, earlier, lo, hi) == root <==> Covers(h, earlier, lo, hi, root)
  {
    var m := Heads(earlier, lo, hi);
    var heads := HeadList(m);
    ListIsByChain(m);
    forall x ensures x in heads <==> Heading(earlier, lo, hi, x) {
      InList(m, x);
      if x in heads { HeadIsNewest(earlier, lo, hi, x.chain); }
      if Heading(earlier, lo, hi, x) { NewestIsHead(earlier, lo, hi, x); }
    }
    RootOfByChain(h, heads);
    assert CoversWith(h, earlier, lo, hi, Root(h, heads), heads);
    if other :| CoversWith(h, earlier, lo, hi, root, other) {
      OneRoot(h, heads, other);
    }
  }

  // --- anchors ------------------------------------------------------------------------------------------------------

  predicate Anchoring(b: Body) { b.kind == "ledger.anchored" && OnTenant(b) }

  /** The bound of the newest anchor before, 0 without one. */
  ghost predicate LastBound(earlier: seq<Entry>, lo: int) {
    || (lo == 0 && forall i | 0 <= i < |earlier| :: !Anchoring(earlier[i].body))
    || exists i: nat :: i < |earlier| && LastAnchor(earlier, i) && earlier[i].body.through == Some(lo)
  }

  predicate LastAnchor(earlier: seq<Entry>, i: nat)
    requires i < |earlier|
  {
    Anchoring(earlier[i].body) && forall j | i < j < |earlier| :: !Anchoring(earlier[j].body)
  }

  /** An anchor reaches at least as far as the newest before it, not as far as itself, and carries the root
      over what lies between. */
  ghost predicate WellAnchored(h: Hasher, earlier: seq<Entry>, e: Entry) {
    Anchoring(e.body) ==>
      && e.body.through.Some? && e.body.through.value < e.body.pos
      && exists lo ::
           LastBound(earlier, lo) && lo <= e.body.through.value
           && Covers(h, earlier, lo, e.body.through.value, e.body.contentDigest)
  }

  lemma AnchoringExactly(b: Body)
    ensures IsAnchor(b) <==> Anchoring(b)
  {
  }

  lemma LastBoundIsOne(earlier: seq<Entry>, lo: int, other: int)
    requires LastBound(earlier, lo) && LastBound(earlier, other)
    ensures lo == other
  {
    if i: nat :| i < |earlier| && LastAnchor(earlier, i) && earlier[i].body.through == Some(lo) {
      var j: nat :| j < |earlier| && LastAnchor(earlier, j) && earlier[j].body.through == Some(other);
      assert i == j;
    }
  }

  lemma LastBoundNext(fewer: seq<Entry>, last: Entry, lo: int)
    requires if Anchoring(last.body) then last.body.through == Some(lo) else LastBound(fewer, lo)
    ensures LastBound(fewer + [last], lo)
  {
    var all := fewer + [last];
    if Anchoring(last.body) {
      assert LastAnchor(all, |fewer|);
    } else if i: nat :| i < |fewer| && LastAnchor(fewer, i) && fewer[i].body.through == Some(lo) {
      assert LastAnchor(all, i);
    }
  }

  lemma AnchoredNext(h: Hasher, fewer: seq<Entry>, last: Entry)
    requires AnchorFindings(h, fewer, last) == []
    ensures if IsAnchor(last.body) then last.body.through == Some(Anchored(fewer + [last]))
            else Anchored(fewer + [last]) == Anchored(fewer)
  {
    assert (fewer + [last])[..|fewer|] == fewer;
  }

  lemma NoneIsLast()
    ensures LastBound([], Anchored([]))
  {
  }

  lemma StillLast(h: Hasher, fewer: seq<Entry>, last: Entry)
    requires AnchorFindings(h, fewer, last) == [] && LastBound(fewer, Anchored(fewer))
    ensures LastBound(fewer + [last], Anchored(fewer + [last]))
  {
    AnchoringExactly(last.body);
    AnchoredNext(h, fewer, last);
    LastBoundNext(fewer, last, Anchored(fewer + [last]));
  }

  lemma ReportRises(h: Hasher, rows: seq<Entry>)
    requires Report(h, rows) == []
    ensures Rising(rows)
  {
    ReportIffIntact(h, rows);
  }

  lemma AnchorExactly(h: Hasher, earlier: seq<Entry>, e: Entry)
    requires Report(h, earlier) == [] && LastBound(earlier, Anchored(earlier))
    ensures AnchorFindings(h, earlier, e) == [] <==> WellAnchored(h, earlier, e)
  {
    AnchoringExactly(e.body);
    if Anchoring(e.body) && e.body.through.Some? {
      ReportRises(h, earlier);
      CoversExactly(h, earlier, Anchored(earlier), e.body.through.value, e.body.contentDigest);
      BoundIs(h, earlier, Anchored(earlier), e);
    }
  }

  lemma BoundIs(h: Hasher, earlier: seq<Entry>, lo: int, e: Entry)
    requires LastBound(earlier, lo) && Anchoring(e.body) && e.body.through.Some?
    ensures WellAnchored(h, earlier, e) <==>
              && lo <= e.body.through.value < e.body.pos
              && Covers(h, earlier, lo, e.body.through.value, e.body.contentDigest)
  {
    forall other | LastBound(earlier, other) ensures other == lo { LastBoundIsOne(earlier, other, lo); }
  }

  // --- the ledger ---------------------------------------------------------------------------------------------------

  ghost predicate Sound(h: Hasher, earlier: seq<Entry>, e: Entry) {
    InTurn(h, earlier, e) && Chained(earlier, e) && WellAnchored(h, earlier, e)
  }

  lemma SoundExactly(h: Hasher, earlier: seq<Entry>, e: Entry)
    requires Report(h, earlier) == [] && LastBound(earlier, Anchored(earlier))
    ensures RowFindings(h, earlier, e) == [] <==> Sound(h, earlier, e)
  {
    NothingFound(h, earlier, e);
    InTurnExactly(h, earlier, e);
    ChainedExactly(earlier, e);
    AnchorExactly(h, earlier, e);
  }

  ghost predicate SoundAt(h: Hasher, rows: seq<Entry>, n: nat)
    requires n < |rows|
  {
    Sound(h, rows[..n], rows[n])
  }

  lemma SoundNext(h: Hasher, before: seq<Entry>, last: Entry)
    ensures (forall n | 0 <= n < |before + [last]| :: SoundAt(h, before + [last], n))
            <==> (forall n | 0 <= n < |before| :: SoundAt(h, before, n)) && Sound(h, before, last)
  {
    var rows := before + [last];
    forall n | 0 <= n < |before| ensures SoundAt(h, rows, n) <==> SoundAt(h, before, n) {
      assert rows[..n] == before[..n] && rows[n] == before[n];
    }
    assert rows[..|before|] == before && rows[|before|] == last;
    assert SoundAt(h, rows, |before|) <==> Sound(h, before, last);
  }

  lemma ReportNext(h: Hasher, before: seq<Entry>, last: Entry)
    ensures Report(h, before + [last]) == [] <==> Report(h, before) == [] && RowFindings(h, before, last) == []
  {
    assert (before + [last])[..|before|] == before;
  }

  /** The walk finds nothing exactly where every entry is sound after those before it. */
  lemma {:induction false} ReportExactly(h: Hasher, rows: seq<Entry>)
    ensures Report(h, rows) == [] <==> forall n | 0 <= n < |rows| :: SoundAt(h, rows, n)
    ensures Report(h, rows) == [] ==> LastBound(rows, Anchored(rows))
  {
    if rows == [] {
      NoneIsLast();
    } else {
      var before, last := rows[..|rows| - 1], rows[|rows| - 1];
      assert rows == before + [last];
      ReportExactly(h, before);
      ReportNext(h, before, last);
      SoundNext(h, before, last);
      if Report(h, before) == [] {
        SoundExactly(h, before, last);
        NothingFound(h, before, last);
        if RowFindings(h, before, last) == [] { StillLast(h, before, last); }
      }
    }
  }

  // --- the rule before the chains -----------------------------------------------------------------------------------

  predicate AllOldRule(rows: seq<Entry>) {
    forall n | 0 <= n < |rows| :: rows[n].body.chainSeq.None? && rows[n].body.kind != "ledger.anchored"
  }

  /** The next position, the hash before it, and its own. */
  predicate OldAt(h: Hasher, rows: seq<Entry>, n: nat)
    requires n < |rows|
  {
    && rows[n].body.pos == n + 1
    && rows[n].body.prevHash == (if n == 0 then None else Some(rows[n - 1].hash))
    && rows[n].hash == h.sha(h.json(EntryDocument(rows[n].body)))
  }

  lemma OldIsSound(h: Hasher, rows: seq<Entry>, n: nat)
    requires AllOldRule(rows) && n < |rows| && forall m | 0 <= m <= n :: OldAt(h, rows, m)
    ensures SoundAt(h, rows, n)
  {
    var earlier, e := rows[..n], rows[n];
    forall i | 0 <= i < |earlier| ensures earlier[i].body.pos == i + 1 && earlier[i].body.chainSeq.None? {
      assert OldAt(h, rows, i);
    }
    assert OldAt(h, rows, n);
    if n > 0 {
      assert Before(earlier, e.body, n - 1);
      forall i | 0 <= i < |earlier| && Before(earlier, e.body, i) ensures i == n - 1 {
        BeforeIsOne(earlier, e.body, i, n - 1);
      }
    }
    assert InTurn(h, earlier, e) && Chained(earlier, e);
  }

  lemma SoundIsOld(h: Hasher, rows: seq<Entry>, n: nat)
    requires AllOldRule(rows) && n < |rows| && SoundAt(h, rows, n) && (n > 0 ==> OldAt(h, rows, n - 1))
    ensures OldAt(h, rows, n)
  {
    var earlier, e := rows[..n], rows[n];
    assert InTurn(h, earlier, e) && Chained(earlier, e);
    if n > 0 {
      assert earlier[n - 1] == rows[n - 1];
      assert Before(earlier, e.body, n - 1) && Stands(earlier[n - 1].body, n);
    }
  }

  lemma {:induction false} SoundAreOld(h: Hasher, rows: seq<Entry>, n: nat)
    requires AllOldRule(rows) && n <= |rows| && forall m | 0 <= m < |rows| :: SoundAt(h, rows, m)
    ensures forall m | 0 <= m < n :: OldAt(h, rows, m)
  {
    if n > 0 {
      SoundAreOld(h, rows, n - 1);
      SoundIsOld(h, rows, n - 1);
    }
  }

  /** A ledger of the rule before the chains, whatever runs its entries are of, is without findings exactly
      where its positions are 1, 2, and so on, each entry names the hash of the one before it, and its own
      hash is right. */
  lemma OldRuleExactly(h: Hasher, rows: seq<Entry>)
    requires forall n | 0 <= n < |rows| :: rows[n].body.chainSeq.None? && rows[n].body.kind != "ledger.anchored"
    ensures Report(h, rows) == [] <==>
            forall n | 0 <= n < |rows| ::
              && rows[n].body.pos == n + 1
              && rows[n].body.prevHash == (if n == 0 then None else Some(rows[n - 1].hash))
              && rows[n].hash == h.sha(h.json(EntryDocument(rows[n].body)))
  {
    OldExactly(h, rows);
    AllOldMeans(h, rows);
  }

  lemma AllOldMeans(h: Hasher, rows: seq<Entry>)
    ensures AllOld(h, rows) <==>
            forall n | 0 <= n < |rows| ::
              && rows[n].body.pos == n + 1
              && rows[n].body.prevHash == (if n == 0 then None else Some(rows[n - 1].hash))
              && rows[n].hash == h.sha(h.json(EntryDocument(rows[n].body)))
  {
    if AllOld(h, rows) {
      forall n | 0 <= n < |rows|
        ensures rows[n].body.pos == n + 1
        ensures rows[n].body.prevHash == (if n == 0 then None else Some(rows[n - 1].hash))
        ensures rows[n].hash == h.sha(h.json(EntryDocument(rows[n].body)))
      {
        assert OldAt(h, rows, n);
      }
    } else {
      var n :| 0 <= n < |rows| && !OldAt(h, rows, n);
    }
  }

  predicate AllOld(h: Hasher, rows: seq<Entry>) { forall n | 0 <= n < |rows| :: OldAt(h, rows, n) }

  lemma OldExactly(h: Hasher, rows: seq<Entry>)
    requires AllOldRule(rows)
    ensures Report(h, rows) == [] <==> AllOld(h, rows)
  {
    ReportExactly(h, rows);
    if AllOld(h, rows) {
      forall n | 0 <= n < |rows| ensures SoundAt(h, rows, n) { OldIsSound(h, rows, n); }
    } else if Report(h, rows) == [] {
      SoundAreOld(h, rows, |rows|);
    }
  }

  // --- what is found ------------------------------------------------------------------------------------------------

  /** The place an entry's chain asks for next. */
  ghost predicate Expected(earlier: seq<Entry>, b: Body, place: int) {
    || (Alone(earlier, b) && place == 1)
    || exists i: nat :: i < |earlier| && Before(earlier, b, i) && Stands(earlier[i].body, place - 1)
  }

  /** The hash it asks for, and whose that is. */
  ghost predicate AskedFor(earlier: seq<Entry>, b: Body, link: Option<string>, of: Option<int>) {
    || (Alone(earlier, b) && link.None? && of.None?)
    || exists i: nat :: i < |earlier| && Before(earlier, b, i)
         && link == Some(earlier[i].hash) && of == Some(earlier[i].body.pos)
  }

  /** What the walk says of one entry, but for its root. */
  ghost predicate Finds(h: Hasher, earlier: seq<Entry>, e: Entry, f: Finding) {
    match f
    case NotRising(pos) => pos == e.body.pos &&
      (pos <= 0 || exists i :: 0 <= i < |earlier| && pos <= earlier[i].body.pos)
    case OldRule(pos) =>
      pos == e.body.pos && e.body.chainSeq.None? && exists i :: 0 <= i < |earlier| && earlier[i].body.chainSeq.Some?
    case Misplaced(pos, place) => pos == e.body.pos && Expected(earlier, e.body, place) && !Stands(e.body, place)
    case Unlinked(pos, of) =>
      pos == e.body.pos && exists link :: AskedFor(earlier, e.body, link, of) && e.body.prevHash != link
    case Altered(pos) => pos == e.body.pos && e.hash != h.sha(h.json(EntryDocument(e.body)))
    case _ => false
  }

  lemma ExpectedIs(earlier: seq<Entry>, b: Body)
    ensures var previous := Newer(earlier, ChainName(b));
            forall place :: Expected(earlier, b, place) <==>
              place == if previous.None? then 1 else Place(previous.value.body) + 1
  {
    var i := NewerIs(earlier, b);
    if i >= 0 {
      forall place | Expected(earlier, b, place) ensures place == Place(earlier[i].body) + 1 {
        var j: nat :| j < |earlier| && Before(earlier, b, j) && Stands(earlier[j].body, place - 1);
        BeforeIsOne(earlier, b, i, j);
      }
      var next := Place(earlier[i].body) + 1;
      assert Stands(earlier[i].body, next - 1);
      assert Expected(earlier, b, next);
    }
  }

  lemma AskedForIs(earlier: seq<Entry>, b: Body)
    ensures var previous := Newer(earlier, ChainName(b));
            forall link, of :: AskedFor(earlier, b, link, of) <==>
              if previous.None? then link.None? && of.None?
              else link == Some(previous.value.hash) && of == Some(previous.value.body.pos)
  {
    var i := NewerIs(earlier, b);
    if i >= 0 {
      forall link, of | AskedFor(earlier, b, link, of)
        ensures link == Some(earlier[i].hash) && of == Some(earlier[i].body.pos)
      {
        var j: nat :| j < |earlier| && Before(earlier, b, j)
          && link == Some(earlier[j].hash) && of == Some(earlier[j].body.pos);
        BeforeIsOne(earlier, b, i, j);
      }
    }
  }

  lemma RisesNot(earlier: seq<Entry>, pos: int)
    ensures pos <= Reached(earlier) <==> pos <= 0 || exists i :: 0 <= i < |earlier| && pos <= earlier[i].body.pos
  {
    if pos <= Reached(earlier) && pos > 0 {
      var x :| x in earlier && x.body.pos == Reached(earlier);
    }
  }

  lemma RuledExactly(earlier: seq<Entry>)
    ensures Ruled(earlier) <==> exists i :: 0 <= i < |earlier| && earlier[i].body.chainSeq.Some?
  {
  }

  lemma InWhens(p: bool, u: Finding, q: bool, v: Finding, r: bool, w: Finding, s: bool, x: Finding, t: bool, y: Finding,
          found: seq<Finding>, f: Finding)
    requires found == When(p, u) + When(q, v) + When(r, w) + When(s, x) + When(t, y)
    ensures f in found <==>
              (p && f == u) || (q && f == v) || (r && f == w) || (s && f == x) || (t && f == y)
  {
  }

  /** The findings on one entry, given the newest before it on its chain. */
  predicate Reports(h: Hasher, earlier: seq<Entry>, b: Body, hash: string, previous: Option<Entry>, f: Finding) {
    match f
    case NotRising(pos) => pos == b.pos && b.pos <= Reached(earlier)
    case OldRule(pos) => pos == b.pos && b.chainSeq.None? && Ruled(earlier)
    case Misplaced(pos, place) =>
      pos == b.pos && place == (if previous.None? then 1 else Place(previous.value.body) + 1) && Place(b) != place
    case Unlinked(pos, of) =>
      && pos == b.pos && of == (if previous.None? then None else Some(previous.value.body.pos))
      && b.prevHash != (if previous.None? then None else Some(previous.value.hash))
    case Altered(pos) => pos == b.pos && HashOf(h, EntryDocument(b)) != hash
    case _ => false
  }

  lemma ReportsIs(h: Hasher, earlier: seq<Entry>, b: Body, hash: string, previous: Option<Entry>, place: int,
          named: Option<int>, link: Option<string>, f: Finding)
    requires place == if previous.None? then 1 else Place(previous.value.body) + 1
    requires named == if previous.None? then None else Some(previous.value.body.pos)
    requires link == if previous.None? then None else Some(previous.value.hash)
    ensures Reports(h, earlier, b, hash, previous, f) <==>
              || (b.pos <= Reached(earlier) && f == NotRising(b.pos))
              || (b.chainSeq.None? && Ruled(earlier) && f == Finding.OldRule(b.pos))
              || (Place(b) != place && f == Misplaced(b.pos, place))
              || (b.prevHash != link && f == Unlinked(b.pos, named))
              || (HashOf(h, EntryDocument(b)) != hash && f == Altered(b.pos))
  {
  }

  lemma EntryFindingsAre(h: Hasher, earlier: seq<Entry>, e: Entry, previous: Option<Entry>, place: int,
          named: Option<int>, link: Option<string>)
    requires previous == Newer(earlier, ChainName(e.body))
    requires place == if previous.None? then 1 else Place(previous.value.body) + 1
    requires named == if previous.None? then None else Some(previous.value.body.pos)
    requires link == if previous.None? then None else Some(previous.value.hash)
    ensures var b := e.body;
            EntryFindings(h, earlier, e) == When(b.pos <= Reached(earlier), NotRising(b.pos))
              + When(b.chainSeq.None? && Ruled(earlier), Finding.OldRule(b.pos))
              + When(Place(b) != place, Misplaced(b.pos, place)) + When(b.prevHash != link, Unlinked(b.pos, named))
              + When(HashOf(h, EntryDocument(b)) != e.hash, Altered(b.pos))
  {
  }

  lemma FoundIn(h: Hasher, earlier: seq<Entry>, e: Entry, f: Finding)
    ensures f in EntryFindings(h, earlier, e) <==>
              Reports(h, earlier, e.body, e.hash, Newer(earlier, ChainName(e.body)), f)
  {
    var b := e.body;
    var previous := Newer(earlier, ChainName(b));
    var expected := if previous.None? then 1 else Place(previous.value.body) + 1;
    var link := if previous.None? then None else Some(previous.value.hash);
    var named := if previous.None? then None else Some(previous.value.body.pos);
    EntryFindingsAre(h, earlier, e, previous, expected, named, link);
    ReportsIs(h, earlier, b, e.hash, previous, expected, named, link, f);
    InWhens(b.pos <= Reached(earlier), NotRising(b.pos), b.chainSeq.None? && Ruled(earlier), Finding.OldRule(b.pos),
      Place(b) != expected, Misplaced(b.pos, expected), b.prevHash != link, Unlinked(b.pos, named),
      HashOf(h, EntryDocument(b)) != e.hash, Altered(b.pos), EntryFindings(h, earlier, e), f);
  }

  lemma UnlinkedExactly(h: Hasher, earlier: seq<Entry>, e: Entry, of: Option<int>)
    ensures Finds(h, earlier, e, Unlinked(e.body.pos, of)) <==>
              var previous := Newer(earlier, ChainName(e.body));
              && e.body.prevHash != (if previous.None? then None else Some(previous.value.hash))
              && of == (if previous.None? then None else Some(previous.value.body.pos))
  {
    AskedForIs(earlier, e.body);
  }

  lemma MisplacedExactly(h: Hasher, earlier: seq<Entry>, e: Entry, place: int)
    ensures Finds(h, earlier, e, Misplaced(e.body.pos, place)) <==>
              var previous := Newer(earlier, ChainName(e.body));
              && place == (if previous.None? then 1 else Place(previous.value.body) + 1)
              && Place(e.body) != place
  {
    ExpectedIs(earlier, e.body);
  }

  /** The walk's findings on an entry's place, hashes and rule, each with what it says. */
  lemma FindingsExactly(h: Hasher, earlier: seq<Entry>, e: Entry, f: Finding)
    ensures f in EntryFindings(h, earlier, e) <==> Finds(h, earlier, e, f)
  {
    FoundIn(h, earlier, e, f);
    match f
    case Unlinked(pos, of) => if pos == e.body.pos { UnlinkedExactly(h, earlier, e, of); }
    case Misplaced(pos, place) => if pos == e.body.pos { MisplacedExactly(h, earlier, e, place); }
    case NotRising(_) => RisesNot(earlier, e.body.pos);
    case OldRule(_) => RuledExactly(earlier);
    case _ =>
  }

  /** The newest entry is the first that no other is above. */
  lemma {:induction false} NewestHeadExactly(rows: seq<Entry>)
    ensures NewestHead(rows).None? <==> rows == []
    ensures NewestHead(rows).Some? ==>
              exists i: nat :: i < |rows| && NewestHead(rows) == Some((rows[i].body.pos, rows[i].hash))
                               && FirstHighest(rows, i)
  {
    if rows != [] {
      var before, last := rows[..|rows| - 1], rows[|rows| - 1];
      NewestHeadExactly(before);
      if before == [] || last.body.pos > NewestHead(before).value.0 {
        assert FirstHighest(rows, |rows| - 1);
      } else {
        var i: nat :| i < |before| && NewestHead(before) == Some((before[i].body.pos, before[i].hash))
          && FirstHighest(before, i);
        assert forall j | 0 <= j < |before| :: rows[j] == before[j];
        assert FirstHighest(rows, i);
      }
    }
  }

  predicate FirstHighest(rows: seq<Entry>, i: nat)
    requires i < |rows|
  {
    forall j | 0 <= j < |rows| ::
      rows[j].body.pos <= rows[i].body.pos && (j < i ==> rows[j].body.pos < rows[i].body.pos)
  }

  /** The hash noted at a position asked for is that of the last entry that has it. */
  lemma {:induction false} HashesExactly(rows: seq<Entry>, wanted: set<int>, pos: int)
    ensures pos in HashesAt(rows, wanted) <==> pos in wanted && exists i :: 0 <= i < |rows| && rows[i].body.pos == pos
    ensures forall i | 0 <= i < |rows| && pos in wanted && rows[i].body.pos == pos
                       && (forall j | i < j < |rows| :: rows[j].body.pos != pos) ::
              pos in HashesAt(rows, wanted) && HashesAt(rows, wanted)[pos] == rows[i].hash
  {
    if rows != [] {
      var before, last := rows[..|rows| - 1], rows[|rows| - 1];
      HashesExactly(before, wanted, pos);
      if pos in wanted && last.body.pos != pos {
        forall i | 0 <= i < |rows| && rows[i].body.pos == pos && (forall j | i < j < |rows| :: rows[j].body.pos != pos)
          ensures pos in HashesAt(before, wanted) && HashesAt(before, wanted)[pos] == rows[i].hash
        {
          assert rows[i] == before[i];
        }
      }
    }
  }

  /** A restored ledger fails its manifest exactly where the head of then is not among the hashes, or is another;
      and, asked for the exact head, where its newest entry is another. */
  lemma HeldExactly(chains: Chains, before: Option<(int, string)>, exact: Option<(int, string)>)
    ensures HeldTo(chains, before, exact) == [] <==>
            && (before.Some? ==> before.value.0 in chains.hashes && chains.hashes[before.value.0] == before.value.1)
            && (exact.Some? ==> chains.head == exact)
  {
  }
}
