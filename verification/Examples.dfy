/** The commitment's hypotheses met by real values: a spelling of documents, and two different ledgers
    with an anchor in common that it commits to one history. */
module Examples {
  import opened Text
  import opened Merkle
  import opened Ledger
  import opened Integrity
  import opened Commitment

  // --- a spelling of documents -------------------------------------------------------------------------------

  /** A string that ends where it says, whatever follows it. */
  function Ended(s: string): (r: string)
    ensures r != ""
  {
    if s == "" then "." else "+" + [s[0]] + Ended(s[1..])
  }

  lemma {:induction false} EndedReadsBack(a: string, b: string, x: string, y: string)
    requires Ended(a) + x == Ended(b) + y
    ensures a == b && x == y
    decreases |a|
  {
    var p, q := Ended(a) + x, Ended(b) + y;
    assert p[0] == (if a == "" then '.' else '+') && q[0] == (if b == "" then '.' else '+');
    if a == "" {
      assert p[1..] == x && q[1..] == y;
    } else {
      assert p[1] == a[0] && q[1] == b[0];
      assert p[2..] == Ended(a[1..]) + x && q[2..] == Ended(b[1..]) + y;
      EndedReadsBack(a[1..], b[1..], x, y);
      assert a == [a[0]] + a[1..] && b == [b[0]] + b[1..];
    }
  }

  function Joined(fields: seq<string>): string {
    if fields == [] then "" else Ended(fields[0]) + Joined(fields[1..])
  }

  lemma {:induction false} JoinedReadsBack(a: seq<string>, b: seq<string>)
    requires |a| == |b| && Joined(a) == Joined(b)
    ensures a == b
  {
    if a != [] {
      EndedReadsBack(a[0], b[0], Joined(a[1..]), Joined(b[1..]));
      JoinedReadsBack(a[1..], b[1..]);
      assert a == [a[0]] + a[1..] && b == [b[0]] + b[1..];
    }
  }

  function Ones(n: nat): (r: string)
    ensures |r| == n
  {
    if n == 0 then "" else "1" + Ones(n - 1)
  }

  function OfInt(n: int): string { if n < 0 then "-" + Ones(-n) else "+" + Ones(n) }

  function OfOption(s: Option<string>): string { if s.None? then "" else "s" + s.value }

  function OfOptionInt(n: Option<int>): string { if n.None? then "" else "i" + OfInt(n.value) }

  lemma OfIntReadsBack(a: int, b: int)
    ensures OfInt(a) == OfInt(b) ==> a == b
  {
    assert OfInt(a)[0] == (if a < 0 then '-' else '+') && OfInt(b)[0] == (if b < 0 then '-' else '+');
    assert |OfInt(a)| == 1 + (if a < 0 then -a else a) && |OfInt(b)| == 1 + (if b < 0 then -b else b);
  }

  lemma OfOptionReadsBack(a: Option<string>, b: Option<string>)
    ensures OfOption(a) == OfOption(b) ==> a == b
  {
    if a.Some? && b.Some? { assert OfOption(a)[1..] == a.value && OfOption(b)[1..] == b.value; }
  }

  lemma OfOptionIntReadsBack(a: Option<int>, b: Option<int>)
    ensures OfOptionInt(a) == OfOptionInt(b) ==> a == b
  {
    if a.Some? && b.Some? {
      assert OfOptionInt(a)[1..] == OfInt(a.value) && OfOptionInt(b)[1..] == OfInt(b.value);
      OfIntReadsBack(a.value, b.value);
    }
  }

  function Fields(d: Document): (r: seq<string>)
    ensures |r| == 10
  {
    match d
    case EntryDocument(b) =>
      ["entry", OfInt(b.pos), b.kind, OfOption(b.run), OfOptionInt(b.chainSeq), OfOption(b.chain), OfOption(b.prevHash),
       OfOptionInt(b.through), OfOption(b.contentDigest), b.rest]
    case HeadDocument(x) => ["head", x.chain, OfInt(x.place), x.digest, "", "", "", "", "", ""]
  }

  function Spelled(d: Document): string { "{" + Joined(Fields(d)) }

  lemma TagsDiffer()
    ensures "entry" != "head"
  {
    assert |"entry"| != |"head"|;
  }

  lemma FieldsReadBack(a: Document, b: Document)
    requires Fields(a) == Fields(b)
    ensures a == b
  {
    var p, q := Fields(a), Fields(b);
    TagsDiffer();
    assert p[0] == q[0] && p[1] == q[1] && p[2] == q[2] && p[3] == q[3];
    if a.HeadDocument? && b.HeadDocument? {
      OfIntReadsBack(a.head.place, b.head.place);
    } else if a.EntryDocument? && b.EntryDocument? {
      assert p[4] == q[4] && p[5] == q[5] && p[6] == q[6] && p[7] == q[7] && p[8] == q[8] && p[9] == q[9];
      OfIntReadsBack(a.body.pos, b.body.pos);
      OfOptionReadsBack(a.body.run, b.body.run);
      OfOptionIntReadsBack(a.body.chainSeq, b.body.chainSeq);
      OfOptionReadsBack(a.body.chain, b.body.chain);
      OfOptionReadsBack(a.body.prevHash, b.body.prevHash);
      OfOptionIntReadsBack(a.body.through, b.body.through);
      OfOptionReadsBack(a.body.contentDigest, b.body.contentDigest);
    }
  }

  /** Distinct documents are spelled differently. */
  lemma SpelledReadsBack(a: Document, b: Document)
    requires Spelled(a) == Spelled(b)
    ensures a == b
  {
    assert Spelled(a)[1..] == Joined(Fields(a)) && Spelled(b)[1..] == Joined(Fields(b));
    JoinedReadsBack(Fields(a), Fields(b));
    FieldsReadBack(a, b);
  }

  function Filled(c: char): (r: string)
    ensures IsDigest(r) && r[1] == c
  {
    ['s', c] + seq(69, _ => 'a')
  }

  /** A digest that tells three texts from one another and from every other. */
  function Digest(marked: (string, string, string), t: string): string {
    Filled(if t == marked.0 then 'a' else if t == marked.1 then 'b' else if t == marked.2 then 'c' else 'd')
  }

  function Telling(marked: (string, string, string)): Hasher { Hasher(Spelled, t => Digest(marked, t)) }

  lemma TellingEncodes(marked: (string, string, string))
    ensures Encodes(Telling(marked))
  {
    var h := Telling(marked);
    forall d, e | h.json(d) == h.json(e) ensures d == e { SpelledReadsBack(d, e); }
    forall d ensures IsObject(h.json(d)) {}
    forall t ensures IsDigest(h.sha(t)) {}
  }

  lemma SpelledApart(a: Document, b: Document)
    requires a != b
    ensures Spelled(a) != Spelled(b)
  {
    if Spelled(a) == Spelled(b) { SpelledReadsBack(a, b); }
  }

  /** The digests of four documents, three of them told apart. */
  lemma ToldApart(h: Hasher, a: Document, b: Document, c: Document, d: Document)
    requires h == Telling((Spelled(a), Spelled(b), Spelled(c)))
    requires a != b && a != c && b != c && d != a && d != b && d != c
    ensures HashOf(h, a) == Filled('a') && HashOf(h, b) == Filled('b') && HashOf(h, c) == Filled('c') &&
            HashOf(h, d) == Filled('d')
  {
    SpelledApart(a, b);
    SpelledApart(a, c);
    SpelledApart(b, c);
    SpelledApart(d, a);
    SpelledApart(d, b);
    SpelledApart(d, c);
  }

  // --- two ledgers -----------------------------------------------------------------------------------------------

  /** A run's first entry, and the head an anchor reads of it; the anchor; and another run's first entry,
      which no anchor covers. */
  datatype Story = Story(started: Body, head: Head, covering: Body, later: Body)

  predicate Told(x: Story) {
    && x.started.pos == 1 && x.started.chainSeq == Some(1) && x.started.prevHash.None? && ChainName(x.started) != ""
    && x.head == Head(ChainName(x.started), 1, Filled('a'))
    && x.covering.pos == 2 && x.covering.chainSeq == Some(1) && x.covering.prevHash.None? && IsAnchor(x.covering)
    && x.covering.through == Some(1) && x.covering.contentDigest == Some(Filled('b'))
    && x.later.pos == 3 && x.later.chainSeq == Some(1) && x.later.prevHash.None?
    && ChainName(x.later) != "" && ChainName(x.later) != ChainName(x.started)
  }

  function First(x: Story): Entry { Entry(x.started, Filled('a')) }

  function Anchor(x: Story): Entry { Entry(x.covering, Filled('c')) }

  function Later(x: Story): Entry { Entry(x.later, Filled('d')) }

  /** The two ledgers: the second has the run that started later. */
  function Shorter(x: Story): seq<Entry> { [First(x)] + [Anchor(x)] }

  function Longer(x: Story): seq<Entry> { Shorter(x) + [Later(x)] }

  /** Its documents have the digests the entries name. */
  predicate Digested(h: Hasher, x: Story) {
    && HashOf(h, EntryDocument(x.started)) == Filled('a') && HashOf(h, HeadDocument(x.head)) == Filled('b')
    && HashOf(h, EntryDocument(x.covering)) == Filled('c') && HashOf(h, EntryDocument(x.later)) == Filled('d')
  }

  // --- the root over one head -------------------------------------------------------------------------------------

  lemma RootOfOne(h: Hasher, x: Head)
    ensures Root(h, [x]) == Some(HashOf(h, HeadDocument(x))) && RootTexts(h, [x]) == {h.json(HeadDocument(x))}
  {
    assert Sort([x]) == [x] by {
      assert [x][1..] == [];
      assert Sort([]) == [];
    }
    assert Leaves(h, [x]) == [HashOf(h, HeadDocument(x))];
    assert LeafTrees(h, [x]) == [Leaf(h.json(HeadDocument(x)))];
  }

  lemma WithinOne(i: Item, lo: int, hi: int)
    requires lo < i.pos <= hi
    ensures Within([i], lo, hi) == [i]
  {
    assert [i][..0] == [] && Above([], lo) == [] && UpTo([], hi) == [];
    assert Above([i], lo) == [i];
    assert UpTo([i], hi) == [i];
  }

  lemma ListOfOne(c: string, i: Item)
    ensures HeadList(map[c := i]) == [HeadOf(c, i)]
  {
    var m := map[c := i];
    assert m.Keys == {c};
    assert Sorted({c})[0] in Sorted({c});
    assert Sorted({c}) == [c];
    ListedAt(m, [c]);
  }

  lemma HeadsOfFirst(e: Entry)
    requires ChainName(e.body) != "" && e.body.pos == 1
    ensures Heads([e], 0, 1) == map[ChainName(e.body) := ItemOf(e)]
  {
    var c := ChainName(e.body);
    ChainSnoc([], e, c);
    assert [] + [e] == [e] && RunNames([e]) == {c};
    WithinOne(ItemOf(e), 0, 1);
  }

  lemma AnchorCovers(x: Story)
    requires Told(x)
    ensures Anchors([First(x)]) == [] && HeadList(Heads([First(x)], 0, 1)) == [x.head]
    ensures Anchors(Shorter(x)) == [Anchor(x)] && HeadList(Heads(Shorter(x), 0, 1)) == [x.head]
    ensures Anchors(Longer(x)) == [Anchor(x)] && HeadList(Heads(Longer(x), 0, 1)) == [x.head]
  {
    AnchorsSnoc([], First(x));
    assert [] + [First(x)] == [First(x)];
    AnchorsSnoc([First(x)], Anchor(x));
    AnchorsSnoc(Shorter(x), Later(x));
    HeadsOfFirst(First(x));
    ListOfOne(ChainName(x.started), ItemOf(First(x)));
    HeadsSnoc([First(x)], Anchor(x), 0, 1);
    HeadsSnoc(Shorter(x), Later(x), 0, 1);
  }

  // --- both are intact ---------------------------------------------------------------------------------------------

  /** The first entry of a chain, above all there is, and no anchor. */
  lemma StartsIntact(h: Hasher, rows: seq<Entry>, e: Entry)
    requires Intact(h, rows) && Reached(rows) < e.body.pos && Chain(rows, ChainName(e.body)) == [] && !IsAnchor(e.body)
    requires e.body.chainSeq == Some(1) && e.body.prevHash.None? && HashOf(h, EntryDocument(e.body)) == e.hash
    ensures Intact(h, rows + [e])
  {
    NothingFound(h, rows, e);
    IntactSnoc(h, rows, e);
  }

  lemma FirstIntact(h: Hasher, x: Story)
    requires Told(x) && Digested(h, x)
    ensures Intact(h, [First(x)])
  {
    ReportIffIntact(h, []);
    StartsIntact(h, [], First(x));
    assert [] + [First(x)] == [First(x)];
  }

  lemma CoversFirst(h: Hasher, x: Story)
    requires Told(x) && Digested(h, x)
    ensures CoveredRoot(h, [First(x)], 0, 1) == Some(Filled('b'))
  {
    AnchorCovers(x);
    RootOfOne(h, x.head);
  }

  lemma AnchoredOfOne(e: Entry)
    requires !IsAnchor(e.body)
    ensures Anchored([e]) == 0
  {
    assert [e][..0] == [];
  }

  lemma AnchorFindsNothing(h: Hasher, x: Story)
    requires Told(x) && Digested(h, x)
    ensures AnchorFindings(h, [First(x)], Anchor(x)) == []
  {
    CoversFirst(h, x);
    AnchoredOfOne(First(x));
  }

  lemma ShorterIntact(h: Hasher, x: Story)
    requires Told(x) && Digested(h, x)
    ensures Intact(h, Shorter(x))
  {
    FirstIntact(h, x);
    AnchorFindsNothing(h, x);
    ChainSnoc([], First(x), "");
    assert [] + [First(x)] == [First(x)] && [First(x)][..0] == [];
    NothingFound(h, [First(x)], Anchor(x));
    IntactSnoc(h, [First(x)], Anchor(x));
  }

  lemma LongerIntact(h: Hasher, x: Story)
    requires Told(x) && Digested(h, x)
    ensures Intact(h, Longer(x))
  {
    var c := ChainName(x.later);
    ShorterIntact(h, x);
    ChainSnoc([], First(x), c);
    ChainSnoc([First(x)], Anchor(x), c);
    assert [] + [First(x)] == [First(x)];
    assert forall e | e in Shorter(x) :: e.body.pos <= 2;
    StartsIntact(h, Shorter(x), Later(x));
  }

  // --- what is hashed ----------------------------------------------------------------------------------------------

  lemma CoveredAre(x: Story, rows: seq<Entry>, k: nat)
    requires Anchors(rows) == [Anchor(x)] && HeadList(Heads(rows, 0, 1)) == [x.head] && x.covering.through == Some(1)
    requires k < |Anchors(rows)|
    ensures Covered(rows, k) == [x.head]
  {
  }

  lemma RootTextsAre(h: Hasher, x: Story, rows: seq<Entry>, k: nat)
    requires Anchors(rows) == [Anchor(x)] && HeadList(Heads(rows, 0, 1)) == [x.head] && x.covering.through == Some(1)
    requires k < |Anchors(rows)|
    ensures RootTexts(h, Covered(rows, k)) == {h.json(HeadDocument(x.head))}
  {
    CoveredAre(x, rows, k);
    RootOfOne(h, x.head);
  }

  lemma HashedBy(h: Hasher, rows: seq<Entry>, texts: set<string>)
    requires forall e | e in rows :: h.json(EntryDocument(e.body)) in texts
    requires forall k | 0 <= k < |Anchors(rows)| :: RootTexts(h, Covered(rows, k)) <= texts
    ensures Hashed(h, rows) <= texts
  {
  }

  /** The texts hashed for a ledger of these entries with this anchor. */
  lemma HashedAre(h: Hasher, x: Story, rows: seq<Entry>)
    requires Anchors(rows) == [Anchor(x)] && HeadList(Heads(rows, 0, 1)) == [x.head] && x.covering.through == Some(1)
    requires forall e | e in rows :: h.json(EntryDocument(e.body)) in TextsOf(h, x)
    ensures Hashed(h, rows) <= TextsOf(h, x)
  {
    forall k | 0 <= k < |Anchors(rows)| ensures RootTexts(h, Covered(rows, k)) <= TextsOf(h, x) {
      RootTextsAre(h, x, rows, k);
    }
    HashedBy(h, rows, TextsOf(h, x));
  }

  lemma EntryTexts(h: Hasher, x: Story)
    ensures forall e | e in Shorter(x) :: h.json(EntryDocument(e.body)) in TextsOf(h, x)
    ensures forall e | e in Longer(x) :: h.json(EntryDocument(e.body)) in TextsOf(h, x)
  {
  }

  lemma ShorterHashed(h: Hasher, x: Story)
    requires Told(x)
    ensures Hashed(h, Shorter(x)) <= TextsOf(h, x)
  {
    AnchorCovers(x);
    EntryTexts(h, x);
    HashedAre(h, x, Shorter(x));
  }

  lemma LongerHashed(h: Hasher, x: Story)
    requires Told(x)
    ensures Hashed(h, Longer(x)) <= TextsOf(h, x)
  {
    AnchorCovers(x);
    EntryTexts(h, x);
    HashedAre(h, x, Longer(x));
  }

  function TextsOf(h: Hasher, x: Story): set<string> {
    {h.json(EntryDocument(x.started)), h.json(HeadDocument(x.head)), h.json(EntryDocument(x.covering)),
      h.json(EntryDocument(x.later))}
  }

  lemma DigestsApart(h: Hasher, x: Story)
    requires Digested(h, x)
    ensures CollisionFree(h, TextsOf(h, x))
  {
    assert Filled('a')[1] == 'a' && Filled('b')[1] == 'b' && Filled('c')[1] == 'c' && Filled('d')[1] == 'd';
  }

  lemma NoCollision(h: Hasher, x: Story)
    requires Told(x) && Digested(h, x)
    ensures CollisionFree(h, Hashed(h, Shorter(x)) + Hashed(h, Longer(x)))
  {
    ShorterHashed(h, x);
    LongerHashed(h, x);
    DigestsApart(h, x);
    assert Hashed(h, Shorter(x)) + Hashed(h, Longer(x)) <= TextsOf(h, x);
  }

  // --- the commitment's hypotheses ----------------------------------------------------------------------------------

  /** What `Commitment.SameTenantHead` asks of two ledgers. */
  ghost predicate Meets(h: Hasher, a: seq<Entry>, b: seq<Entry>) {
    && Encodes(h) && CollisionFree(h, Hashed(h, a) + Hashed(h, b))
    && Report(h, a) == [] && Report(h, b) == []
    && Chain(a, "") != [] && Chain(b, "") != []
    && Chain(a, "")[|Chain(a, "")| - 1].hash == Chain(b, "")[|Chain(b, "")| - 1].hash
  }

  lemma TenantChains(x: Story)
    requires Told(x)
    ensures Chain(Shorter(x), "") == [Anchor(x)] == Chain(Longer(x), "")
  {
    ChainSnoc([], First(x), "");
    assert [] + [First(x)] == [First(x)];
    ChainSnoc([First(x)], Anchor(x), "");
    ChainSnoc(Shorter(x), Later(x), "");
  }

  lemma StoryMeets(x: Story) returns (h: Hasher)
    requires Told(x)
    ensures Meets(h, Shorter(x), Longer(x))
  {
    h := Telling((Spelled(EntryDocument(x.started)), Spelled(HeadDocument(x.head)),
      Spelled(EntryDocument(x.covering))));
    TellingEncodes((Spelled(EntryDocument(x.started)), Spelled(HeadDocument(x.head)),
      Spelled(EntryDocument(x.covering))));
    ToldApart(h, EntryDocument(x.started), HeadDocument(x.head), EntryDocument(x.covering), EntryDocument(x.later));
    assert Digested(h, x);
    ShorterIntact(h, x);
    LongerIntact(h, x);
    ReportIffIntact(h, Shorter(x));
    ReportIffIntact(h, Longer(x));
    NoCollision(h, x);
    TenantChains(x);
  }

  /** A hasher and two different ledgers with an anchor that meet what `Commitment.SameTenantHead` asks. */
  lemma DifferentLedgersMeet() returns (h: Hasher, a: seq<Entry>, b: seq<Entry>)
    ensures Meets(h, a, b) && a != b && Anchors(a) != [] && Anchors(b) != []
  {
    var x := Story(
      Body(1, "started", Some("r"), Some(1), None, None, None, None, ""),
      Head("r", 1, Filled('a')),
      Body(2, ANCHORED, None, Some(1), None, None, Some(1), Some(Filled('b')), ""),
      Body(3, "started", Some("q"), Some(1), None, None, None, None, ""));
    assert "r"[0] != "q"[0];
    h := StoryMeets(x);
    a, b := Shorter(x), Longer(x);
    AnchorCovers(x);
  }
}
