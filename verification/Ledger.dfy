/** The walk of one tenant's ledger: every chain at once, in one pass. */
module Ledger {
  import opened Text
  import opened Merkle

  datatype Entry = Entry(body: Body, hash: string)

  const ANCHORED := "ledger.anchored"
  const TENANT := "tenant"

  /** The chain an entry is on: its run's, or "" for the tenant's. */
  function ChainName(b: Body): string {
    if b.chainSeq.None? || b.chain == Some(TENANT) || b.run.None? then "" else b.run.value
  }

  function Place(b: Body): int {
    if b.chainSeq.None? then b.pos else b.chainSeq.value
  }

  predicate IsAnchor(b: Body) { b.kind == ANCHORED && ChainName(b) == "" }

  // --- the heads an anchor covers ---------------------------------------------------------------

  /** What the walk keeps of a run chain's entry until an anchor covers it. */
  datatype Item = Item(pos: int, place: int, digest: string)

  function ItemOf(e: Entry): Item { Item(e.body.pos, Place(e.body), e.hash) }

  predicate ItemBelow(a: Item, b: Item) {
    if a.pos != b.pos then a.pos < b.pos
    else if a.place != b.place then a.place < b.place
    else Below(a.digest, b.digest)
  }

  /** `max(items)`. */
  function Newest(items: seq<Item>): (r: Item)
    requires items != []
    ensures r in items
    ensures forall x | x in items :: ItemBelow(x, r)
  {
    var last := items[|items| - 1];
    BelowReflexive(last.digest);
    if |items| == 1 then last
    else
      var r := Newest(items[..|items| - 1]);
      BelowTotal(r.digest, last.digest);
      if ItemBelow(last, r) then r
      else
        assert forall x | x in items[..|items| - 1] :: ItemBelow(x, last) by {
          forall x | x in items[..|items| - 1] ensures ItemBelow(x, last) {
            if x.pos == r.pos == last.pos && x.place == r.place == last.place {
              BelowTransitive(x.digest, r.digest, last.digest);
            }
          }
        }
        last
  }

  function Above(items: seq<Item>, lo: int): seq<Item> {
    if items == [] then []
    else
      var last := items[|items| - 1];
      Above(items[..|items| - 1], lo) + (if lo < last.pos then [last] else [])
  }

  function UpTo(items: seq<Item>, hi: int): seq<Item> {
    if items == [] then []
    else
      var last := items[|items| - 1];
      UpTo(items[..|items| - 1], hi) + (if last.pos <= hi then [last] else [])
  }

  function Within(items: seq<Item>, lo: int, hi: int): seq<Item> { UpTo(Above(items, lo), hi) }

  /** The entries of the chain `name`, oldest first. */
  function Chain(rows: seq<Entry>, name: string): seq<Entry> {
    if rows == [] then []
    else
      var last := rows[|rows| - 1];
      Chain(rows[..|rows| - 1], name) + (if ChainName(last.body) == name then [last] else [])
  }

  function Items(rows: seq<Entry>, name: string): seq<Item> {
    if rows == [] then []
    else
      var last := rows[|rows| - 1];
      Items(rows[..|rows| - 1], name) + (if ChainName(last.body) == name then [ItemOf(last)] else [])
  }

  lemma {:induction false} AboveMembers(items: seq<Item>, lo: int, x: Item)
    ensures x in Above(items, lo) <==> x in items && lo < x.pos
  {
    if items != [] {
      AboveMembers(items[..|items| - 1], lo, x);
      assert items == items[..|items| - 1] + [items[|items| - 1]];
    }
  }

  lemma {:induction false} UpToMembers(items: seq<Item>, hi: int, x: Item)
    ensures x in UpTo(items, hi) <==> x in items && x.pos <= hi
  {
    if items != [] {
      UpToMembers(items[..|items| - 1], hi, x);
      assert items == items[..|items| - 1] + [items[|items| - 1]];
    }
  }

  lemma WithinMembers(items: seq<Item>, lo: int, hi: int, x: Item)
    ensures x in Within(items, lo, hi) <==> x in items && lo < x.pos <= hi
  {
    AboveMembers(items, lo, x);
    UpToMembers(Above(items, lo), hi, x);
  }

  lemma {:induction false} ChainMembers(rows: seq<Entry>, name: string, e: Entry)
    ensures e in Chain(rows, name) <==> e in rows && ChainName(e.body) == name
  {
    if rows != [] {
      ChainMembers(rows[..|rows| - 1], name, e);
      assert rows == rows[..|rows| - 1] + [rows[|rows| - 1]];
    }
  }

  lemma {:induction false} ItemsOfChain(rows: seq<Entry>, name: string)
    ensures |Items(rows, name)| == |Chain(rows, name)|
    ensures forall i | 0 <= i < |Items(rows, name)| :: Items(rows, name)[i] == ItemOf(Chain(rows, name)[i])
  {
    if rows != [] {
      ItemsOfChain(rows[..|rows| - 1], name);
    }
  }

  function RunNames(rows: seq<Entry>): set<string> {
    set e | e in rows && ChainName(e.body) != "" :: ChainName(e.body)
  }

  /** For every run chain with an entry above `lo` and at or below `hi`, the newest such. */
  function Heads(rows: seq<Entry>, lo: int, hi: int): map<string, Item> {
    map c | c in RunNames(rows) && Within(Items(rows, c), lo, hi) != []
        :: Newest(Within(Items(rows, c), lo, hi))
  }

  function HeadOf(name: string, item: Item): Head { Head(name, item.place, item.digest) }

  /** The heads in the order of their chains. */
  function HeadList(m: map<string, Item>): seq<Head> { Listed(m, Sorted(m.Keys)) }

  function Listed(m: map<string, Item>, names: seq<string>): seq<Head>
    requires forall c | c in names :: c in m
  {
    if names == [] then [] else [HeadOf(names[0], m[names[0]])] + Listed(m, names[1..])
  }

  lemma {:induction false} ListedAt(m: map<string, Item>, names: seq<string>)
    requires forall c | c in names :: c in m
    ensures |Listed(m, names)| == |names|
    ensures forall i | 0 <= i < |names| :: Listed(m, names)[i] == HeadOf(names[i], m[names[i]])
  {
    if names != [] {
      ListedAt(m, names[1..]);
    }
  }

  function CoveredRoot(h: Hasher, rows: seq<Entry>, lo: int, hi: int): Option<string> {
    Root(h, HeadList(Heads(rows, lo, hi)))
  }

  // --- what the walk reports ---------------------------------------------------------------------

  datatype Finding =
    | NotRising(pos: int)
    | OldRule(pos: int)
    | Misplaced(pos: int, expected: int)
    | Unlinked(pos: int, predecessor: Option<int>)
    | Altered(pos: int)
    | Unbounded(pos: int)
    | OtherRoot(pos: int)

  /** The highest sequence number so far, never below 0. */
  function Reached(rows: seq<Entry>): (r: int)
    ensures r >= 0
    ensures forall e | e in rows :: e.body.pos <= r
    ensures r == 0 || exists e :: e in rows && e.body.pos == r
  {
    if rows == [] then 0
    else
      var last := rows[|rows| - 1];
      var r := Reached(rows[..|rows| - 1]);
      if last.body.pos > r then assert last in rows; last.body.pos else r
  }

  predicate Ruled(rows: seq<Entry>) {
    exists e | e in rows :: e.body.chainSeq.Some?
  }

  /** The bound of the newest anchor that had one, 0 before the first. */
  function Anchored(rows: seq<Entry>): int
    decreases |rows|, 0
  {
    if rows == [] then 0
    else
      var before, last := rows[..|rows| - 1], rows[|rows| - 1];
      if BoundedAnchor(before, last) then last.body.through.value else Anchored(before)
  }

  predicate BoundedAnchor(before: seq<Entry>, e: Entry)
    decreases |before|, 1
  {
    && IsAnchor(e.body)
    && e.body.through.Some?
    && Anchored(before) <= e.body.through.value < e.body.pos
  }

  function Newer(before: seq<Entry>, name: string): Option<Entry> {
    var c := Chain(before, name);
    if c == [] then None else Some(c[|c| - 1])
  }

  /** What the walk says of the entry `e` after the entries `before`. */
  function RowFindings(h: Hasher, before: seq<Entry>, e: Entry): seq<Finding> {
    EntryFindings(h, before, e) + AnchorFindings(h, before, e)
  }

  function EntryFindings(h: Hasher, before: seq<Entry>, e: Entry): seq<Finding> {
    var b := e.body;
    var previous := Newer(before, ChainName(b));
    var expected := if previous.None? then 1 else Place(previous.value.body) + 1;
    var link := if previous.None? then None else Some(previous.value.hash);
    var named := if previous.None? then None else Some(previous.value.body.pos);
    When(b.pos <= Reached(before), NotRising(b.pos))
    + When(b.chainSeq.None? && Ruled(before), OldRule(b.pos))
    + When(Place(b) != expected, Misplaced(b.pos, expected))
    + When(b.prevHash != link, Unlinked(b.pos, named))
    + When(HashOf(h, EntryDocument(b)) != e.hash, Altered(b.pos))
  }

  function When(condition: bool, finding: Finding): seq<Finding> {
    if condition then [finding] else []
  }

  function AnchorFindings(h: Hasher, before: seq<Entry>, e: Entry): seq<Finding> {
    if !IsAnchor(e.body) then []
    else if !BoundedAnchor(before, e) then [Unbounded(e.body.pos)]
    else if CoveredRoot(h, before, Anchored(before), e.body.through.value) != e.body.contentDigest
      then [OtherRoot(e.body.pos)]
    else []
  }

  function Report(h: Hasher, rows: seq<Entry>): seq<Finding> {
    if rows == [] then []
    else
      var before, last := rows[..|rows| - 1], rows[|rows| - 1];
      Report(h, before) + RowFindings(h, before, last)
  }

  /** The newest entry by sequence number, the first of several with one number. */
  function NewestHead(rows: seq<Entry>): Option<(int, string)> {
    if rows == [] then None
    else
      var last := rows[|rows| - 1];
      var r := NewestHead(rows[..|rows| - 1]);
      if r.None? || last.body.pos > r.value.0 then Some((last.body.pos, last.hash)) else r
  }

  /** The hash at each sequence number asked for, of the last entry that carries it. */
  function HashesAt(rows: seq<Entry>, wanted: set<int>): map<int, string> {
    if rows == [] then map[]
    else
      var last := rows[|rows| - 1];
      var r := HashesAt(rows[..|rows| - 1], wanted);
      if last.body.pos in wanted then r[last.body.pos := last.hash] else r
  }

  /** What a walk of one tenant's entries found. */
  datatype Chains = Chains(
    entries: nat,
    findings: seq<Finding>,
    head: Option<(int, string)>,
    hashes: map<int, string>)

  // --- the walk ------------------------------------------------------------------------------------

  function Kept(pending: map<string, seq<Item>>, name: string): seq<Item> {
    if name in pending then pending[name] else []
  }

  /** Above the newest bound, `pending` holds exactly the run chains' entries walked. */
  ghost predicate Holds(pending: map<string, seq<Item>>, rows: seq<Entry>, anchored: int) {
    && "" !in pending
    && forall c | c != "" :: Above(Kept(pending, c), anchored) == Above(Items(rows, c), anchored)
  }

  function PendingHeads(pending: map<string, seq<Item>>, names: set<string>, lo: int, hi: int): map<string, Item> {
    map c | c in names && c in pending && Within(pending[c], lo, hi) != [] :: Newest(Within(pending[c], lo, hi))
  }

  lemma {:induction false} AboveTwice(items: seq<Item>, lo: int, through: int)
    requires lo <= through
    ensures Above(Above(items, lo), through) == Above(items, through)
  {
    if items != [] {
      var before, last := items[..|items| - 1], items[|items| - 1];
      AboveTwice(before, lo, through);
      if lo < last.pos {
        assert Above(items, lo) == Above(before, lo) + [last];
        AboveSnoc(Above(before, lo), last, through);
      } else {
        assert Above(items, lo) == Above(before, lo) && Above(items, through) == Above(before, through);
      }
    }
  }

  lemma AboveSnoc(items: seq<Item>, last: Item, lo: int)
    ensures Above(items + [last], lo) == Above(items, lo) + (if lo < last.pos then [last] else [])
  {
    assert (items + [last])[..|items|] == items;
  }

  lemma ChainSnoc(rows: seq<Entry>, e: Entry, name: string)
    ensures Chain(rows + [e], name) == Chain(rows, name) + (if ChainName(e.body) == name then [e] else [])
    ensures Items(rows + [e], name) == Items(rows, name) + (if ChainName(e.body) == name then [ItemOf(e)] else [])
  {
    assert (rows + [e])[..|rows|] == rows;
  }

  lemma PendingHeadsAgree(pending: map<string, seq<Item>>, rows: seq<Entry>, lo: int, hi: int)
    requires Holds(pending, rows, lo)
    ensures PendingHeads(pending, pending.Keys, lo, hi) == Heads(rows, lo, hi)
  {
    forall c | c != "" ensures Within(Kept(pending, c), lo, hi) == Within(Items(rows, c), lo, hi) {
      assert Above(Kept(pending, c), lo) == Above(Items(rows, c), lo);
    }
    forall c | Within(Items(rows, c), lo, hi) != [] && c != "" ensures c in RunNames(rows) {
      var x := Within(Items(rows, c), lo, hi)[0];
      WithinMembers(Items(rows, c), lo, hi, x);
      NameOfItem(rows, c, x);
    }
    var a, b := PendingHeads(pending, pending.Keys, lo, hi), Heads(rows, lo, hi);
    assert a.Keys == b.Keys;
    assert forall c | c in a :: a[c] == b[c];
  }

  lemma NameOfItem(rows: seq<Entry>, c: string, x: Item)
    requires x in Items(rows, c) && c != ""
    ensures c in RunNames(rows)
  {
    ItemsOfChain(rows, c);
    var i :| 0 <= i < |Items(rows, c)| && Items(rows, c)[i] == x;
    ChainMembers(rows, c, Chain(rows, c)[i]);
  }

  lemma {:induction false} DistinctMultiset(s: seq<Head>)
    requires forall i, j | 0 <= i < j < |s| :: s[i] != s[j]
    ensures multiset(s) == multiset(set x | x in s)
  {
    if s != [] {
      var front, last := s[..|s| - 1], s[|s| - 1];
      DistinctMultiset(front);
      assert s == front + [last];
      assert (set x | x in s) == (set x | x in front) + {last};
    }
  }

  function HeadSet(m: map<string, Item>): set<Head> {
    set c | c in m :: HeadOf(c, m[c])
  }

  lemma HeadListMultiset(m: map<string, Item>)
    ensures multiset(HeadList(m)) == multiset(HeadSet(m))
  {
    var s, names := HeadList(m), Sorted(m.Keys);
    ListedAt(m, names);
    DistinctMultiset(s);
    forall x ensures x in s <==> x in HeadSet(m) {
      if x in HeadSet(m) {
        var c :| c in m && x == HeadOf(c, m[c]);
        assert c in names;
        var i :| 0 <= i < |names| && names[i] == c;
        assert s[i] == x;
      }
    }
    assert (set x | x in s) == HeadSet(m);
  }

  lemma HeadSetAdds(m: map<string, Item>, c: string, item: Item)
    requires c !in m
    ensures multiset(HeadSet(m[c := item])) == multiset(HeadSet(m)) + multiset{HeadOf(c, item)}
  {
    assert HeadSet(m[c := item]) == HeadSet(m) + {HeadOf(c, item)} by {
      forall x | x in HeadSet(m) + {HeadOf(c, item)} ensures x in HeadSet(m[c := item]) {
        if x in HeadSet(m) {
          var d :| d in m && x == HeadOf(d, m[d]);
          assert d in m[c := item] && m[c := item][d] == m[d];
        } else {
          assert c in m[c := item];
        }
      }
    }
    assert HeadOf(c, item) !in HeadSet(m);
  }

  lemma PendingHeadsGrow(pending: map<string, seq<Item>>, done: set<string>, c: string, lo: int, hi: int)
    requires c in pending && c !in done
    ensures var before, after := PendingHeads(pending, done, lo, hi), PendingHeads(pending, done + {c}, lo, hi);
            if Within(pending[c], lo, hi) == [] then after == before
            else multiset(HeadSet(after))
                 == multiset(HeadSet(before)) + multiset{HeadOf(c, Newest(Within(pending[c], lo, hi)))}
  {
    var before, after := PendingHeads(pending, done, lo, hi), PendingHeads(pending, done + {c}, lo, hi);
    if Within(pending[c], lo, hi) == [] {
      assert after == before;
    } else {
      var newest := Newest(Within(pending[c], lo, hi));
      assert after == before[c := newest];
      HeadSetAdds(before, c, newest);
    }
  }

  /** The heads of what is pending, in whatever order the dictionary gives its chains. */
  method CoveredHeads(pending: map<string, seq<Item>>, lo: int, hi: int) returns (heads: seq<Head>)
    ensures multiset(heads) == multiset(HeadSet(PendingHeads(pending, pending.Keys, lo, hi)))
  {
    heads := [];
    var rest := pending.Keys;
    assert PendingHeads(pending, {}, lo, hi) == map[];
    while rest != {}
      invariant rest <= pending.Keys
      invariant multiset(heads) == multiset(HeadSet(PendingHeads(pending, pending.Keys - rest, lo, hi)))
      decreases rest
    {
      var c :| c in rest;
      PendingHeadsGrow(pending, pending.Keys - rest, c, lo, hi);
      assert pending.Keys - (rest - {c}) == (pending.Keys - rest) + {c};
      var covered := Within(pending[c], lo, hi);
      if covered != [] {
        heads := heads + [HeadOf(c, Newest(covered))];
      }
      rest := rest - {c};
    }
    assert pending.Keys - rest == pending.Keys;
  }

  function Prune(pending: map<string, seq<Item>>, through: int): map<string, seq<Item>> {
    map c | c in pending && Above(pending[c], through) != [] :: Above(pending[c], through)
  }

  lemma PruneHolds(pending: map<string, seq<Item>>, rows: seq<Entry>, anchored: int, through: int)
    requires Holds(pending, rows, anchored) && anchored <= through
    ensures Holds(Prune(pending, through), rows, through)
  {
    forall c | c != ""
      ensures Above(Kept(Prune(pending, through), c), through) == Above(Items(rows, c), through)
    {
      AboveTwice(Items(rows, c), anchored, through);
      AboveTwice(Kept(pending, c), anchored, through);
      AboveTwice(Kept(pending, c), through, through);
      assert Kept(Prune(pending, through), c) == Above(Kept(pending, c), through);
    }
  }

  function Noted(pending: map<string, seq<Item>>, e: Entry): map<string, seq<Item>> {
    var name := ChainName(e.body);
    if name == "" then pending else pending[name := Kept(pending, name) + [ItemOf(e)]]
  }

  lemma NotedHolds(pending: map<string, seq<Item>>, rows: seq<Entry>, anchored: int, e: Entry)
    requires Holds(pending, rows, anchored)
    ensures Holds(Noted(pending, e), rows + [e], anchored)
  {
    forall c | c != ""
      ensures Above(Kept(Noted(pending, e), c), anchored) == Above(Items(rows + [e], c), anchored)
    {
      ChainSnoc(rows, e, c);
      AboveSnoc(Items(rows, c), ItemOf(e), anchored);
      AboveSnoc(Kept(pending, c), ItemOf(e), anchored);
      assert Above(Kept(pending, c), anchored) == Above(Items(rows, c), anchored);
      if c == ChainName(e.body) {
        assert Kept(Noted(pending, e), c) == Kept(pending, c) + [ItemOf(e)];
      } else {
        assert Kept(Noted(pending, e), c) == Kept(pending, c);
        assert Items(rows + [e], c) == Items(rows, c);
      }
    }
  }

  /** An anchor met on the walk: what it is found to be, the new bound, and what stays pending. */
  method AtAnchor(h: Hasher, ghost rows: seq<Entry>, e: Entry, pending: map<string, seq<Item>>, anchored: int)
    returns (findings: seq<Finding>, pruned: map<string, seq<Item>>, bound: int)
    requires anchored == Anchored(rows) && Holds(pending, rows, anchored)
    ensures findings == AnchorFindings(h, rows, e)
    ensures bound == Anchored(rows + [e]) && Holds(pruned, rows, bound)
  {
    findings, pruned, bound := [], pending, anchored;
    assert (rows + [e])[..|rows|] == rows;
    if e.body.kind == ANCHORED && ChainName(e.body) == "" {
      var through := e.body.through;
      if through.None? || through.value < anchored || through.value >= e.body.pos {
        findings := [Unbounded(e.body.pos)];
      } else {
        var heads := CoveredHeads(pending, anchored, through.value);
        var root := MerkleRoot(h, heads);
        PendingHeadsAgree(pending, rows, anchored, through.value);
        HeadListMultiset(Heads(rows, anchored, through.value));
        RootOfMultiset(h, heads, HeadList(Heads(rows, anchored, through.value)));
        if root != e.body.contentDigest {
          findings := [OtherRoot(e.body.pos)];
        }
        PruneHolds(pending, rows, anchored, through.value);
        pruned, bound := Prune(pending, through.value), through.value;
      }
    }
  }

  ghost predicate Tracks(chains: map<string, (int, string, int)>, rows: seq<Entry>) {
    forall c :: match Newer(rows, c)
                case None => c !in chains
                case Some(e) => c in chains && chains[c] == (Place(e.body), e.hash, e.body.pos)
  }

  lemma TracksSnoc(chains: map<string, (int, string, int)>, rows: seq<Entry>, e: Entry)
    requires Tracks(chains, rows)
    ensures Tracks(chains[ChainName(e.body) := (Place(e.body), e.hash, e.body.pos)], rows + [e])
  {
    forall c ensures Newer(rows + [e], c) == if c == ChainName(e.body) then Some(e) else Newer(rows, c) {
      ChainSnoc(rows, e, c);
    }
  }

  /** What an entry is found to be before it is looked at as an anchor. */
  method AtEntry(h: Hasher, ghost rows: seq<Entry>, e: Entry, reached: int, ruled: bool,
          chains: map<string, (int, string, int)>)
    returns (findings: seq<Finding>)
    requires reached == Reached(rows) && ruled == Ruled(rows) && Tracks(chains, rows)
    ensures findings == EntryFindings(h, rows, e)
  {
    var pos, name := e.body.pos, ChainName(e.body);
    assert Newer(rows, name).None? <==> name !in chains;
    var expected := if name in chains then chains[name].0 + 1 else 1;
    var link := if name in chains then Some(chains[name].1) else None;
    var named := if name in chains then Some(chains[name].2) else None;
    findings := When(pos <= reached, NotRising(pos));
    findings := findings + When(e.body.chainSeq.None? && ruled, OldRule(pos));
    findings := findings + When(Place(e.body) != expected, Misplaced(pos, expected));
    findings := findings + When(e.body.prevHash != link, Unlinked(pos, named));
    findings := findings + When(HashOf(h, EntryDocument(e.body)) != e.hash, Altered(pos));
  }

  lemma WalkSnoc(h: Hasher, rows: seq<Entry>, e: Entry, wanted: set<int>)
    ensures Report(h, rows + [e]) == Report(h, rows) + RowFindings(h, rows, e)
    ensures NewestHead(rows + [e]) ==
            if NewestHead(rows).None? || e.body.pos > NewestHead(rows).value.0 then Some((e.body.pos, e.hash))
              else NewestHead(rows)
    ensures HashesAt(rows + [e], wanted) ==
            if e.body.pos in wanted then HashesAt(rows, wanted)[e.body.pos := e.hash] else HashesAt(rows, wanted)
    ensures Reached(rows + [e]) == if e.body.pos > Reached(rows) then e.body.pos else Reached(rows)
    ensures Ruled(rows + [e]) <==> Ruled(rows) || e.body.chainSeq.Some?
  {
    assert (rows + [e])[..|rows|] == rows;
    RuledSnoc(rows, e);
  }

  /** The walk's own variables. */
  datatype Walk = Walk(
    found: Chains,
    reached: int,
    anchored: int,
    ruled: bool,
    chains: map<string, (int, string, int)>,
    pending: map<string, seq<Item>>)

  ghost predicate Walked(h: Hasher, rows: seq<Entry>, wanted: set<int>, w: Walk) {
    && w.found == Chains(|rows|, Report(h, rows), NewestHead(rows), HashesAt(rows, wanted))
    && w.reached == Reached(rows) && w.ruled == Ruled(rows)
    && w.anchored == Anchored(rows) && Holds(w.pending, rows, w.anchored)
    && Tracks(w.chains, rows)
  }

  method AtRow(h: Hasher, ghost rows: seq<Entry>, e: Entry, wanted: set<int>, w: Walk) returns (r: Walk)
    requires Walked(h, rows, wanted, w)
    ensures Walked(h, rows + [e], wanted, r)
  {
    var pos, found := e.body.pos, w.found;
    var findings := AtEntry(h, rows, e, w.reached, w.ruled, w.chains);
    var atAnchor, pruned, bound := AtAnchor(h, rows, e, w.pending, w.anchored);
    NotedHolds(pruned, rows, bound, e);
    TracksSnoc(w.chains, rows, e);
    WalkSnoc(h, rows, e, wanted);
    r := Walk(
      Chains(
        found.entries + 1,
        found.findings + (findings + atAnchor),
        if found.head.None? || pos > found.head.value.0 then Some((pos, e.hash)) else found.head,
        if pos in wanted then found.hashes[pos := e.hash] else found.hashes),
      if pos > w.reached then pos else w.reached,
      bound,
      w.ruled || e.body.chainSeq.Some?,
      w.chains[ChainName(e.body) := (Place(e.body), e.hash, pos)],
      Noted(pruned, e));
  }

  /** The walk's report is, entry by entry, what a fresh look at all earlier entries gives. */
  method VerifyLedger(h: Hasher, rows: seq<Entry>, wanted: set<int>) returns (found: Chains)
    ensures found == Chains(|rows|, Report(h, rows), NewestHead(rows), HashesAt(rows, wanted))
  {
    var w := Walk(Chains(0, [], None, map[]), 0, 0, false, map[], map[]);
    var n := 0;
    while n < |rows|
      invariant n <= |rows| && Walked(h, rows[..n], wanted, w)
    {
      assert rows[..n + 1] == rows[..n] + [rows[n]];
      w := AtRow(h, rows[..n], rows[n], wanted, w);
      n := n + 1;
    }
    assert rows[..n] == rows;
    found := w.found;
  }

  lemma RuledSnoc(rows: seq<Entry>, e: Entry)
    ensures Ruled(rows + [e]) <==> Ruled(rows) || e.body.chainSeq.Some?
  {
    if Ruled(rows) {
      var x :| x in rows && x.body.chainSeq.Some?;
      assert x in rows + [e];
    }
    if e.body.chainSeq.Some? { assert e in rows + [e]; }
  }

  datatype Failure = HeadNotHeld(pos: int) | OtherNewest(pos: int)

  /** Where a restored chain fails the digests taken before. */
  function HeldTo(chains: Chains, before: Option<(int, string)>, exact: Option<(int, string)>): seq<Failure> {
    (if before.Some? && !(before.value.0 in chains.hashes && chains.hashes[before.value.0] == before.value.1)
     then [HeadNotHeld(before.value.0)] else [])
    + (if exact.Some? && chains.head != exact then [OtherNewest(exact.value.0)] else [])
  }
}
