/** Documents, their hashes, and the anchor's tree over the heads of the run chains. */
module Merkle {
  import opened Text

  /** An entry's document without its `hash`. */
  datatype Body = Body(
    pos: int,
    kind: string,
    run: Option<string>,
    chainSeq: Option<int>,
    chain: Option<string>,
    prevHash: Option<string>,
    through: Option<int>,
    contentDigest: Option<string>,
    rest: string)

  /** What an anchor's tree has as a leaf: a chain, its newest place, and that entry's hash. */
  datatype Head = Head(chain: string, place: int, digest: string)

  datatype Document = EntryDocument(body: Body) | HeadDocument(head: Head)

  /** `json`: the canonical JSON text. `sha`: "sha256:" and the hexadecimal digest of a text. */
  datatype Hasher = Hasher(json: Document -> string, sha: string -> string)

  const DIGEST_LENGTH := 71

  /** What the encodings give: distinct documents have distinct texts, a text is a JSON object,
      and a digest has its prefix and its fixed length. */
  ghost predicate Encodes(h: Hasher) {
    && (forall d, e :: h.json(d) == h.json(e) ==> d == e)
    && (forall d :: IsObject(h.json(d)))
    && (forall t :: IsDigest(h.sha(t)))
  }

  predicate IsObject(text: string) { text != "" && text[0] == '{' }

  predicate IsDigest(text: string) { |text| == DIGEST_LENGTH && text[0] == 's' }

  /** No two of these texts have the same digest. Nothing is asked of any other text. */
  ghost predicate CollisionFree(h: Hasher, texts: set<string>) {
    forall x, y | x in texts && y in texts && h.sha(x) == h.sha(y) :: x == y
  }

  function HashOf(h: Hasher, d: Document): string { h.sha(h.json(d)) }

  // --- the order of the heads -----------------------------------------------------------------

  /** `a <= b` as Python compares the triples. */
  predicate HeadBelow(a: Head, b: Head) {
    if a.chain != b.chain then Below(a.chain, b.chain)
    else if a.place != b.place then a.place < b.place
    else Below(a.digest, b.digest)
  }

  lemma HeadOrder(a: Head, b: Head, c: Head)
    ensures HeadBelow(a, b) || HeadBelow(b, a)
    ensures HeadBelow(a, b) && HeadBelow(b, a) ==> a == b
    ensures HeadBelow(a, b) && HeadBelow(b, c) ==> HeadBelow(a, c)
  {
    BelowTotal(a.chain, b.chain);
    BelowTotal(a.digest, b.digest);
    if HeadBelow(a, b) && HeadBelow(b, a) {
      if a.chain != b.chain {
        BelowAntisymmetric(a.chain, b.chain);
      } else {
        BelowAntisymmetric(a.digest, b.digest);
      }
    }
    if HeadBelow(a, b) && HeadBelow(b, c) {
      if a.chain == b.chain == c.chain {
        if a.place == b.place == c.place { BelowTransitive(a.digest, b.digest, c.digest); }
      } else if a.chain != b.chain && b.chain != c.chain {
        BelowTransitive(a.chain, b.chain, c.chain);
        if a.chain == c.chain { BelowAntisymmetric(a.chain, b.chain); }
      }
    }
  }

  ghost predicate InOrder(s: seq<Head>) {
    forall i, j | 0 <= i < j < |s| :: HeadBelow(s[i], s[j])
  }

  function Insert(x: Head, s: seq<Head>): (r: seq<Head>)
    requires InOrder(s)
    ensures InOrder(r)
    ensures multiset(r) == multiset(s) + multiset{x}
  {
    if s == [] then [x]
    else if HeadBelow(x, s[0]) then
      assert forall j | 0 <= j < |s| :: HeadBelow(x, s[j]) by {
        forall j | 0 <= j < |s| ensures HeadBelow(x, s[j]) { HeadOrder(x, s[0], s[j]); }
      }
      [x] + s
    else
      var rest := Insert(x, s[1..]);
      assert s == [s[0]] + s[1..];
      assert forall j | 0 <= j < |rest| :: HeadBelow(s[0], rest[j]) by {
        HeadOrder(x, s[0], s[0]);
        forall j | 0 <= j < |rest| ensures HeadBelow(s[0], rest[j]) {
          assert rest[j] in multiset(rest);
        }
      }
      [s[0]] + rest
  }

  /** `sorted(heads)`. */
  function Sort(s: seq<Head>): (r: seq<Head>)
    ensures InOrder(r)
    ensures multiset(r) == multiset(s)
  {
    if s == [] then []
    else
      assert s == [s[0]] + s[1..];
      Insert(s[0], Sort(s[1..]))
  }

  lemma SameFirst(a: seq<Head>, b: seq<Head>)
    requires InOrder(a) && InOrder(b) && multiset(a) == multiset(b) && a != [] && b != []
    ensures a[0] == b[0]
  {
    assert a[0] in multiset(b) && b[0] in multiset(a);
    var i :| 0 <= i < |b| && b[i] == a[0];
    var j :| 0 <= j < |a| && a[j] == b[0];
    HeadOrder(a[0], b[0], a[0]);
    HeadOrder(a[0], a[0], a[0]);
    HeadOrder(b[0], b[0], b[0]);
  }

  lemma {:induction false} InOrderUnique(a: seq<Head>, b: seq<Head>)
    requires InOrder(a) && InOrder(b) && multiset(a) == multiset(b)
    ensures a == b
  {
    assert |a| == |multiset(a)| == |multiset(b)| == |b|;
    if a != [] {
      SameFirst(a, b);
      assert a == [a[0]] + a[1..] && b == [b[0]] + b[1..];
      assert multiset(a[1..]) == multiset(a) - multiset{a[0]};
      assert multiset(b[1..]) == multiset(b) - multiset{a[0]};
      InOrderUnique(a[1..], b[1..]);
    }
  }

  // --- the levels of the tree -----------------------------------------------------------------

  function Leaves(h: Hasher, heads: seq<Head>): (r: seq<string>)
    ensures |r| == |heads|
  {
    seq(|heads|, i requires 0 <= i < |heads| => HashOf(h, HeadDocument(heads[i])))
  }

  /** One level up: neighbours hashed together, an odd last one carried up unchanged. */
  function Halve(h: Hasher, level: seq<string>): (r: seq<string>)
    ensures |r| == (|level| + 1) / 2
  {
    if |level| < 2 then level
    else [h.sha(level[0] + level[1])] + Halve(h, level[2..])
  }

  function Top(h: Hasher, level: seq<string>): string
    requires level != []
    decreases |level|
  {
    if |level| == 1 then level[0] else Top(h, Halve(h, level))
  }

  function Root(h: Hasher, heads: seq<Head>): Option<string> {
    if heads == [] then None else Some(Top(h, Leaves(h, Sort(heads))))
  }

  lemma {:induction false} HalveAt(h: Hasher, level: seq<string>, i: nat)
    requires 2 * i < |level|
    ensures Halve(h, level)[i] ==
            if 2 * i + 1 < |level| then h.sha(level[2 * i] + level[2 * i + 1]) else level[2 * i]
  {
    if |level| >= 2 && i > 0 {
      HalveAt(h, level[2..], i - 1);
    }
  }

  method NextLevel(h: Hasher, level: seq<string>) returns (paired: seq<string>)
    ensures paired == Halve(h, level)
  {
    paired := [];
    var i := 0;
    while i + 1 < |level|
      invariant i == 2 * |paired| <= |level|
      invariant paired == Halve(h, level)[..|paired|]
    {
      HalveAt(h, level, |paired|);
      paired := paired + [h.sha(level[i] + level[i + 1])];
      i := i + 2;
    }
    if |level| % 2 == 1 {
      HalveAt(h, level, |paired|);
      paired := paired + [level[|level| - 1]];
    }
  }

  method MerkleRoot(h: Hasher, heads: seq<Head>) returns (root: Option<string>)
    ensures root == Root(h, heads)
  {
    SortLength(heads);
    var level := Leaves(h, Sort(heads));
    if |level| == 0 {
      return None;
    }
    while |level| > 1
      invariant level != [] && Root(h, heads) == Some(Top(h, level))
      decreases |level|
    {
      level := NextLevel(h, level);
    }
    root := Some(level[0]);
  }

  lemma SortLength(heads: seq<Head>)
    ensures |Sort(heads)| == |heads|
  {
    assert |Sort(heads)| == |multiset(Sort(heads))| == |multiset(heads)| == |heads|;
  }

  // --- what a root commits to -----------------------------------------------------------------

  datatype Tree = Leaf(text: string) | Node(left: Tree, right: Tree)

  function Digest(h: Hasher, t: Tree): string {
    match t
    case Leaf(text) => h.sha(text)
    case Node(l, r) => h.sha(Digest(h, l) + Digest(h, r))
  }

  function Texts(h: Hasher, t: Tree): set<string> {
    match t
    case Leaf(text) => {text}
    case Node(l, r) => {Digest(h, l) + Digest(h, r)} + Texts(h, l) + Texts(h, r)
  }

  predicate OfObjects(t: Tree) {
    match t
    case Leaf(text) => IsObject(text)
    case Node(l, r) => OfObjects(l) && OfObjects(r)
  }

  function Frontier(t: Tree): seq<string> {
    match t
    case Leaf(text) => [text]
    case Node(l, r) => Frontier(l) + Frontier(r)
  }

  function Frontiers(ts: seq<Tree>): seq<string> {
    if ts == [] then [] else Frontier(ts[0]) + Frontiers(ts[1..])
  }

  function Digests(h: Hasher, ts: seq<Tree>): (r: seq<string>)
    ensures |r| == |ts|
  {
    seq(|ts|, i requires 0 <= i < |ts| => Digest(h, ts[i]))
  }

  function HalveTrees(ts: seq<Tree>): (r: seq<Tree>)
    ensures |r| == (|ts| + 1) / 2
  {
    if |ts| < 2 then ts else [Node(ts[0], ts[1])] + HalveTrees(ts[2..])
  }

  function TopTree(ts: seq<Tree>): Tree
    requires ts != []
    decreases |ts|
  {
    if |ts| == 1 then ts[0] else TopTree(HalveTrees(ts))
  }

  lemma {:induction false} HalveTreesAgree(h: Hasher, ts: seq<Tree>)
    ensures Digests(h, HalveTrees(ts)) == Halve(h, Digests(h, ts))
    ensures Frontiers(HalveTrees(ts)) == Frontiers(ts)
    ensures (forall t | t in ts :: OfObjects(t)) ==> forall t | t in HalveTrees(ts) :: OfObjects(t)
  {
    if |ts| >= 2 {
      HalveTreesAgree(h, ts[2..]);
      assert Digests(h, ts)[2..] == Digests(h, ts[2..]);
      assert ts[1..][1..] == ts[2..];
      var node := Node(ts[0], ts[1]);
      assert HalveTrees(ts) == [node] + HalveTrees(ts[2..]);
      assert HalveTrees(ts)[1..] == HalveTrees(ts[2..]);
      assert Frontiers(ts) == Frontier(ts[0]) + (Frontier(ts[1]) + Frontiers(ts[2..]));
      assert Frontiers(HalveTrees(ts)) == (Frontier(ts[0]) + Frontier(ts[1])) + Frontiers(ts[2..]);
      assert Digests(h, HalveTrees(ts)) == [Digest(h, node)] + Digests(h, HalveTrees(ts[2..]));
    }
  }

  lemma {:induction false} TopTreeAgrees(h: Hasher, ts: seq<Tree>)
    requires ts != []
    ensures Digest(h, TopTree(ts)) == Top(h, Digests(h, ts))
    ensures Frontier(TopTree(ts)) == Frontiers(ts)
    ensures (forall t | t in ts :: OfObjects(t)) ==> OfObjects(TopTree(ts))
    decreases |ts|
  {
    if |ts| == 1 {
      assert ts == [ts[0]] && Frontiers(ts[1..]) == [];
    } else {
      HalveTreesAgree(h, ts);
      TopTreeAgrees(h, HalveTrees(ts));
    }
  }

  lemma NodeIsNoObject(h: Hasher, l: Tree, r: Tree)
    requires Encodes(h)
    ensures IsDigest(Digest(h, l)) && !IsObject(Digest(h, l) + Digest(h, r))
  {
  }

  /** A digest determines its whole tree, and so its size: a leaf's text begins as a JSON
      object, a node's as a digest, and both halves of a node's text have one length. */
  lemma {:induction false} DigestInjective(h: Hasher, a: Tree, b: Tree)
    requires Encodes(h) && OfObjects(a) && OfObjects(b)
    requires CollisionFree(h, Texts(h, a) + Texts(h, b))
    requires Digest(h, a) == Digest(h, b)
    ensures a == b
  {
    match (a, b) {
      case (Leaf(x), Leaf(y)) =>
      case (Leaf(x), Node(l, r)) =>
        NodeIsNoObject(h, l, r);
        assert false;
      case (Node(l, r), Leaf(x)) =>
        NodeIsNoObject(h, l, r);
        assert false;
      case (Node(l, r), Node(p, q)) =>
        var x, y := Digest(h, l) + Digest(h, r), Digest(h, p) + Digest(h, q);
        assert x == y;
        NodeIsNoObject(h, l, r);
        NodeIsNoObject(h, p, q);
        assert Digest(h, l) == x[..DIGEST_LENGTH] == y[..DIGEST_LENGTH] == Digest(h, p);
        assert Digest(h, r) == x[DIGEST_LENGTH..] == y[DIGEST_LENGTH..] == Digest(h, q);
        DigestInjective(h, l, p);
        DigestInjective(h, r, q);
    }
  }

  function LeafTrees(h: Hasher, heads: seq<Head>): (r: seq<Tree>)
    ensures |r| == |heads|
    ensures forall i | 0 <= i < |heads| :: r[i] == Leaf(h.json(HeadDocument(heads[i])))
  {
    seq(|heads|, i requires 0 <= i < |heads| => Leaf(h.json(HeadDocument(heads[i]))))
  }

  lemma {:induction false} FrontiersOfLeaves(h: Hasher, ts: seq<Tree>)
    requires forall t | t in ts :: t.Leaf?
    ensures |Frontiers(ts)| == |ts|
    ensures forall i | 0 <= i < |ts| :: Frontiers(ts)[i] == ts[i].text
  {
    if ts != [] {
      FrontiersOfLeaves(h, ts[1..]);
    }
  }

  /** Every text hashed to compute the root. */
  function RootTexts(h: Hasher, heads: seq<Head>): set<string> {
    if heads == [] then {}
    else
      assert Sort(heads) != [] by { assert heads[0] in multiset(Sort(heads)); }
      Texts(h, TopTree(LeafTrees(h, Sort(heads))))
  }

  /** The order of the heads does not matter. */
  lemma RootOfMultiset(h: Hasher, a: seq<Head>, b: seq<Head>)
    requires multiset(a) == multiset(b)
    ensures Root(h, a) == Root(h, b) && RootTexts(h, a) == RootTexts(h, b)
  {
    InOrderUnique(Sort(a), Sort(b));
    assert |a| == |multiset(a)| == |multiset(b)| == |b|;
  }

  lemma RootIsTop(h: Hasher, heads: seq<Head>)
    requires heads != [] && Encodes(h)
    ensures Sort(heads) != []
    ensures var t := TopTree(LeafTrees(h, Sort(heads)));
            Root(h, heads) == Some(Digest(h, t)) && OfObjects(t) && RootTexts(h, heads) == Texts(h, t)
  {
    SortLength(heads);
    var s := LeafTrees(h, Sort(heads));
    TopTreeAgrees(h, s);
    assert Digests(h, s) == Leaves(h, Sort(heads));
    assert forall u | u in s :: OfObjects(u);
  }

  lemma LeafTreesInjective(h: Hasher, x: seq<Head>, y: seq<Head>)
    requires Encodes(h)
    requires Frontiers(LeafTrees(h, x)) == Frontiers(LeafTrees(h, y))
    ensures x == y
  {
    var s, t := LeafTrees(h, x), LeafTrees(h, y);
    FrontiersOfLeaves(h, s);
    FrontiersOfLeaves(h, t);
    forall i | 0 <= i < |x| ensures x[i] == y[i] {
      assert s[i].text == t[i].text;
      assert HeadDocument(x[i]) == HeadDocument(y[i]);
    }
  }

  /** Two lists of heads of any lengths have one root only if they hold the same heads. */
  lemma RootInjective(h: Hasher, a: seq<Head>, b: seq<Head>)
    requires Encodes(h)
    requires CollisionFree(h, RootTexts(h, a) + RootTexts(h, b))
    requires Root(h, a) == Root(h, b)
    ensures multiset(a) == multiset(b)
  {
    if a != [] && b != [] {
      RootIsTop(h, a);
      RootIsTop(h, b);
      var s, t := LeafTrees(h, Sort(a)), LeafTrees(h, Sort(b));
      DigestInjective(h, TopTree(s), TopTree(t));
      TopTreeAgrees(h, s);
      TopTreeAgrees(h, t);
      LeafTreesInjective(h, Sort(a), Sort(b));
    }
  }
}
