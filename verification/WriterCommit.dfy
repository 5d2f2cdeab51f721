/** The two steps that write: an entry into its transaction, and a transaction into the ledger.
    Then what holds over every run. */
module WriterCommit {
  import opened Text
  import opened Merkle
  import opened Ledger
  import opened Integrity
  import opened Writers
  import opened Interleaving
  import opened WriterSafety

  // --- an entry appended --------------------------------------------------------------------------------

  lemma LinkFacts(h: Hasher, previous: Option<Entry>, f: Fact, pos: int)
    ensures var e := Link(h, previous, f, pos);
            && ChainName(e.body) == ChainFor(f)
            && e.body.pos == pos && e.body.chainSeq.Some?
            && HashOf(h, EntryDocument(e.body)) == e.hash
            && (IsAnchor(e.body) <==> f.kind == ANCHORED && ChainFor(f) == "")
            && e.body.through == f.through && e.body.contentDigest == f.contentDigest
            && Place(e.body) == (if previous.None? then 1 else Place(previous.value.body) + 1)
            && e.body.prevHash == (if previous.None? then None else Some(previous.value.hash))
  {
  }

  lemma LinkExtends(h: Hasher, chain: seq<Entry>, f: Fact, pos: int)
    requires Linked(chain)
    ensures Linked(chain + [Link(h, Last(chain), f, pos)])
  {
    var e := Link(h, Last(chain), f, pos);
    LinkedSnoc(chain, e);
    if chain != [] {
      assert LinkedAt(chain, |chain| - 1);
    }
  }

  lemma AppendedChain(h: Hasher, rows: seq<Entry>, x: Tx, y: Tx, f: Fact, pos: int, c: string)
    requires ChainOk(rows, x, c) && x.locks <= y.locks && ChainFor(f) in x.locks
    requires y.own == x.own + [Link(h, Last(Chain(rows, ChainFor(f)) + Chain(x.own, ChainFor(f))), f, pos)]
    requires forall e | e in Chain(rows, ChainFor(f)) :: e.body.pos < pos
    ensures ChainOk(rows, y, c)
  {
    var seen := Chain(rows, ChainFor(f)) + Chain(x.own, ChainFor(f));
    var e := Link(h, Last(seen), f, pos);
    LinkFacts(h, Last(seen), f, pos);
    ChainSnoc(x.own, e, c);
    if c == ChainFor(f) {
      AppendedOwnChain(h, rows, x, y, f, pos);
    } else {
      assert Chain(y.own, c) == Chain(x.own, c);
    }
  }

  lemma AppendedOwnChain(h: Hasher, rows: seq<Entry>, x: Tx, y: Tx, f: Fact, pos: int)
    requires ChainOk(rows, x, ChainFor(f)) && ChainFor(f) in y.locks
    requires y.own == x.own + [Link(h, Last(Chain(rows, ChainFor(f)) + Chain(x.own, ChainFor(f))), f, pos)]
    requires forall e | e in Chain(rows, ChainFor(f)) :: e.body.pos < pos
    ensures ChainOk(rows, y, ChainFor(f))
  {
    var c := ChainFor(f);
    var seen := Chain(rows, c) + Chain(x.own, c);
    var e := Link(h, Last(seen), f, pos);
    LinkFacts(h, Last(seen), f, pos);
    ChainSnoc(x.own, e, c);
    assert Chain(y.own, c) == Chain(x.own, c) + [e];
    LinkExtends(h, seen, f, pos);
    LinkedSum(Chain(rows, c), Chain(x.own, c), e);
  }

  lemma LinkedSum(below: seq<Entry>, above: seq<Entry>, e: Entry)
    requires Linked(below + above + [e]) && AllBelow(below, above) && forall b | b in below :: b.body.pos < e.body.pos
    ensures Linked(below + (above + [e])) && AllBelow(below, above + [e])
  {
    assert below + (above + [e]) == below + above + [e];
  }

  lemma AppendedOwn(h: Hasher, base: int, s: State, t: nat)
    requires Running(s, t) && s.txs[t].phase.Allocated? && 0 <= base && OwnOk(h, base, s, s.txs[t]) &&
             PhaseOk(h, base, s, t)
    ensures OwnOk(h, base, DoAppend(h, s, t), DoAppend(h, s, t).txs[t])
  {
    var x, p := s.txs[t], s.txs[t].phase;
    LinkFacts(h, p.previous, p.fact, p.pos);
    RisingWith(x.own, Link(h, p.previous, p.fact, p.pos));
  }

  /** The anchors a transaction sees, after one more entry of its own. */
  lemma AppendedAnchors(s: State, t: nat, e: Entry)
    requires t in s.txs
    ensures AnchorsOf(Chain(s.rows, "") + Chain(s.txs[t].own + [e], "")) ==
            AnchorsOf(ChainSeen(s, t, "")) + (if IsAnchor(e.body) then [e] else [])
  {
    var own := s.txs[t].own;
    ChainSnoc(own, e, "");
    if ChainName(e.body) == "" {
      assert Chain(s.rows, "") + Chain(own + [e], "") == ChainSeen(s, t, "") + [e];
      AnchorsOfSum(ChainSeen(s, t, ""), [e]);
      assert AnchorsOf([e]) == AnchorsOf([]) + (if IsAnchor(e.body) then [e] else []);
    } else {
      assert Chain(s.rows, "") + Chain(own + [e], "") == ChainSeen(s, t, "");
    }
  }

  lemma AppendKeepsAnchor(h: Hasher, view: seq<Entry>, e: Entry, a: seq<Entry>, b: seq<Entry>, k: nat)
    requires k < |a| && a <= b && AnchorIn(h, view, a, k)
    requires ChainName(e.body) == "" || a[k].body.through.value < e.body.pos
    ensures AnchorIn(h, view + [e], b, k)
  {
    assert b[k] == a[k] && (k > 0 ==> b[k - 1] == a[k - 1]);
    assert From(a, k) == From(b, k);
    SameRoot(h, view, view + [e], From(a, k), a[k].body.through.value);
  }

  lemma OwnAnchorBefore(s: State, t: nat, k: nat)
    requires t in s.txs
    requires |Anchors(s.rows)| <= k < |AnchorsOf(ChainSeen(s, t, ""))|
    ensures AnchorsOf(ChainSeen(s, t, ""))[k] in s.txs[t].own
  {
    var own := Chain(s.txs[t].own, "");
    AnchorsOfSum(Chain(s.rows, ""), own);
    var e := AnchorsOf(own)[k - |Anchors(s.rows)|];
    AnchorMembers(own, e);
    ChainMembers(s.txs[t].own, "", e);
  }

  lemma AppendedAnchorHolds(h: Hasher, base: int, s: State, t: nat, k: nat)
    requires Running(s, t) && s.txs[t].phase.Allocated?
    requires OwnAnchorsOk(h, s, t) && PhaseOk(h, base, s, t)
    requires var p := s.txs[t].phase;
             var e := Link(h, p.previous, p.fact, p.pos);
             |Anchors(s.rows)| <= k < |AnchorsOf(Chain(s.rows, "") + Chain(s.txs[t].own + [e], ""))|
    ensures var p := s.txs[t].phase;
            var e := Link(h, p.previous, p.fact, p.pos);
            var all := AnchorsOf(Chain(s.rows, "") + Chain(s.txs[t].own + [e], ""));
            AnchorIn(h, s.rows + s.txs[t].own + [e], all, k) && StableBut(s, ThroughOf(all[k]), t)
  {
    var x, p := s.txs[t], s.txs[t].phase;
    var e := Link(h, p.previous, p.fact, p.pos);
    LinkFacts(h, p.previous, p.fact, p.pos);
    AppendedAnchors(s, t, e);
    var before, all := AnchorsOf(ChainSeen(s, t, "")), AnchorsOf(Chain(s.rows, "") + Chain(x.own + [e], ""));
    if k < |before| {
      OwnAnchorBefore(s, t, k);
      assert before[k] in x.own;
      AppendKeepsAnchor(h, View(s, t), e, before, all, k);
    } else {
      AppendedAnchorItself(h, base, s, t, k);
    }
  }

  lemma AppendedAnchorItself(h: Hasher, base: int, s: State, t: nat, k: nat)
    requires Running(s, t) && s.txs[t].phase.Allocated? && PhaseOk(h, base, s, t)
    requires var p := s.txs[t].phase;
             var e := Link(h, p.previous, p.fact, p.pos);
             k == |AnchorsOf(ChainSeen(s, t, ""))| < |AnchorsOf(Chain(s.rows, "") + Chain(s.txs[t].own + [e], ""))|
    ensures var p := s.txs[t].phase;
            var e := Link(h, p.previous, p.fact, p.pos);
            var all := AnchorsOf(Chain(s.rows, "") + Chain(s.txs[t].own + [e], ""));
            AnchorIn(h, s.rows + s.txs[t].own + [e], all, k) && StableBut(s, ThroughOf(all[k]), t)
  {
    var x, p := s.txs[t], s.txs[t].phase;
    var e := Link(h, p.previous, p.fact, p.pos);
    LinkFacts(h, p.previous, p.fact, p.pos);
    AppendedAnchors(s, t, e);
    var all := AnchorsOf(Chain(s.rows, "") + Chain(x.own + [e], ""));
    assert all[k] == e;
    assert From(all, k) == BoundOf(ChainSeen(s, t, ""));
    SameRoot(h, View(s, t), View(s, t) + [e], From(all, k), e.body.through.value);
  }

  lemma KeepsAppend(h: Hasher, base: int, s: State, t: nat)
    requires Inv(h, base, s)
    ensures Inv(h, base, DoAppend(h, s, t))
  {
    var r := DoAppend(h, s, t);
    if Running(s, t) && s.txs[t].phase.Allocated? {
      assert TxOk(h, base, s, t);
      var x, p := s.txs[t], s.txs[t].phase;
      var e := Link(h, p.previous, p.fact, p.pos);
      assert Held(r.txs[t]) <= Held(x);
      assert OnlyTx(s, r, t);
      AppendedTx(h, base, s, t);
      Frame(h, base, s, r, t);
    }
  }

  lemma AppendedAnchorsOk(h: Hasher, base: int, s: State, t: nat)
    requires Running(s, t) && s.txs[t].phase.Allocated?
    requires OwnAnchorsOk(h, s, t) && PhaseOk(h, base, s, t)
    requires OnlyTx(s, DoAppend(h, s, t), t)
    ensures OwnAnchorsOk(h, DoAppend(h, s, t), t)
  {
    var r := DoAppend(h, s, t);
    var all := AnchorsOf(ChainSeen(r, t, ""));
    assert View(r, t) == s.rows + s.txs[t].own
      + [Link(h, s.txs[t].phase.previous, s.txs[t].phase.fact, s.txs[t].phase.pos)];
    forall k | |Anchors(r.rows)| <= k < |all|
      ensures AnchorIn(h, View(r, t), all, k) && StableBut(r, ThroughOf(all[k]), t)
    {
      AppendedAnchorHolds(h, base, s, t, k);
      StableKept(s, r, t, ThroughOf(all[k]), t);
    }
  }

  lemma AppendedTx(h: Hasher, base: int, s: State, t: nat)
    requires Running(s, t) && s.txs[t].phase.Allocated? && 0 <= base && TxOk(h, base, s, t)
    requires OnlyTx(s, DoAppend(h, s, t), t)
    ensures TxOk(h, base, DoAppend(h, s, t), t)
  {
    var r := DoAppend(h, s, t);
    AppendedOwn(h, base, s, t);
    AppendedAnchorsOk(h, base, s, t);
    AppendedChains(h, base, s, t);
  }

  lemma AppendedChains(h: Hasher, base: int, s: State, t: nat)
    requires Running(s, t) && s.txs[t].phase.Allocated? && ChainsOk(s, s.txs[t]) && PhaseOk(h, base, s, t)
    ensures ChainsOk(DoAppend(h, s, t), DoAppend(h, s, t).txs[t])
  {
    var x, y, p := s.txs[t], DoAppend(h, s, t).txs[t], s.txs[t].phase;
    forall c: string ensures ChainOk(s.rows, y, c) {
      assert ChainOk(s.rows, x, c);
      AppendedChain(h, s.rows, x, y, p.fact, p.pos, c);
    }
  }

  // --- a transaction committed --------------------------------------------------------------------------

  lemma CommitChain(rows: seq<Entry>, x: Tx, c: string)
    requires ChainOk(rows, x, c) && Rising(x.own)
    ensures Chain(Merge(rows, x.own), c) == Chain(rows, c) + Chain(x.own, c)
  {
    MergeChain(rows, x.own, c);
  }

  lemma OldRuleByBase(rows: seq<Entry>, base: int)
    requires Rising(rows) && forall e | e in rows :: e.body.chainSeq.None? <==> e.body.pos <= base
    ensures OldRuleFirst(rows)
  {
    forall i, j | 0 <= i < j < |rows| && rows[j].body.chainSeq.None? ensures rows[i].body.chainSeq.None? {
      assert rows[i].body.pos < rows[j].body.pos;
      assert rows[i] in rows && rows[j] in rows;
    }
  }

  lemma HashedMembers(h: Hasher, rows: seq<Entry>)
    ensures AllHashed(h, rows) <==> forall e | e in rows :: HashOf(h, EntryDocument(e.body)) == e.hash
  {
    if AllHashed(h, rows) {
      forall e | e in rows ensures HashOf(h, EntryDocument(e.body)) == e.hash {
        var i :| 0 <= i < |rows| && rows[i] == e;
        assert HashOf(h, EntryDocument(rows[i].body)) == rows[i].hash;
      }
    }
  }

  lemma CommitHashed(h: Hasher, base: int, s: State, t: nat)
    requires t in s.txs && AllHashed(h, s.rows) && OwnOk(h, base, s, s.txs[t])
    ensures AllHashed(h, Merge(s.rows, s.txs[t].own))
  {
    var rows := Merge(s.rows, s.txs[t].own);
    HashedMembers(h, s.rows);
    forall e | e in rows ensures HashOf(h, EntryDocument(e.body)) == e.hash {
      MergeMembers(s.rows, s.txs[t].own, e);
    }
    HashedMembers(h, rows);
  }

  lemma CommitMembers(h: Hasher, base: int, s: State, t: nat)
    requires RowsOk(h, base, s) && t in s.txs && OwnOk(h, base, s, s.txs[t])
    ensures forall e | e in Merge(s.rows, s.txs[t].own) ::
              e.body.pos <= s.positions.Current() && (e.body.chainSeq.None? <==> e.body.pos <= base)
  {
    forall e | e in Merge(s.rows, s.txs[t].own)
      ensures e.body.pos <= s.positions.Current() && (e.body.chainSeq.None? <==> e.body.pos <= base)
    {
      MergeMembers(s.rows, s.txs[t].own, e);
    }
  }

  lemma CommitLinked(rows: seq<Entry>, x: Tx)
    requires Rising(x.own) && forall c: string :: ChainOk(rows, x, c)
    ensures AllLinked(Merge(rows, x.own))
  {
    forall c: string ensures Linked(Chain(Merge(rows, x.own), c)) {
      assert ChainOk(rows, x, c);
      CommitChain(rows, x, c);
    }
  }

  /** Entries above a window, wherever they are put, leave its root alone. */
  lemma MergeAboveWindow(h: Hasher, rows: seq<Entry>, own: seq<Entry>, lo: int, hi: int)
    requires forall e | e in own :: hi < e.body.pos
    ensures CoveredRoot(h, Merge(rows, own), lo, hi) == CoveredRoot(h, rows, lo, hi)
  {
    forall e: Entry | ChainName(e.body) != "" && lo < e.body.pos <= hi ensures e in Merge(rows, own) <==> e in rows {
      MergeMembers(rows, own, e);
    }
    SameRoot(h, Merge(rows, own), rows, lo, hi);
  }

  lemma MergeSameRoot(h: Hasher, rows: seq<Entry>, own: seq<Entry>, lo: int, hi: int)
    ensures CoveredRoot(h, Merge(rows, own), lo, hi) == CoveredRoot(h, rows + own, lo, hi)
  {
    forall e: Entry | ChainName(e.body) != "" && lo < e.body.pos <= hi
      ensures e in Merge(rows, own) <==> e in rows + own
    {
      MergeMembers(rows, own, e);
    }
    SameRoot(h, Merge(rows, own), rows + own, lo, hi);
  }

  lemma CommitOldAnchor(h: Hasher, s: State, t: nat, k: nat)
    requires t in s.txs && k < |Anchors(s.rows)| && AnchorHolds(h, s.rows, k)
    requires BoundsOk(s)
    requires Anchors(s.rows) <= Anchors(Merge(s.rows, s.txs[t].own))
    ensures AnchorHolds(h, Merge(s.rows, s.txs[t].own), k)
  {
    var a, b := Anchors(s.rows), Anchors(Merge(s.rows, s.txs[t].own));
    assert a[k] == b[k] && (k > 0 ==> a[k - 1] == b[k - 1]);
    assert StableBut(s, ThroughOf(a[k]), NOBODY);
    forall e | e in s.txs[t].own ensures ThroughOf(a[k]) < e.body.pos {
      assert e.body.pos in Held(s.txs[t]);
    }
    MergeAboveWindow(h, s.rows, s.txs[t].own, From(a, k), ThroughOf(a[k]));
  }

  lemma CommitOwnAnchor(h: Hasher, s: State, t: nat, k: nat)
    requires t in s.txs && OwnAnchorsOk(h, s, t)
    requires Anchors(Merge(s.rows, s.txs[t].own)) == AnchorsOf(ChainSeen(s, t, ""))
    requires |Anchors(s.rows)| <= k < |Anchors(Merge(s.rows, s.txs[t].own))|
    ensures AnchorHolds(h, Merge(s.rows, s.txs[t].own), k)
  {
    var all := AnchorsOf(ChainSeen(s, t, ""));
    assert AnchorIn(h, View(s, t), all, k);
    MergeSameRoot(h, s.rows, s.txs[t].own, From(all, k), ThroughOf(all[k]));
  }

  lemma CommitAnchorList(s: State, t: nat)
    requires t in s.txs && Rising(s.txs[t].own) && ChainOk(s.rows, s.txs[t], "")
    ensures Anchors(Merge(s.rows, s.txs[t].own)) == AnchorsOf(ChainSeen(s, t, ""))
    ensures Anchors(s.rows) <= Anchors(Merge(s.rows, s.txs[t].own))
  {
    CommitChain(s.rows, s.txs[t], "");
    AnchorsOfSum(Chain(s.rows, ""), Chain(s.txs[t].own, ""));
  }

  lemma CommitAnchors(h: Hasher, s: State, t: nat)
    requires t in s.txs && AnchorsHold(h, s.rows) && BoundsOk(s) && OwnAnchorsOk(h, s, t)
    requires Rising(s.txs[t].own) && ChainOk(s.rows, s.txs[t], "")
    ensures AnchorsHold(h, Merge(s.rows, s.txs[t].own))
  {
    CommitAnchorList(s, t);
    var rows := Merge(s.rows, s.txs[t].own);
    forall k | 0 <= k < |Anchors(rows)| ensures AnchorHolds(h, rows, k) {
      if k < |Anchors(s.rows)| {
        CommitOldAnchor(h, s, t, k);
      } else {
        CommitOwnAnchor(h, s, t, k);
      }
    }
  }

  lemma CommitRows(h: Hasher, base: int, s: State, t: nat)
    requires RowsOk(h, base, s) && BoundsOk(s) && Running(s, t) && TxOk(h, base, s, t)
    ensures RowsOk(h, base, DoCommit(s, t))
  {
    var rows := Merge(s.rows, s.txs[t].own);
    MergeRises(s.rows, s.txs[t].own);
    CommitMembers(h, base, s, t);
    OldRuleByBase(rows, base);
    CommitLinked(s.rows, s.txs[t]);
    CommitHashed(h, base, s, t);
    CommitAnchors(h, s, t);
  }

  lemma CommitStable(s: State, t: nat, bound: int, who: int)
    requires Running(s, t) && StableBut(s, bound, who)
    ensures StableBut(DoCommit(s, t), bound, who)
    ensures who == t ==> StableBut(DoCommit(s, t), bound, NOBODY)
  {
    assert Held(DoCommit(s, t).txs[t]) == {};
  }

  lemma CommitBounds(h: Hasher, base: int, s: State, t: nat)
    requires BoundsOk(s) && Running(s, t) && TxOk(h, base, s, t)
    ensures BoundsOk(DoCommit(s, t))
  {
    CommitAnchorList(s, t);
    var all, committed := AnchorsOf(ChainSeen(s, t, "")), Anchors(s.rows);
    forall e | e in all ensures StableBut(DoCommit(s, t), ThroughOf(e), NOBODY) {
      var k :| 0 <= k < |all| && all[k] == e;
      if k < |committed| {
        assert committed[k] in committed;
        CommitStable(s, t, ThroughOf(e), NOBODY);
      } else {
        CommitStable(s, t, ThroughOf(all[k]), t);
      }
    }
  }

  /** A chain another transaction has locked is not written by the one that commits. */
  lemma LockedChain(s: State, t: nat, u: nat, c: string)
    requires Running(s, t) && u in s.txs && u != t && Disjoint(s)
    requires Rising(s.txs[t].own) && ChainOk(s.rows, s.txs[t], c) && c in s.txs[u].locks
    ensures Chain(DoCommit(s, t).rows, c) == Chain(s.rows, c)
    ensures ChainSeen(DoCommit(s, t), u, c) == ChainSeen(s, u, c)
  {
    CommitChain(s.rows, s.txs[t], c);
    assert c !in s.txs[t].locks;
    assert Chain(s.rows, c) + [] == Chain(s.rows, c);
  }

  /** A window whose bound is stable for `u` has the same root in `u`'s view afterwards. */
  lemma CommitOtherRoot(h: Hasher, s: State, t: nat, u: nat, lo: int, hi: int)
    requires Running(s, t) && u in s.txs && u != t && StableBut(s, hi, u)
    ensures CoveredRoot(h, View(DoCommit(s, t), u), lo, hi) == CoveredRoot(h, View(s, u), lo, hi)
  {
    var a, b := View(DoCommit(s, t), u), View(s, u);
    forall e | e in s.txs[t].own ensures e.body.pos in Held(s.txs[t]) {}
    forall e: Entry | ChainName(e.body) != "" && lo < e.body.pos <= hi ensures e in a <==> e in b {
      MergeMembers(s.rows, s.txs[t].own, e);
    }
    SameRoot(h, a, b, lo, hi);
  }

  lemma CommitOtherOwn(h: Hasher, base: int, s: State, t: nat, u: nat)
    requires Running(s, t) && u in s.txs && u != t && Disjoint(s) && OwnOk(h, base, s, s.txs[u])
    ensures OwnOk(h, base, DoCommit(s, t), s.txs[u])
  {
    forall x, y | x in Merge(s.rows, s.txs[t].own) && y in s.txs[u].own ensures x.body.pos != y.body.pos {
      MergeMembers(s.rows, s.txs[t].own, x);
      if x in s.txs[t].own {
        assert x.body.pos in Held(s.txs[t]) && y.body.pos in Held(s.txs[u]);
      }
    }
  }

  lemma CommitOtherChains(s: State, t: nat, u: nat)
    requires Running(s, t) && u in s.txs && u != t && Disjoint(s)
    requires Rising(s.txs[t].own) && ChainsOk(s, s.txs[t]) && ChainsOk(s, s.txs[u])
    ensures ChainsOk(DoCommit(s, t), s.txs[u])
  {
    CommitLinked(s.rows, s.txs[t]);
    forall c: string ensures ChainOk(DoCommit(s, t).rows, s.txs[u], c) {
      assert ChainOk(s.rows, s.txs[t], c) && ChainOk(s.rows, s.txs[u], c);
      if Chain(s.txs[u].own, c) == [] {
        assert Linked(Chain(DoCommit(s, t).rows, c));
        assert Chain(DoCommit(s, t).rows, c) + [] == Chain(DoCommit(s, t).rows, c);
      } else {
        LockedChain(s, t, u, c);
      }
    }
  }

  lemma CommitOtherAnchors(h: Hasher, s: State, t: nat, u: nat)
    requires Running(s, t) && u in s.txs && u != t && Disjoint(s)
    requires Rising(s.txs[t].own) && ChainsOk(s, s.txs[t]) && ChainsOk(s, s.txs[u]) && OwnAnchorsOk(h, s, u)
    ensures OwnAnchorsOk(h, DoCommit(s, t), u)
  {
    var r := DoCommit(s, t);
    assert ChainOk(s.rows, s.txs[t], "") && ChainOk(s.rows, s.txs[u], "");
    if Chain(s.txs[u].own, "") == [] {
      assert ChainSeen(r, u, "") == Chain(r.rows, "");
    } else {
      LockedChain(s, t, u, "");
      var all := AnchorsOf(ChainSeen(r, u, ""));
      assert Anchors(r.rows) == Anchors(s.rows);
      forall k | |Anchors(r.rows)| <= k < |all|
        ensures AnchorIn(h, View(r, u), all, k) && StableBut(r, ThroughOf(all[k]), u)
      {
        assert AnchorIn(h, View(s, u), all, k);
        CommitOtherRoot(h, s, t, u, From(all, k), ThroughOf(all[k]));
        CommitStable(s, t, ThroughOf(all[k]), u);
      }
    }
  }

  lemma CommitOtherFact(h: Hasher, s: State, t: nat, u: nat, f: Fact)
    requires Running(s, t) && u in s.txs && u != t && Disjoint(s)
    requires Rising(s.txs[t].own) && ChainsOk(s, s.txs[t]) && FactOk(h, s, u, f)
    ensures FactOk(h, DoCommit(s, t), u, f)
    ensures ChainSeen(DoCommit(s, t), u, ChainFor(f)) == ChainSeen(s, u, ChainFor(f))
    ensures Chain(DoCommit(s, t).rows, ChainFor(f)) == Chain(s.rows, ChainFor(f))
  {
    assert ChainOk(s.rows, s.txs[t], ChainFor(f));
    LockedChain(s, t, u, ChainFor(f));
    if f.kind == ANCHORED {
      CommitOtherRoot(h, s, t, u, BoundOf(ChainSeen(s, u, "")), f.through.value);
      CommitStable(s, t, f.through.value, u);
    }
  }

  lemma CommitOtherPosition(base: int, s: State, t: nat, u: nat, f: Fact, pos: int)
    requires Running(s, t) && u in s.txs && u != t && Disjoint(s)
    requires s.txs[u].phase.Allocated? && s.txs[u].phase.pos == pos && PositionOk(base, s, u, f, pos)
    requires Chain(DoCommit(s, t).rows, ChainFor(f)) == Chain(s.rows, ChainFor(f))
    ensures PositionOk(base, DoCommit(s, t), u, f, pos)
  {
    forall e | e in Merge(s.rows, s.txs[t].own) ensures e.body.pos != pos {
      MergeMembers(s.rows, s.txs[t].own, e);
      if e in s.txs[t].own {
        assert e.body.pos in Held(s.txs[t]) && pos in Held(s.txs[u]);
      }
    }
  }

  lemma CommitOtherPhase(h: Hasher, base: int, s: State, t: nat, u: nat)
    requires Running(s, t) && u in s.txs && u != t && Disjoint(s)
    requires Rising(s.txs[t].own) && ChainsOk(s, s.txs[t]) && PhaseOk(h, base, s, u)
    ensures PhaseOk(h, base, DoCommit(s, t), u)
  {
    match s.txs[u].phase
    case Idle =>
    case Claimed(f) => CommitOtherFact(h, s, t, u, f);
    case Linking(f, previous) => CommitOtherFact(h, s, t, u, f);
    case Marking(f, previous, below) => CommitOtherFact(h, s, t, u, f);
    case Allocated(f, previous, pos) =>
      CommitOtherFact(h, s, t, u, f);
      CommitOtherPosition(base, s, t, u, f, pos);
    case Probing(newest, best) => CommitStable(s, t, best, u);
    case Headed(through) => CommitStable(s, t, through, u);
    case Anchoring(through) => CommitStable(s, t, through, u);
    case Ranged(after, through) =>
      CommitStable(s, t, through, u);
      assert ChainOk(s.rows, s.txs[t], "");
      LockedChain(s, t, u, "");
  }

  lemma CommitOther(h: Hasher, base: int, s: State, t: nat, u: nat)
    requires Running(s, t) && u in s.txs && u != t && Disjoint(s)
    requires TxOk(h, base, s, t) && TxOk(h, base, s, u)
    ensures TxOk(h, base, DoCommit(s, t), u)
  {
    CommitOtherOwn(h, base, s, t, u);
    CommitOtherChains(s, t, u);
    CommitOtherAnchors(h, s, t, u);
    CommitOtherPhase(h, base, s, t, u);
  }

  lemma CommitDisjoint(s: State, t: nat)
    requires Running(s, t) && Disjoint(s)
    ensures Disjoint(DoCommit(s, t))
  {
    var r := DoCommit(s, t);
    assert Held(r.txs[t]) == {};
    forall a, b | a in r.txs && b in r.txs && a != b
      ensures r.txs[a].locks !! r.txs[b].locks && Held(r.txs[a]) !! Held(r.txs[b])
    {
      assert s.txs[a].locks !! s.txs[b].locks && Held(s.txs[a]) !! Held(s.txs[b]);
    }
  }

  lemma CommitOwnTx(h: Hasher, base: int, s: State, t: nat)
    requires Running(s, t) && TxOk(h, base, s, t) && RowsOk(h, base, DoCommit(s, t))
    ensures TxOk(h, base, DoCommit(s, t), t)
  {
    NothingOwned(h, base, DoCommit(s, t), t);
  }

  lemma KeepsCommit(h: Hasher, base: int, s: State, t: nat)
    requires Inv(h, base, s)
    ensures Inv(h, base, DoCommit(s, t))
  {
    if Running(s, t) {
      assert TxOk(h, base, s, t);
      CommitRows(h, base, s, t);
      CommitBounds(h, base, s, t);
      CommitDisjoint(s, t);
      forall u | u in s.txs ensures TxOk(h, base, DoCommit(s, t), u) {
        if u == t {
          CommitOwnTx(h, base, s, t);
        } else {
          CommitOther(h, base, s, t, u);
        }
      }
    }
  }

  // --- every run -------------------------------------------------------------------------------------------

  lemma Keeps(h: Hasher, base: int, s: State, a: Action)
    requires Inv(h, base, s)
    ensures Inv(h, base, Do(h, s, a))
  {
    match a
    case Begin(t) => KeepsBegin(h, base, s, t);
    case Claim(t, f) => KeepsClaim(h, base, s, t, f);
    case ReadLast(t) => KeepsReadLast(h, base, s, t);
    case ReadSequence(t) => KeepsReadSequence(h, base, s, t);
    case TakeMarker(t) => KeepsTakeMarker(h, base, s, t);
    case NextValue(t) => KeepsNextValue(h, base, s, t);
    case Append(t) => KeepsAppend(h, base, s, t);
    case ReadNewest(t) => KeepsReadNewest(h, base, s, t);
    case Probe(t, pos) => KeepsProbe(h, base, s, t, pos);
    case Settle(t) => KeepsSettle(h, base, s, t);
    case ClaimTenant(t) => KeepsClaimTenant(h, base, s, t);
    case ReadBound(t) => KeepsReadBound(h, base, s, t);
    case MakeRoot(t) => KeepsMakeRoot(h, base, s, t);
    case Drop(t) => KeepsDrop(h, base, s, t);
    case Commit(t) => KeepsCommit(h, base, s, t);
    case Abort(t) => KeepsAbort(h, base, s, t);
    case Release(t) => KeepsRelease(h, base, s, t);
    case OtherTenant => KeepsOtherTenant(h, base, s);
  }

  lemma {:induction false} KeepsAlways(h: Hasher, base: int, s: State, actions: seq<Action>)
    requires Inv(h, base, s)
    ensures Inv(h, base, Run(h, s, actions))
    decreases |actions|
  {
    if actions != [] {
      Keeps(h, base, s, actions[0]);
      KeepsAlways(h, base, Do(h, s, actions[0]), actions[1..]);
    }
  }

  lemma InitialInv(h: Hasher, s: State)
    requires Initial(h, s)
    ensures Inv(h, Reached(s.rows), s)
  {
    forall e | e in Anchors(s.rows) ensures StableBut(s, ThroughOf(e), NOBODY) {
      AnchorMembers(Chain(s.rows, ""), e);
      ChainMembers(s.rows, "", e);
      var k :| 0 <= k < |Anchors(s.rows)| && Anchors(s.rows)[k] == e;
      assert AnchorHolds(h, s.rows, k);
    }
  }

  /** However the transactions interleave, the committed ledger is one in which the walk finds
      nothing: sequence numbers rise, every chain links, and every anchor's root matches. */
  lemma LedgerAlwaysIntact(h: Hasher, s: State, actions: seq<Action>)
    requires Initial(h, s)
    ensures Report(h, Run(h, s, actions).rows) == []
  {
    InitialInv(h, s);
    KeepsAlways(h, Reached(s.rows), s, actions);
    ReportIffIntact(h, Run(h, s, actions).rows);
  }
}
