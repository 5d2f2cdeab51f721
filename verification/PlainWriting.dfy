/** What is written, in the facts' and the entries' own fields. */
module PlainWriting {
  import opened Text
  import opened Merkle
  import opened Ledger
  import opened Integrity
  import opened Writers
  import opened SoloRuns
  import opened PlainLedger

  // --- a fact -------------------------------------------------------------------------------------------------------

  /** The fact's, with its own hash, and by the newer rule. */
  predicate Carries(h: Hasher, f: Fact, e: Entry) {
    && e.body.kind == f.kind && e.body.run == f.run && e.body.rest == f.rest
    && e.body.through == f.through && e.body.contentDigest == f.contentDigest
    && e.body.chainSeq.Some? && e.hash == h.sha(h.json(EntryDocument(e.body)))
  }

  /** The tenant's chain for a fact of no run, or one that must stand in the tenant's order. */
  predicate OfTenant(f: Fact) { f.inOrder || f.run.None? || f.run == Some("") }

  lemma LinkPlainly(h: Hasher, rows: seq<Entry>, f: Fact, pos: int)
    ensures var e := Link(h, Last(Chain(rows, ChainFor(f))), f, pos);
            Carries(h, f, e) && e.body.pos == pos && (OnTenant(e.body) <==> OfTenant(f)) && Chained(rows, e)
  {
    var e := Link(h, Last(Chain(rows, ChainFor(f))), f, pos);
    assert ChainName(e.body) == ChainFor(f);
    ChainedExactly(rows, e);
  }

  /** No other transaction writes on the chain of this fact. */
  predicate ChainIsFree(s: State, t: nat, f: Fact) {
    forall u | u in s.txs && u != t ::
      (if f.inOrder || f.run.None? then "" else f.run.value) !in s.txs[u].locks
  }

  /** A fact recorded alone is one entry more: the fact's, next on its chain, at the next position, on the
      tenant's chain exactly where the fact is of no run or must stand in the tenant's order. */
  lemma RecordedPlainly(h: Hasher, s: State, t: nat, f: Fact)
    requires t !in s.txs && ChainIsFree(s, t, f) && f.kind != "ledger.anchored"
    ensures exists e ::
              && Run(h, s, Recording(t, f)).rows == Merge(s.rows, [e])
              && Carries(h, f, e) && Chained(s.rows, e) && (OnTenant(e.body) <==> OfTenant(f))
              && e.body.pos == if s.positions.isCalled then s.positions.lastValue + 1 else s.positions.lastValue
  {
    RecordingRun(h, s, t, f);
    LinkPlainly(h, s.rows, f, s.positions.Next().0);
  }

  // --- an anchor ----------------------------------------------------------------------------------------------------

  lemma {:induction false} AnchorsEndWith(rows: seq<Entry>)
    ensures Anchors(rows) == [] ==> forall i | 0 <= i < |rows| :: !PlainLedger.Anchoring(rows[i].body)
    ensures Anchors(rows) != [] ==>
              exists i: nat :: i < |rows| && LastAnchor(rows, i) && rows[i] == Anchors(rows)[|Anchors(rows)| - 1]
  {
    if rows != [] {
      var fewer, last := rows[..|rows| - 1], rows[|rows| - 1];
      AnchoringExactly(last.body);
      AnchorsEndWith(fewer);
      AnchorsNext(fewer, last);
      assert rows == fewer + [last];
      if PlainLedger.Anchoring(last.body) {
        assert LastAnchor(rows, |rows| - 1);
      } else if Anchors(fewer) != [] {
        var i: nat :| i < |fewer| && LastAnchor(fewer, i) && fewer[i] == Anchors(fewer)[|Anchors(fewer)| - 1];
        assert LastAnchor(rows, i);
      }
    }
  }

  lemma AnchorsNext(fewer: seq<Entry>, last: Entry)
    ensures Anchors(fewer + [last]) == Anchors(fewer) + (if IsAnchor(last.body) then [last] else [])
  {
    assert (fewer + [last])[..|fewer|] == fewer;
    var c := Chain(fewer, "");
    if ChainName(last.body) == "" {
      assert Chain(fewer + [last], "") == c + [last];
      assert (c + [last])[..|c|] == c;
    } else {
      assert Chain(fewer + [last], "") == c;
    }
  }

  lemma BoundIsFrom(rows: seq<Entry>, anchors: seq<Entry>, lo: int)
    requires LastBound(rows, lo)
    requires anchors == [] ==> forall i | 0 <= i < |rows| :: !PlainLedger.Anchoring(rows[i].body)
    requires anchors != [] ==> exists i: nat :: i < |rows| && LastAnchor(rows, i) && rows[i] == anchors[|anchors| - 1]
    ensures From(anchors, |anchors|) == lo
  {
    if anchors != [] {
      var i: nat :| i < |rows| && LastAnchor(rows, i) && rows[i] == anchors[|anchors| - 1];
      var j: nat :| j < |rows| && LastAnchor(rows, j) && rows[j].body.through == Some(lo);
      assert i == j;
    }
  }

  lemma BoundPlainly(rows: seq<Entry>, lo: int)
    requires LastBound(rows, lo)
    ensures BoundOf(Chain(rows, "")) == lo
  {
    AnchorsEndWith(rows);
    BoundIsFrom(rows, Anchors(rows), lo);
  }

  /** Some run's entry lies in the window. */
  ghost predicate Occurs(rows: seq<Entry>, lo: int, hi: int) {
    exists i, run :: 0 <= i < |rows| && InWindow(rows[i].body, run, lo, hi)
  }

  lemma SomeHead(rows: seq<Entry>, lo: int, hi: int)
    requires Rising(rows)
    ensures HeadList(Heads(rows, lo, hi)) != [] <==> Occurs(rows, lo, hi)
  {
    var m := Heads(rows, lo, hi);
    if i, run :| 0 <= i < |rows| && InWindow(rows[i].body, run, lo, hi) {
      WindowItem(rows, run, lo, hi, i);
      HasHead(m, run);
    }
    if HeadList(m) != [] {
      InList(m, HeadList(m)[0]);
      HeadIsNewest(rows, lo, hi, HeadList(m)[0].chain);
    }
  }

  lemma SomeRoot(h: Hasher, rows: seq<Entry>, lo: int, hi: int)
    requires Rising(rows)
    ensures CoveredRoot(h, rows, lo, hi).Some? <==> Occurs(rows, lo, hi)
  {
    SomeHead(rows, lo, hi);
  }

  lemma HasHead(m: map<string, Item>, c: string)
    requires c in m
    ensures HeadList(m) != []
  {
    InList(m, HeadOf(c, m[c]));
  }

  /** An anchor made alone: where some run's entry lies between the last bound and the newest position, one
      entry more, on the tenant's chain, that reaches to the newest and carries the root over what lies between. */
  lemma AnchorPlainly(h: Hasher, s: State, t: nat, newest: int, after: int)
    requires Quiet(s, t, newest) && Rising(s.rows) && s.rows != [] && newest == s.rows[|s.rows| - 1].body.pos
    requires LastBound(s.rows, after)
    requires Occurs(s.rows, after, newest)
    ensures exists e ::
              && Run(h, s, MakingAnchor(t, newest)).rows == Merge(s.rows, [e])
              && e.body.kind == "ledger.anchored" && OnTenant(e.body) && e.body.through == Some(newest)
              && Covers(h, s.rows, after, newest, e.body.contentDigest)
  {
    BoundPlainly(s.rows, after);
    SomeRoot(h, s.rows, after, newest);
    AnchoringRun(h, s, t, newest, after);
    CoversExactly(h, s.rows, after, newest, CoveredRoot(h, s.rows, after, newest));
  }

  lemma RootLeft(h: Hasher, s: State, t: nat, root: Option<string>)
    requires Running(s, t) && s.txs[t].phase.Ranged?
    requires root == CoveredRoot(h, View(s, t), s.txs[t].phase.after, s.txs[t].phase.through)
    ensures DoMakeRoot(h, s, t) ==
            At(s, t, if root.None? then Idle else Claimed(AnchorFact(s.txs[t].phase.through, root)))
  {
  }

  /** The step that makes the root leaves an anchor to be written exactly where some run's entry seen lies in the
      window. */
  lemma RootOnlyOverEntries(h: Hasher, s: State, t: nat)
    requires Running(s, t) && s.txs[t].phase.Ranged? && Rising(s.rows + s.txs[t].own)
    ensures var seen, p := s.rows + s.txs[t].own, s.txs[t].phase;
            Do(h, s, MakeRoot(t)).txs[t].phase.Claimed? <==> Occurs(seen, p.after, p.through)
  {
    var p := s.txs[t].phase;
    var root := CoveredRoot(h, View(s, t), p.after, p.through);
    var next := if root.None? then Idle else Claimed(AnchorFact(p.through, root));
    SomeRoot(h, s.rows + s.txs[t].own, p.after, p.through);
    RootLeft(h, s, t, root);
    MakeRootIs(h, s, t, At(s, t, next));
    assert At(s, t, next).txs[t].phase == next;
  }
}
