/** The stable head over every run: nothing is committed at or below it later, and an anchor that
    covers up to it stays valid. */
module StableHead {
  import opened Text
  import opened Merkle
  import opened Ledger
  import opened Integrity
  import opened Writers
  import opened Interleaving
  import opened WriterSafety
  import opened WriterCommit

  /** Every entry at or below `bound` that is written or still will be is in `view`. */
  ghost predicate Sealed(s: State, bound: int, view: seq<Entry>) {
    && bound <= s.positions.Current()
    && (forall e | e in s.rows && e.body.pos <= bound :: e in view)
    && (forall t, e | t in s.txs && e in s.txs[t].own && e.body.pos <= bound :: e in view)
    && (forall t | t in s.txs && s.txs[t].phase.Allocated? :: bound < s.txs[t].phase.pos)
  }

  lemma CommitStays(h: Hasher, s: State, t: nat, bound: int, view: seq<Entry>)
    requires Sealed(s, bound, view) && Running(s, t)
    ensures Sealed(DoCommit(s, t), bound, view)
    ensures forall e | e in s.rows :: e in DoCommit(s, t).rows
  {
    forall e | e in DoCommit(s, t).rows && e.body.pos <= bound ensures e in view {
      MergeMembers(s.rows, s.txs[t].own, e);
    }
    forall e | e in s.rows ensures e in DoCommit(s, t).rows {
      MergeMembers(s.rows, s.txs[t].own, e);
    }
  }

  lemma AppendStays(h: Hasher, s: State, t: nat, bound: int, view: seq<Entry>)
    requires Sealed(s, bound, view)
    ensures Sealed(DoAppend(h, s, t), bound, view)
  {
    if Running(s, t) && s.txs[t].phase.Allocated? {
      var p := s.txs[t].phase;
      LinkFacts(h, p.previous, p.fact, p.pos);
    }
  }

  lemma SealedKept(h: Hasher, s: State, a: Action, bound: int, view: seq<Entry>)
    requires Sealed(s, bound, view)
    ensures Sealed(Do(h, s, a), bound, view)
    ensures forall e | e in s.rows :: e in Do(h, s, a).rows
  {
    match a
    case Append(t) => AppendStays(h, s, t, bound, view);
    case Commit(t) => if Running(s, t) { CommitStays(h, s, t, bound, view); }
    case NextValue(t) => NextValueStays(s, t, bound, view);
    case _ => if Reads(a) { ReadStays(h, s, a, bound, view); } else { OtherStays(h, s, a, bound, view); }
  }

  /** The steps of a reading, of the head and of what an anchor takes from it. */
  predicate Reads(a: Action) {
    a.ReadNewest? || a.Probe? || a.Settle? || a.ClaimTenant? || a.ReadBound? || a.MakeRoot? || a.Drop?
  }

  lemma ReadStays(h: Hasher, s: State, a: Action, bound: int, view: seq<Entry>)
    requires Sealed(s, bound, view) && Reads(a)
    ensures Sealed(Do(h, s, a), bound, view) && Do(h, s, a).rows == s.rows
  {
  }

  lemma OtherStays(h: Hasher, s: State, a: Action, bound: int, view: seq<Entry>)
    requires Sealed(s, bound, view) && !Reads(a) && !a.Append? && !a.Commit? && !a.NextValue?
    ensures Sealed(Do(h, s, a), bound, view) && Do(h, s, a).rows == s.rows
  {
    NextIsAboveCurrent(s.positions);
  }

  lemma NextValueStays(s: State, t: nat, bound: int, view: seq<Entry>)
    requires Sealed(s, bound, view)
    ensures Sealed(DoNextValue(s, t), bound, view)
    ensures DoNextValue(s, t).rows == s.rows
  {
    NextIsAboveCurrent(s.positions);
  }

  lemma {:induction false} SealedAlways(h: Hasher, s: State, actions: seq<Action>, bound: int, view: seq<Entry>)
    requires Sealed(s, bound, view)
    ensures Sealed(Run(h, s, actions), bound, view)
    ensures forall e | e in s.rows :: e in Run(h, s, actions).rows
    decreases |actions|
  {
    if actions != [] {
      SealedKept(h, s, actions[0], bound, view);
      SealedAlways(h, Do(h, s, actions[0]), actions[1..], bound, view);
    }
  }

  lemma HeadSeals(h: Hasher, base: int, s: State, t: nat, through: int)
    requires Inv(h, base, s) && Running(s, t) && s.txs[t].phase == Headed(through)
    ensures Sealed(s, through, View(s, t))
  {
    assert TxOk(h, base, s, t);
    forall u, e | u in s.txs && e in s.txs[u].own && e.body.pos <= through ensures e in View(s, t) {
      assert e.body.pos in Held(s.txs[u]);
    }
    forall u | u in s.txs && s.txs[u].phase.Allocated? ensures through < s.txs[u].phase.pos {
      assert s.txs[u].phase.pos in Held(s.txs[u]);
    }
  }

  /** Once a session has the stable head, no entry at or below it that the session did not see
      then is ever committed, and every entry committed then stays. */
  lemma NothingBelowTheHead(h: Hasher, base: int, s: State, t: nat, through: int, actions: seq<Action>)
    requires Inv(h, base, s) && Running(s, t) && s.txs[t].phase == Headed(through)
    ensures forall e | e in Run(h, s, actions).rows && e.body.pos <= through :: e in View(s, t)
    ensures forall e | e in s.rows :: e in Run(h, s, actions).rows
  {
    HeadSeals(h, base, s, t, through);
    SealedAlways(h, s, actions, through, View(s, t));
  }

  /** The entries above `after` and at or below `through`, as a reader reads them. */
  ghost function Range(rows: seq<Entry>, after: int, through: int): set<Entry> {
    set e | e in rows && after < e.body.pos <= through
  }

  // --- anchors --------------------------------------------------------------------------------------------

  lemma AnchorsGrow(h: Hasher, base: int, s: State, a: Action)
    requires Inv(h, base, s)
    ensures Anchors(s.rows) <= Anchors(Do(h, s, a).rows)
  {
    if a.Commit? && Running(s, a.t) {
      assert TxOk(h, base, s, a.t);
      CommitAnchorList(s, a.t);
    }
  }

  lemma {:induction false} AnchorsAlwaysGrow(h: Hasher, base: int, s: State, actions: seq<Action>)
    requires Inv(h, base, s)
    ensures Anchors(s.rows) <= Anchors(Run(h, s, actions).rows)
    decreases |actions|
  {
    if actions != [] {
      AnchorsGrow(h, base, s, actions[0]);
      Keeps(h, base, s, actions[0]);
      AnchorsAlwaysGrow(h, base, Do(h, s, actions[0]), actions[1..]);
    }
  }

  lemma AnchorSeals(h: Hasher, base: int, s: State, k: nat)
    requires Inv(h, base, s) && k < |Anchors(s.rows)|
    ensures Sealed(s, ThroughOf(Anchors(s.rows)[k]), s.rows)
  {
    var bound := ThroughOf(Anchors(s.rows)[k]);
    assert StableBut(s, bound, NOBODY);
    forall u, e | u in s.txs && e in s.txs[u].own ensures bound < e.body.pos {
      assert e.body.pos in Held(s.txs[u]);
    }
    forall u | u in s.txs && s.txs[u].phase.Allocated? ensures bound < s.txs[u].phase.pos {
      assert s.txs[u].phase.pos in Held(s.txs[u]);
    }
  }

  /** Whatever is committed after an anchor, its window never changes, and the anchor is in every
      later ledger with the root of the same heads. */
  lemma AnchorsStayValid(h: Hasher, base: int, s: State, actions: seq<Action>, k: nat)
    requires Inv(h, base, s) && k < |Anchors(s.rows)|
    ensures var r := Run(h, s, actions);
            var lo, through := From(Anchors(s.rows), k), ThroughOf(Anchors(s.rows)[k]);
            && Anchors(s.rows) <= Anchors(r.rows)
            && Range(r.rows, lo, through) == Range(s.rows, lo, through)
            && CoveredRoot(h, r.rows, lo, through) == CoveredRoot(h, s.rows, lo, through)
            && AnchorHolds(h, r.rows, k)
  {
    var r := Run(h, s, actions);
    var lo, through := From(Anchors(s.rows), k), ThroughOf(Anchors(s.rows)[k]);
    AnchorsAlwaysGrow(h, base, s, actions);
    AnchorSeals(h, base, s, k);
    SealedAlways(h, s, actions, through, s.rows);
    SameRoot(h, r.rows, s.rows, lo, through);
    AnchorsOfLater(h, base, s, actions, k);
  }

  lemma AnchorsOfLater(h: Hasher, base: int, s: State, actions: seq<Action>, k: nat)
    requires Inv(h, base, s) && k < |Anchors(s.rows)| && Anchors(s.rows) <= Anchors(Run(h, s, actions).rows)
    ensures AnchorHolds(h, Run(h, s, actions).rows, k)
  {
    KeepsAlways(h, base, s, actions);
  }

  // --- from an intact ledger, over every run --------------------------------------------------------------------

  lemma ReachedInv(h: Hasher, s: State, before: seq<Action>)
    requires Initial(h, s)
    ensures Inv(h, Reached(s.rows), Run(h, s, before))
  {
    InitialInv(h, s);
    KeepsAlways(h, Reached(s.rows), s, before);
  }

  /** In every run from an intact ledger: once a session has taken the newest committed position and
      then the markers, no entry at or below the head it settles on is committed later. */
  lemma HeadIsStable(h: Hasher, s: State, before: seq<Action>, t: nat, through: int, later: seq<Action>)
    requires Initial(h, s)
    requires var now := Run(h, s, before); Running(now, t) && now.txs[t].phase == Headed(through)
    ensures forall e | e in Run(h, Run(h, s, before), later).rows && e.body.pos <= through ::
              e in View(Run(h, s, before), t)
    ensures forall e | e in Run(h, s, before).rows :: e in Run(h, Run(h, s, before), later).rows
  {
    ReachedInv(h, s, before);
    NothingBelowTheHead(h, Reached(s.rows), Run(h, s, before), t, through, later);
  }

  /** In every run from an intact ledger, an anchor once committed matches its root in every later
      ledger. */
  lemma AnchorsAreForEver(h: Hasher, s: State, before: seq<Action>, k: nat, later: seq<Action>)
    requires Initial(h, s) && k < |Anchors(Run(h, s, before).rows)|
    ensures var now, end := Run(h, s, before), Run(h, Run(h, s, before), later);
            && Anchors(now.rows) <= Anchors(end.rows)
            && Range(end.rows, From(Anchors(now.rows), k), ThroughOf(Anchors(now.rows)[k]))
               == Range(now.rows, From(Anchors(now.rows), k), ThroughOf(Anchors(now.rows)[k]))
            && AnchorHolds(h, end.rows, k)
  {
    ReachedInv(h, s, before);
    AnchorsStayValid(h, Reached(s.rows), Run(h, s, before), later, k);
  }
}
