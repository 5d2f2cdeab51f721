/** What one transaction leaves when no other steps in: a fact recorded, and an anchor made. */
module SoloRuns {
  import opened Text
  import opened Merkle
  import opened Ledger
  import opened Integrity
  import opened Writers

  lemma ThreeSteps(h: Hasher, s: State, a: Action, b: Action, c: Action)
    ensures Run(h, s, [a, b, c]) == Do(h, Do(h, Do(h, s, a), b), c)
  {
    RunsCompose(h, s, [a], [b] + [c]);
    RunsCompose(h, Do(h, s, a), [b], [c]);
    RunOne(h, s, a);
    RunOne(h, Do(h, s, a), b);
    RunOne(h, Do(h, Do(h, s, a), b), c);
    assert [a, b, c] == [a] + ([b] + [c]);
  }

  // --- one fact recorded --------------------------------------------------------------------------------------------

  function Opening(t: nat, f: Fact): seq<Action> { [Begin(t), Claim(t, f), ReadLast(t)] }

  function Allocating(t: nat): seq<Action> { [ReadSequence(t), TakeMarker(t), NextValue(t)] }

  function Closing(t: nat): seq<Action> { [Append(t), Commit(t), Release(t)] }

  function Recording(t: nat, f: Fact): seq<Action> { Opening(t, f) + Allocating(t) + Closing(t) }

  function Opened(s: State, t: nat, f: Fact, previous: Option<Entry>): State {
    With(s, t, Tx(true, [], {ChainFor(f)}, None, Linking(f, previous)))
  }

  lemma OpeningRun(h: Hasher, s: State, t: nat, f: Fact)
    requires t !in s.txs && Free(s, t, ChainFor(f)) && f.kind != ANCHORED
    ensures Run(h, s, Opening(t, f)) == Opened(s, t, f, Last(Chain(s.rows, ChainFor(f))))
  {
    ThreeSteps(h, s, Begin(t), Claim(t, f), ReadLast(t));
    var began := DoBegin(s, t);
    var claimed := DoClaim(began, t, f);
    var none: set<string> := {};
    assert none + {ChainFor(f)} == {ChainFor(f)};
    assert claimed.txs[t] == Tx(true, [], {ChainFor(f)}, None, Claimed(f));
    assert ChainSeen(claimed, t, ChainFor(f)) == Chain(s.rows, ChainFor(f)) + Chain([], ChainFor(f));
    assert Chain(s.rows, ChainFor(f)) + Chain([], ChainFor(f)) == Chain(s.rows, ChainFor(f));
    assert DoReadLast(claimed, t).txs == Opened(s, t, f, Last(Chain(s.rows, ChainFor(f)))).txs;
  }

  lemma AllocatingRun(h: Hasher, s: State, t: nat, f: Fact, previous: Option<Entry>)
    ensures Run(h, Opened(s, t, f, previous), Allocating(t))
            == With(s.(positions := s.positions.Next().1), t,
                    Tx(true, [], {ChainFor(f)}, Some(s.positions.Current()),
                      Allocated(f, previous, s.positions.Next().0)))
  {
    ThreeSteps(h, Opened(s, t, f, previous), ReadSequence(t), TakeMarker(t), NextValue(t));
    var marking := DoReadSequence(Opened(s, t, f, previous), t);
    var marked := DoTakeMarker(marking, t);
    assert marked.txs[t] == Tx(true, [], {ChainFor(f)}, Some(s.positions.Current()), Linking(f, previous));
  }

  lemma Appended(h: Hasher, s: State, t: nat, locks: set<string>, marker: Option<int>, f: Fact, previous: Option<Entry>,
          pos: int)
    ensures DoAppend(h, With(s, t, Tx(true, [], locks, marker, Allocated(f, previous, pos))), t)
            == With(s, t, Tx(true, [Link(h, previous, f, pos)], locks, marker, Idle))
  {
    var none: seq<Entry> := [];
    assert none + [Link(h, previous, f, pos)] == [Link(h, previous, f, pos)];
  }

  lemma Committed(h: Hasher, s: State, t: nat, locks: set<string>, marker: Option<int>, e: Entry)
    requires t !in s.txs
    ensures DoRelease(DoCommit(With(s, t, Tx(true, [e], locks, marker, Idle)), t), t) == s.(rows := Merge(s.rows, [e]))
  {
    var committed := DoCommit(With(s, t, Tx(true, [e], locks, marker, Idle)), t);
    assert committed.txs - {t} == s.txs;
  }

  lemma ClosingRun(h: Hasher, s: State, t: nat, x: Tx)
    requires t !in s.txs && x.live && x.own == [] && x.phase.Allocated?
    ensures Run(h, With(s, t, x), Closing(t))
            == s.(rows := Merge(s.rows, [Link(h, x.phase.previous, x.phase.fact, x.phase.pos)]))
  {
    ThreeSteps(h, With(s, t, x), Append(t), Commit(t), Release(t));
    Appended(h, s, t, x.locks, x.marker, x.phase.fact, x.phase.previous, x.phase.pos);
    Committed(h, s, t, x.locks, x.marker, Link(h, x.phase.previous, x.phase.fact, x.phase.pos));
  }

  /** A transaction that records one fact alone. */
  lemma RecordingRun(h: Hasher, s: State, t: nat, f: Fact)
    requires t !in s.txs && Free(s, t, ChainFor(f)) && f.kind != ANCHORED
    ensures Run(h, s, Recording(t, f))
            == s.(rows := Merge(s.rows, [Link(h, Last(Chain(s.rows, ChainFor(f))), f, s.positions.Next().0)]),
                  positions := s.positions.Next().1)
  {
    var previous := Last(Chain(s.rows, ChainFor(f)));
    RunsCompose(h, s, Opening(t, f) + Allocating(t), Closing(t));
    RunsCompose(h, s, Opening(t, f), Allocating(t));
    OpeningRun(h, s, t, f);
    AllocatingRun(h, s, t, f, previous);
    ClosingRun(h, s.(positions := s.positions.Next().1), t,
      Tx(true, [], {ChainFor(f)}, Some(s.positions.Current()), Allocated(f, previous, s.positions.Next().0)));
  }

  // --- an anchor made -----------------------------------------------------------------------------------------------

  /** The head read, alone: the newest entry. */
  function Heading(t: nat, newest: int): seq<Action> { [Begin(t), ReadNewest(t)] + [Probe(t, newest), Settle(t)] }

  /** The tenant's chain claimed, the newest anchor's bound read, and the root over what lies between. */
  function Rooting(t: nat): seq<Action> { [ClaimTenant(t), ReadBound(t)] + [MakeRoot(t), ReadLast(t)] }

  function MakingAnchor(t: nat, newest: int): seq<Action> {
    Heading(t, newest) + Rooting(t) + Allocating(t) + Closing(t)
  }

  function Fresh(phase: Phase, locks: set<string>): Tx { Tx(true, [], locks, None, phase) }

  lemma TwoSteps(h: Hasher, s: State, a: Action, b: Action)
    ensures Run(h, s, [a, b]) == Do(h, Do(h, s, a), b)
  {
    RunsCompose(h, s, [a], [b]);
    RunOne(h, s, a);
    RunOne(h, Do(h, s, a), b);
    assert [a, b] == [a] + [b];
  }

  /** No other transaction's marker lies below the newest position, and none holds the tenant's chain. */
  predicate Quiet(s: State, t: nat, newest: int) {
    t !in s.txs && NoMarkerBelow(s, t, newest) && Free(s, t, "")
  }

  lemma NoOwn(rows: seq<Entry>)
    ensures rows + [] == rows
  {
  }

  lemma ReadAlone(s: State, t: nat)
    requires t !in s.txs
    ensures DoReadNewest(DoBegin(s, t), t) == With(s, t, Fresh(Probing(Reached(s.rows), 0), {}))
  {
    NoOwn(s.rows);
    assert DoReadNewest(DoBegin(s, t), t).txs == s.txs[t := Fresh(Probing(Reached(s.rows), 0), {})];
  }

  lemma SettledAlone(s: State, t: nat, newest: int)
    requires Quiet(s, t, newest) && 0 < newest == Reached(s.rows)
    ensures DoSettle(DoProbe(With(s, t, Fresh(Probing(newest, 0), {})), t, newest), t)
            == With(s, t, Fresh(Headed(newest), {}))
  {
    var x := With(s, t, Fresh(Probing(newest, 0), {}));
    NoOwn(s.rows);
    assert View(x, t) == s.rows;
    assert NoMarkerBelow(x, t, newest);
    assert DoProbe(x, t, newest).txs == s.txs[t := Fresh(Probing(newest, newest), {})];
    assert DoSettle(DoProbe(x, t, newest), t).txs == s.txs[t := Fresh(Headed(newest), {})];
  }

  lemma ReadingRun(h: Hasher, s: State, t: nat)
    requires t !in s.txs
    ensures Run(h, s, [Begin(t), ReadNewest(t)]) == With(s, t, Fresh(Probing(Reached(s.rows), 0), {}))
  {
    ReadAlone(s, t);
    TwoSteps(h, s, Begin(t), ReadNewest(t));
  }

  lemma SettlingRun(h: Hasher, s: State, t: nat, newest: int)
    requires Quiet(s, t, newest) && 0 < newest == Reached(s.rows)
    ensures Run(h, With(s, t, Fresh(Probing(newest, 0), {})), [Probe(t, newest), Settle(t)])
            == With(s, t, Fresh(Headed(newest), {}))
  {
    SettledAlone(s, t, newest);
    TwoSteps(h, With(s, t, Fresh(Probing(newest, 0), {})), Probe(t, newest), Settle(t));
  }

  lemma HeadingRun(h: Hasher, s: State, t: nat, newest: int)
    requires Quiet(s, t, newest) && 0 < newest == Reached(s.rows)
    ensures Run(h, s, Heading(t, newest)) == With(s, t, Fresh(Headed(newest), {}))
  {
    RunsCompose(h, s, [Begin(t), ReadNewest(t)], [Probe(t, newest), Settle(t)]);
    ReadingRun(h, s, t);
    SettlingRun(h, s, t, newest);
  }

  lemma BoundAlone(s: State, t: nat, newest: int, after: int)
    requires Quiet(s, t, newest) && after == BoundOf(Chain(s.rows, "")) && after < newest
    ensures DoReadBound(DoClaimTenant(With(s, t, Fresh(Headed(newest), {})), t), t)
            == With(s, t, Fresh(Ranged(after, newest), {""}))
  {
    var x := With(s, t, Fresh(Headed(newest), {}));
    var none: set<string> := {};
    assert none + {""} == {""} && Free(x, t, "");
    var claimed := With(s, t, Fresh(Anchoring(newest), {""}));
    assert DoClaimTenant(x, t).txs == claimed.txs;
    assert ChainSeen(claimed, t, "") == Chain(s.rows, "") + Chain([], "") == Chain(s.rows, "");
    assert DoReadBound(claimed, t).txs == s.txs[t := Fresh(Ranged(after, newest), {""})];
  }

  lemma RootMade(h: Hasher, s: State, t: nat, newest: int, after: int, root: Option<string>)
    requires t !in s.txs && root.Some? && root == CoveredRoot(h, s.rows, after, newest)
    ensures DoMakeRoot(h, With(s, t, Fresh(Ranged(after, newest), {""})), t)
            == With(s, t, Fresh(Claimed(AnchorFact(newest, root)), {""}))
  {
    var x := With(s, t, Fresh(Ranged(after, newest), {""}));
    NoOwn(s.rows);
    assert View(x, t) == s.rows;
    assert CoveredRoot(h, View(x, t), after, newest) == root;
    assert DoMakeRoot(h, x, t) == At(x, t, Claimed(AnchorFact(newest, root)));
    AtFresh(s, t, Ranged(after, newest), Claimed(AnchorFact(newest, root)));
  }

  lemma RootStep(h: Hasher, s: State, t: nat, newest: int, after: int, root: Option<string>)
    requires t !in s.txs && root.Some? && root == CoveredRoot(h, s.rows, after, newest)
    ensures Do(h, With(s, t, Fresh(Ranged(after, newest), {""})), MakeRoot(t))
            == With(s, t, Fresh(Claimed(AnchorFact(newest, root)), {""}))
  {
    RootMade(h, s, t, newest, after, root);
    MakeRootIs(h, With(s, t, Fresh(Ranged(after, newest), {""})), t,
      With(s, t, Fresh(Claimed(AnchorFact(newest, root)), {""})));
  }

  lemma MakeRootIs(h: Hasher, x: State, t: nat, y: State)
    requires DoMakeRoot(h, x, t) == y
    ensures Do(h, x, MakeRoot(t)) == y
  {
  }

  lemma AtFresh(s: State, t: nat, was: Phase, now: Phase)
    ensures At(With(s, t, Fresh(was, {""})), t, now) == With(s, t, Fresh(now, {""}))
  {
    assert At(With(s, t, Fresh(was, {""})), t, now).txs == s.txs[t := Fresh(now, {""})];
  }

  lemma LastRead(s: State, t: nat, f: Fact)
    requires t !in s.txs && ChainFor(f) == ""
    ensures DoReadLast(With(s, t, Fresh(Claimed(f), {""})), t) == Opened(s, t, f, Last(Chain(s.rows, "")))
  {
    var x := With(s, t, Fresh(Claimed(f), {""}));
    assert ChainSeen(x, t, "") == Chain(s.rows, "") + Chain([], "") == Chain(s.rows, "");
    assert DoReadLast(x, t).txs == Opened(s, t, f, Last(Chain(s.rows, ""))).txs;
  }

  lemma TwoOf(h: Hasher, x: State, a: Action, b: Action, y: State, z: State)
    requires Do(h, x, a) == y && Do(h, y, b) == z
    ensures Run(h, x, [a, b]) == z
  {
    TwoSteps(h, x, a, b);
  }

  lemma RootedRun(h: Hasher, s: State, t: nat, newest: int, after: int, f: Fact)
    requires t !in s.txs && ChainFor(f) == ""
    requires Do(h, With(s, t, Fresh(Ranged(after, newest), {""})), MakeRoot(t)) == With(s, t, Fresh(Claimed(f), {""}))
    ensures Run(h, With(s, t, Fresh(Ranged(after, newest), {""})), [MakeRoot(t), ReadLast(t)])
            == Opened(s, t, f, Last(Chain(s.rows, "")))
  {
    LastRead(s, t, f);
    TwoOf(h, With(s, t, Fresh(Ranged(after, newest), {""})), MakeRoot(t), ReadLast(t),
      With(s, t, Fresh(Claimed(f), {""})), Opened(s, t, f, Last(Chain(s.rows, ""))));
  }

  lemma BoundRun(h: Hasher, s: State, t: nat, newest: int, after: int)
    requires Quiet(s, t, newest) && after == BoundOf(Chain(s.rows, "")) && after < newest
    ensures Run(h, With(s, t, Fresh(Headed(newest), {})), [ClaimTenant(t), ReadBound(t)])
            == With(s, t, Fresh(Ranged(after, newest), {""}))
  {
    BoundAlone(s, t, newest, after);
    TwoSteps(h, With(s, t, Fresh(Headed(newest), {})), ClaimTenant(t), ReadBound(t));
  }

  lemma RootingRun(h: Hasher, s: State, t: nat, newest: int, after: int, f: Fact)
    requires Quiet(s, t, newest) && after == BoundOf(Chain(s.rows, "")) && after < newest && ChainFor(f) == ""
    requires Do(h, With(s, t, Fresh(Ranged(after, newest), {""})), MakeRoot(t)) == With(s, t, Fresh(Claimed(f), {""}))
    ensures Run(h, With(s, t, Fresh(Headed(newest), {})), Rooting(t)) == Opened(s, t, f, Last(Chain(s.rows, "")))
  {
    BoundRun(h, s, t, newest, after);
    RootedRun(h, s, t, newest, after, f);
    RunsCompose(h, With(s, t, Fresh(Headed(newest), {})), [ClaimTenant(t), ReadBound(t)], [MakeRoot(t), ReadLast(t)]);
  }

  lemma AnchorRun(h: Hasher, s: State, t: nat, newest: int, after: int, f: Fact)
    requires Quiet(s, t, newest) && 0 < newest == Reached(s.rows)
    requires after == BoundOf(Chain(s.rows, "")) && after < newest && ChainFor(f) == ""
    requires Do(h, With(s, t, Fresh(Ranged(after, newest), {""})), MakeRoot(t)) == With(s, t, Fresh(Claimed(f), {""}))
    ensures Run(h, s, MakingAnchor(t, newest))
            == s.(rows := Merge(s.rows, [Link(h, Last(Chain(s.rows, "")), f, s.positions.Next().0)]),
                  positions := s.positions.Next().1)
  {
    var previous := Last(Chain(s.rows, ""));
    HeadingRun(h, s, t, newest);
    RootingRun(h, s, t, newest, after, f);
    RunsCompose(h, s, Heading(t, newest) + Rooting(t) + Allocating(t), Closing(t));
    RunsCompose(h, s, Heading(t, newest) + Rooting(t), Allocating(t));
    RunsCompose(h, s, Heading(t, newest), Rooting(t));
    AllocatingRun(h, s, t, f, previous);
    ClosingRun(h, s.(positions := s.positions.Next().1), t,
      Tx(true, [], {ChainFor(f)}, Some(s.positions.Current()), Allocated(f, previous, s.positions.Next().0)));
  }

  /** An anchor made alone: where the newest entry lies above the last anchor's bound, and some run's chain has one in
      between, the tenant's chain has one more entry, of that kind, that reaches to the newest and carries the root
      over what lies between. */
  lemma AnchoringRun(h: Hasher, s: State, t: nat, newest: int, after: int)
    requires Quiet(s, t, newest) && 0 < newest == Reached(s.rows)
    requires after == BoundOf(Chain(s.rows, "")) && after < newest && CoveredRoot(h, s.rows, after, newest).Some?
    ensures exists e ::
              && Run(h, s, MakingAnchor(t, newest)) == s.(rows := Merge(s.rows, [e]), positions := s.positions.Next().1)
              && AnchorOver(h, s.rows, after, newest, e)
  {
    var root := CoveredRoot(h, s.rows, after, newest);
    RootStep(h, s, t, newest, after, root);
    AnchorRun(h, s, t, newest, after, AnchorFact(newest, root));
    AnchorLinked(h, s.rows, after, newest, root, Last(Chain(s.rows, "")), s.positions.Next().0);
  }

  /** An anchor that reaches to the newest position and carries the root over what lies above the last bound. */
  predicate AnchorOver(h: Hasher, rows: seq<Entry>, after: int, newest: int, e: Entry) {
    && e.body.kind == "ledger.anchored" && e.body.run.None? && e.body.through == Some(newest)
    && e.body.contentDigest == CoveredRoot(h, rows, after, newest)
  }

  lemma AnchorLinked(h: Hasher, rows: seq<Entry>, after: int, newest: int, root: Option<string>,
          previous: Option<Entry>, pos: int)
    requires root == CoveredRoot(h, rows, after, newest)
    ensures AnchorOver(h, rows, after, newest, Link(h, previous, AnchorFact(newest, root), pos))
  {
  }
}
