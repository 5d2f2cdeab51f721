/** What every step of the concurrent writers keeps. */
module WriterSafety {
  import opened Text
  import opened Merkle
  import opened Ledger
  import opened Integrity
  import opened Writers
  import opened Interleaving

  /** The positions a transaction holds and has not committed. */
  ghost function Held(x: Tx): set<int> {
    (set e | e in x.own :: e.body.pos) + (if x.phase.Allocated? then {x.phase.pos} else {})
  }

  const NOBODY := -1

  /** Whatever transactions other than `t` still commit lies above `bound`. */
  ghost predicate StableBut(s: State, bound: int, t: int) {
    && bound <= s.positions.Current()
    && forall u, p | u in s.txs && u != t && p in Held(s.txs[u]) :: bound < p
  }

  function ThroughOf(e: Entry): int { if e.body.through.None? then 0 else e.body.through.value }

  ghost predicate RowsOk(h: Hasher, base: int, s: State) {
    && Intact(h, s.rows)
    && 0 <= base <= s.positions.Current()
    && forall e | e in s.rows :: e.body.pos <= s.positions.Current() && (e.body.chainSeq.None? <==> e.body.pos <= base)
  }

  ghost predicate BoundsOk(s: State) {
    forall e | e in Anchors(s.rows) :: StableBut(s, ThroughOf(e), NOBODY)
  }

  ghost predicate Disjoint(s: State) {
    forall t, u | t in s.txs && u in s.txs && t != u ::
      s.txs[t].locks !! s.txs[u].locks && Held(s.txs[t]) !! Held(s.txs[u])
  }

  ghost predicate OwnOk(h: Hasher, base: int, s: State, x: Tx) {
    && Rising(x.own) && Apart(s.rows, x.own)
    && forall e | e in x.own ::
         && base < e.body.pos <= s.positions.Current() && e.body.chainSeq.Some?
         && HashOf(h, EntryDocument(e.body)) == e.hash
         && x.marker.Some? && x.marker.value < e.body.pos
  }

  ghost predicate ChainOk(rows: seq<Entry>, x: Tx, c: string) {
    && Linked(Chain(rows, c) + Chain(x.own, c))
    && AllBelow(Chain(rows, c), Chain(x.own, c))
    && (Chain(x.own, c) != [] ==> c in x.locks)
  }

  ghost predicate ChainsOk(s: State, x: Tx) {
    forall c: string :: ChainOk(s.rows, x, c)
  }

  /** An anchor of the list `anchors` whose root is read from `view`. */
  ghost predicate AnchorIn(h: Hasher, view: seq<Entry>, anchors: seq<Entry>, k: nat)
    requires k < |anchors|
  {
    var lo, b := From(anchors, k), anchors[k].body;
    && b.through.Some?
    && lo <= b.through.value < b.pos
    && CoveredRoot(h, view, lo, b.through.value) == b.contentDigest
  }

  ghost predicate OwnAnchorsOk(h: Hasher, s: State, t: nat)
    requires t in s.txs
  {
    var all := AnchorsOf(ChainSeen(s, t, ""));
    forall k | |Anchors(s.rows)| <= k < |all| ::
      AnchorIn(h, View(s, t), all, k) && StableBut(s, ThroughOf(all[k]), t)
  }

  ghost predicate FactOk(h: Hasher, s: State, t: nat, f: Fact)
    requires t in s.txs
  {
    && ChainFor(f) in s.txs[t].locks
    && (f.kind == ANCHORED ==>
          var lo := BoundOf(ChainSeen(s, t, ""));
          && ChainFor(f) == "" && f.through.Some? && lo <= f.through.value
          && StableBut(s, f.through.value, t)
          && CoveredRoot(h, View(s, t), lo, f.through.value) == f.contentDigest)
  }

  ghost predicate PreviousOk(s: State, t: nat, f: Fact, previous: Option<Entry>)
    requires t in s.txs
  {
    previous == Last(ChainSeen(s, t, ChainFor(f)))
  }

  ghost predicate PositionOk(base: int, s: State, t: nat, f: Fact, pos: int)
    requires t in s.txs
  {
    var x := s.txs[t];
    && base < pos <= s.positions.Current()
    && x.marker.Some? && x.marker.value < pos
    && (forall e | e in x.own :: e.body.pos < pos)
    && (forall e | e in s.rows :: e.body.pos != pos)
    && (forall e | e in Chain(s.rows, ChainFor(f)) :: e.body.pos < pos)
    && (f.kind == ANCHORED && f.through.Some? ==> f.through.value < pos)
  }

  ghost predicate PhaseOk(h: Hasher, base: int, s: State, t: nat)
    requires t in s.txs
  {
    match s.txs[t].phase
    case Idle => true
    case Claimed(f) => FactOk(h, s, t, f)
    case Linking(f, previous) => FactOk(h, s, t, f) && PreviousOk(s, t, f, previous)
    case Marking(f, previous, below) =>
      FactOk(h, s, t, f) && PreviousOk(s, t, f, previous) && below <= s.positions.Current() && s.txs[t].marker.None?
    case Allocated(f, previous, pos) =>
      FactOk(h, s, t, f) && PreviousOk(s, t, f, previous) && PositionOk(base, s, t, f, pos)
    case Probing(newest, best) => StableBut(s, best, t)
    case Headed(through) => StableBut(s, through, t)
    case Anchoring(through) => StableBut(s, through, t) && "" in s.txs[t].locks
    case Ranged(after, through) =>
      StableBut(s, through, t) && "" in s.txs[t].locks && after == BoundOf(ChainSeen(s, t, "")) && after < through
  }

  ghost predicate TxOk(h: Hasher, base: int, s: State, t: nat)
    requires t in s.txs
  {
    var x := s.txs[t];
    && (!x.live ==> x.own == [] && x.phase.Idle?)
    && (x.marker.Some? ==> x.marker.value <= s.positions.Current())
    && OwnOk(h, base, s, x)
    && ChainsOk(s, x)
    && OwnAnchorsOk(h, s, t)
    && PhaseOk(h, base, s, t)
  }

  ghost predicate Inv(h: Hasher, base: int, s: State) {
    && RowsOk(h, base, s)
    && BoundsOk(s)
    && Disjoint(s)
    && forall t | t in s.txs :: TxOk(h, base, s, t)
  }

  // --- steps that change one transaction and no row --------------------------------------------------

  /** `s'` differs from `s` in transaction `t` alone and in positions handed out since. */
  ghost predicate OnlyTx(s: State, r: State, t: nat) {
    && r.rows == s.rows
    && s.positions.Current() <= r.positions.Current()
    && (forall u | u != t :: (u in r.txs <==> u in s.txs) && (u in s.txs ==> r.txs[u] == s.txs[u]))
    && (t in r.txs ==>
          && (forall p | p in Held(r.txs[t]) :: p > s.positions.Current() || (t in s.txs && p in Held(s.txs[t])))
          && (forall u | u in s.txs && u != t :: r.txs[t].locks !! s.txs[u].locks))
  }

  lemma StableKept(s: State, r: State, t: nat, bound: int, who: int)
    requires OnlyTx(s, r, t) && StableBut(s, bound, who)
    ensures StableBut(r, bound, who)
  {
  }

  lemma HeldBounded(h: Hasher, base: int, s: State, t: nat)
    requires t in s.txs && OwnOk(h, base, s, s.txs[t]) && PhaseOk(h, base, s, t)
    ensures forall p | p in Held(s.txs[t]) :: base < p <= s.positions.Current()
  {
  }

  lemma OtherKept(h: Hasher, base: int, s: State, r: State, t: nat, u: nat)
    requires OnlyTx(s, r, t) && u in s.txs && u != t && TxOk(h, base, s, u)
    ensures TxOk(h, base, r, u)
  {
    forall b, who | StableBut(s, b, who) ensures StableBut(r, b, who) {
      StableKept(s, r, t, b, who);
    }
    assert OwnOk(h, base, r, r.txs[u]);
    assert ChainsOk(r, r.txs[u]);
    assert OwnAnchorsOk(h, r, u);
    assert PhaseOk(h, base, r, u);
  }

  /** With the rows untouched, only the changed transaction is left to look at. */
  lemma Frame(h: Hasher, base: int, s: State, r: State, t: nat)
    requires Inv(h, base, s) && OnlyTx(s, r, t)
    requires t in r.txs ==> TxOk(h, base, r, t)
    ensures Inv(h, base, r)
  {
    forall e | e in Anchors(r.rows) ensures StableBut(r, ThroughOf(e), NOBODY) {
      StableKept(s, r, t, ThroughOf(e), NOBODY);
    }
    forall u | u in r.txs ensures TxOk(h, base, r, u) {
      if u != t { OtherKept(h, base, s, r, t, u); }
    }
    assert Disjoint(r) by { FrameDisjoint(h, base, s, r, t); }
  }

  lemma FrameDisjoint(h: Hasher, base: int, s: State, r: State, t: nat)
    requires OnlyTx(s, r, t) && Disjoint(s)
    requires forall u | u in s.txs :: TxOk(h, base, s, u)
    ensures Disjoint(r)
  {
    forall u | u in s.txs ensures forall p | p in Held(s.txs[u]) :: p <= s.positions.Current() {
      HeldBounded(h, base, s, u);
    }
    forall a, b | a in r.txs && b in r.txs && a != b
      ensures r.txs[a].locks !! r.txs[b].locks && Held(r.txs[a]) !! Held(r.txs[b])
    {
      if a != t && b != t {
        assert r.txs[a] == s.txs[a] && r.txs[b] == s.txs[b];
      }
    }
  }

  /** A running transaction moves on: what it wrote stays, it may take a lock nobody holds, its
      first marker, or the next position. */
  ghost predicate Moves(s: State, r: State, t: nat) {
    && Running(s, t) && t in r.txs && r.rows == s.rows && r.txs == s.txs[t := r.txs[t]]
    && s.positions.Current() <= r.positions.Current()
    && var x, y := s.txs[t], r.txs[t];
       && y.live && y.own == x.own && x.locks <= y.locks
       && (forall c | c in y.locks - x.locks :: Free(s, t, c))
       && (x.marker.Some? ==> y.marker == x.marker)
       && (y.marker.Some? ==> y.marker.value <= r.positions.Current())
       && (y.phase.Allocated? ==> y.phase.pos > s.positions.Current())
  }

  lemma MovesOnlyTx(h: Hasher, base: int, s: State, r: State, t: nat)
    requires Inv(h, base, s) && Moves(s, r, t)
    ensures OnlyTx(s, r, t)
  {
    var x, y := s.txs[t], r.txs[t];
    forall p | p in Held(y) ensures p > s.positions.Current() || p in Held(x) {}
    forall u | u in s.txs && u != t ensures y.locks !! s.txs[u].locks {
      forall c | c in y.locks ensures c !in s.txs[u].locks {
        if c !in x.locks { assert c in y.locks - x.locks; }
      }
    }
  }

  lemma MovedTx(h: Hasher, base: int, s: State, r: State, t: nat)
    requires Inv(h, base, s) && Moves(s, r, t) && PhaseOk(h, base, r, t)
    ensures TxOk(h, base, r, t)
  {
    var x, y := s.txs[t], r.txs[t];
    assert TxOk(h, base, s, t);
    assert OwnOk(h, base, r, y);
    forall c: string ensures ChainOk(r.rows, y, c) {
      assert ChainOk(s.rows, x, c);
    }
    MovesOnlyTx(h, base, s, r, t);
    var all := AnchorsOf(ChainSeen(r, t, ""));
    assert ChainSeen(r, t, "") == ChainSeen(s, t, "") && View(r, t) == View(s, t);
    forall k | |Anchors(r.rows)| <= k < |all|
      ensures AnchorIn(h, View(r, t), all, k) && StableBut(r, ThroughOf(all[k]), t)
    {
      StableKept(s, r, t, ThroughOf(all[k]), t);
    }
  }

  lemma Moved(h: Hasher, base: int, s: State, r: State, t: nat)
    requires Inv(h, base, s) && Moves(s, r, t) && PhaseOk(h, base, r, t)
    ensures Inv(h, base, r)
  {
    MovesOnlyTx(h, base, s, r, t);
    MovedTx(h, base, s, r, t);
    Frame(h, base, s, r, t);
  }

  /** What a session knows of the fact it records survives its own next step. */
  lemma FactKept(h: Hasher, base: int, s: State, r: State, t: nat, f: Fact)
    requires Inv(h, base, s) && Moves(s, r, t) && FactOk(h, s, t, f)
    ensures FactOk(h, r, t, f)
  {
    MovesOnlyTx(h, base, s, r, t);
    assert ChainSeen(r, t, "") == ChainSeen(s, t, "") && View(r, t) == View(s, t);
    if f.kind == ANCHORED {
      StableKept(s, r, t, f.through.value, t);
    }
  }

  lemma KeepsBegin(h: Hasher, base: int, s: State, t: nat)
    requires Inv(h, base, s)
    ensures Inv(h, base, DoBegin(s, t))
  {
    var r := DoBegin(s, t);
    if t !in s.txs {
      assert Held(r.txs[t]) == {};
      NothingOwned(h, base, r, t);
      Frame(h, base, s, r, t);
    }
  }

  lemma KeepsClaim(h: Hasher, base: int, s: State, t: nat, f: Fact)
    requires Inv(h, base, s)
    ensures Inv(h, base, DoClaim(s, t, f))
  {
    var r := DoClaim(s, t, f);
    if Running(s, t) && s.txs[t].phase.Idle? && f.kind != ANCHORED && Free(s, t, ChainFor(f)) {
      assert FactOk(h, r, t, f);
      Moved(h, base, s, r, t);
    }
  }

  lemma KeepsReadLast(h: Hasher, base: int, s: State, t: nat)
    requires Inv(h, base, s)
    ensures Inv(h, base, DoReadLast(s, t))
  {
    var r := DoReadLast(s, t);
    if Running(s, t) && s.txs[t].phase.Claimed? {
      FactKept(h, base, s, r, t, s.txs[t].phase.fact);
      Moved(h, base, s, r, t);
    }
  }

  lemma KeepsReadSequence(h: Hasher, base: int, s: State, t: nat)
    requires Inv(h, base, s)
    ensures Inv(h, base, DoReadSequence(s, t))
  {
    var r := DoReadSequence(s, t);
    if Running(s, t) && s.txs[t].phase.Linking? && s.txs[t].marker.None? {
      FactKept(h, base, s, r, t, s.txs[t].phase.fact);
      Moved(h, base, s, r, t);
    }
  }

  lemma KeepsTakeMarker(h: Hasher, base: int, s: State, t: nat)
    requires Inv(h, base, s)
    ensures Inv(h, base, DoTakeMarker(s, t))
  {
    var r := DoTakeMarker(s, t);
    if Running(s, t) && s.txs[t].phase.Marking? {
      assert TxOk(h, base, s, t);
      FactKept(h, base, s, r, t, s.txs[t].phase.fact);
      Moved(h, base, s, r, t);
    }
  }

  lemma ChainRowBounded(h: Hasher, base: int, s: State, c: string)
    requires RowsOk(h, base, s)
    ensures forall e | e in Chain(s.rows, c) :: e.body.pos <= s.positions.Current()
  {
    forall e | e in Chain(s.rows, c) ensures e.body.pos <= s.positions.Current() {
      ChainMembers(s.rows, c, e);
    }
  }

  lemma KeepsNextValue(h: Hasher, base: int, s: State, t: nat)
    requires Inv(h, base, s)
    ensures Inv(h, base, DoNextValue(s, t))
  {
    var r := DoNextValue(s, t);
    if Running(s, t) && s.txs[t].phase.Linking? && s.txs[t].marker.Some? {
      var f := s.txs[t].phase.fact;
      NextIsAboveCurrent(s.positions);
      assert TxOk(h, base, s, t);
      FactKept(h, base, s, r, t, f);
      ChainRowBounded(h, base, s, ChainFor(f));
      assert PositionOk(base, r, t, f, r.txs[t].phase.pos);
      Moved(h, base, s, r, t);
    }
  }

  lemma KeepsReadNewest(h: Hasher, base: int, s: State, t: nat)
    requires Inv(h, base, s)
    ensures Inv(h, base, DoReadNewest(s, t))
  {
    var r := DoReadNewest(s, t);
    if Running(s, t) && s.txs[t].phase.Idle? {
      NothingAtZero(h, base, s, t);
      MovesOnlyTx(h, base, s, r, t);
      StableKept(s, r, t, 0, t);
      Moved(h, base, s, r, t);
    }
  }

  lemma NothingAtZero(h: Hasher, base: int, s: State, t: nat)
    requires Inv(h, base, s)
    ensures StableBut(s, 0, t)
  {
    forall u, p | u in s.txs && u != t && p in Held(s.txs[u]) ensures 0 < p {
      assert TxOk(h, base, s, u);
      HeldBounded(h, base, s, u);
    }
  }

  /** No marker of another transaction is below a visible position: then whatever the others
      still commit is above it. A transaction with a marker holds positions above it; one
      without a marker holds none, and its first comes after every position handed out. */
  lemma MarkersBound(h: Hasher, base: int, s: State, t: nat, pos: int)
    requires Inv(h, base, s) && Running(s, t)
    requires exists e | e in View(s, t) :: e.body.pos == pos
    requires NoMarkerBelow(s, t, pos)
    ensures StableBut(s, pos, t)
  {
    var e :| e in View(s, t) && e.body.pos == pos;
    assert TxOk(h, base, s, t);
    assert e in s.rows || e in s.txs[t].own;
    forall u, p | u in s.txs && u != t && p in Held(s.txs[u]) ensures pos < p {
      assert TxOk(h, base, s, u);
    }
  }

  lemma KeepsProbe(h: Hasher, base: int, s: State, t: nat, pos: int)
    requires Inv(h, base, s)
    ensures Inv(h, base, DoProbe(s, t, pos))
  {
    var r := DoProbe(s, t, pos);
    if r != s {
      assert TxOk(h, base, s, t);
      MarkersBound(h, base, s, t, pos);
      Probed(h, base, s, t, if pos > s.txs[t].phase.best then pos else s.txs[t].phase.best);
    }
  }

  lemma Probed(h: Hasher, base: int, s: State, t: nat, best: int)
    requires Inv(h, base, s) && Running(s, t) && s.txs[t].phase.Probing? && StableBut(s, best, t)
    ensures Inv(h, base, At(s, t, Probing(s.txs[t].phase.newest, best)))
  {
    var r := At(s, t, Probing(s.txs[t].phase.newest, best));
    MovesOnlyTx(h, base, s, r, t);
    StableKept(s, r, t, best, t);
    Moved(h, base, s, r, t);
  }

  lemma KeepsSettle(h: Hasher, base: int, s: State, t: nat)
    requires Inv(h, base, s)
    ensures Inv(h, base, DoSettle(s, t))
  {
    var r := DoSettle(s, t);
    if Running(s, t) && s.txs[t].phase.Probing? {
      assert TxOk(h, base, s, t);
      MovesOnlyTx(h, base, s, r, t);
      StableKept(s, r, t, s.txs[t].phase.best, t);
      Moved(h, base, s, r, t);
    }
  }

  lemma KeepsClaimTenant(h: Hasher, base: int, s: State, t: nat)
    requires Inv(h, base, s)
    ensures Inv(h, base, DoClaimTenant(s, t))
  {
    var r := DoClaimTenant(s, t);
    if Running(s, t) && s.txs[t].phase.Headed? && Free(s, t, "") {
      assert TxOk(h, base, s, t);
      MovesOnlyTx(h, base, s, r, t);
      StableKept(s, r, t, s.txs[t].phase.through, t);
      Moved(h, base, s, r, t);
    }
  }

  lemma KeepsReadBound(h: Hasher, base: int, s: State, t: nat)
    requires Inv(h, base, s)
    ensures Inv(h, base, DoReadBound(s, t))
  {
    var r := DoReadBound(s, t);
    if Running(s, t) && s.txs[t].phase.Anchoring? {
      assert TxOk(h, base, s, t);
      MovesOnlyTx(h, base, s, r, t);
      StableKept(s, r, t, s.txs[t].phase.through, t);
      assert ChainSeen(r, t, "") == ChainSeen(s, t, "");
      Moved(h, base, s, r, t);
    }
  }

  lemma KeepsMakeRoot(h: Hasher, base: int, s: State, t: nat)
    requires Inv(h, base, s)
    ensures Inv(h, base, DoMakeRoot(h, s, t))
  {
    var r := DoMakeRoot(h, s, t);
    if Running(s, t) && s.txs[t].phase.Ranged? {
      assert TxOk(h, base, s, t);
      MovesOnlyTx(h, base, s, r, t);
      StableKept(s, r, t, s.txs[t].phase.through, t);
      assert ChainSeen(r, t, "") == ChainSeen(s, t, "") && View(r, t) == View(s, t);
      Moved(h, base, s, r, t);
    }
  }

  lemma KeepsDrop(h: Hasher, base: int, s: State, t: nat)
    requires Inv(h, base, s)
    ensures Inv(h, base, DoDrop(s, t))
  {
    var r := DoDrop(s, t);
    if Running(s, t) && (s.txs[t].phase.Headed? || s.txs[t].phase.Probing?) {
      Moved(h, base, s, r, t);
    }
  }

  lemma NothingOwned(h: Hasher, base: int, s: State, t: nat)
    requires AllLinked(s.rows) && t in s.txs && s.txs[t].own == [] && s.txs[t].phase.Idle?
    requires s.txs[t].marker.Some? ==> s.txs[t].marker.value <= s.positions.Current()
    ensures TxOk(h, base, s, t)
  {
    var x := s.txs[t];
    forall c: string ensures ChainOk(s.rows, x, c) {
      assert Chain(x.own, c) == [];
      assert Chain(s.rows, c) + [] == Chain(s.rows, c);
    }
    assert ChainSeen(s, t, "") == Chain(s.rows, "");
    assert OwnAnchorsOk(h, s, t);
  }

  lemma KeepsAbort(h: Hasher, base: int, s: State, t: nat)
    requires Inv(h, base, s)
    ensures Inv(h, base, DoAbort(s, t))
  {
    var r := DoAbort(s, t);
    if Running(s, t) {
      assert Held(r.txs[t]) == {};
      assert TxOk(h, base, s, t);
      NothingOwned(h, base, r, t);
      assert OnlyTx(s, r, t);
      Frame(h, base, s, r, t);
    }
  }

  lemma KeepsRelease(h: Hasher, base: int, s: State, t: nat)
    requires Inv(h, base, s)
    ensures Inv(h, base, DoRelease(s, t))
  {
    var r := DoRelease(s, t);
    if t in s.txs && !s.txs[t].live {
      assert OnlyTx(s, r, t);
      Frame(h, base, s, r, t);
    }
  }

  lemma Unused(ids: set<nat>) returns (t: nat)
    ensures t !in ids && forall x | x in ids :: x < t
  {
    if ids == {} {
      t := 0;
    } else {
      var x :| x in ids;
      var rest := Unused(ids - {x});
      assert ids == (ids - {x}) + {x};
      t := if x < rest then rest else x + 1;
    }
  }

  lemma KeepsOtherTenant(h: Hasher, base: int, s: State)
    requires Inv(h, base, s)
    ensures Inv(h, base, s.(positions := s.positions.Next().1))
  {
    var r := s.(positions := s.positions.Next().1);
    NextIsAboveCurrent(s.positions);
    var t := Unused(s.txs.Keys);
    assert OnlyTx(s, r, t);
    Frame(h, base, s, r, t);
  }
}
