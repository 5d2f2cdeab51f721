/** One tenant's ledger under concurrent transactions: how a position is handed out, how an
    entry is recorded on its chain, how the stable head is read, and how an anchor is made.
    A step is one statement of the database or one transaction's end. */
module Writers {
  import opened Text
  import opened Merkle
  import opened Ledger
  import opened Integrity

  // --- the sequence of reading positions -----------------------------------------------------------

  /** A PostgreSQL sequence: its stored value, and whether that value was handed out. */
  datatype Sequence = Sequence(lastValue: int, isCalled: bool) {
    /** What `ledger_allocate` reads: the newest value handed out. */
    function Current(): int { if isCalled then lastValue else lastValue - 1 }

    function Next(): (int, Sequence) {
      var v := if isCalled then lastValue + 1 else lastValue;
      (v, Sequence(v, true))
    }
  }

  lemma NextIsAboveCurrent(s: Sequence)
    ensures s.Next().0 == s.Current() + 1 == s.Next().1.Current()
  {
  }

  // --- what is recorded ------------------------------------------------------------------------------

  datatype Fact = Fact(
    kind: string,
    run: Option<string>,
    inOrder: bool,
    through: Option<int>,
    contentDigest: Option<string>,
    rest: string)

  function ChainFor(f: Fact): string {
    if f.inOrder || f.run.None? then "" else f.run.value
  }

  /** The next entry of a chain for this fact, after `previous`. */
  function Link(h: Hasher, previous: Option<Entry>, f: Fact, pos: int): Entry {
    var body := Body(
      pos,
      f.kind,
      f.run,
      Some(if previous.None? then 1 else Place(previous.value.body) + 1),
      if f.inOrder && f.run.Some? then Some(TENANT) else None,
      if previous.None? then None else Some(previous.value.hash),
      f.through,
      f.contentDigest,
      f.rest);
    Entry(body, HashOf(h, EntryDocument(body)))
  }

  // --- a transaction ------------------------------------------------------------------------------------

  /** Where a session stands between two of its statements. */
  datatype Phase =
    | Idle
    | Claimed(fact: Fact)                                          // holds the chain's lock
    | Linking(fact: Fact, previous: Option<Entry>)                 // has read the chain's newest entry
    | Marking(fact: Fact, previous: Option<Entry>, below: int)     // has read the sequence, holds no marker
    | Allocated(fact: Fact, previous: Option<Entry>, pos: int)     // holds a position, not yet appended
    | Probing(newest: int, best: int)                              // has read the newest committed entry
    | Headed(through: int)                                         // has the stable head
    | Anchoring(through: int)                                      // and the lock of the tenant's chain
    | Ranged(after: int, through: int)                             // and the bound of the newest anchor

  datatype Tx = Tx(live: bool, own: seq<Entry>, locks: set<string>, marker: Option<int>, phase: Phase)

  datatype State = State(rows: seq<Entry>, positions: Sequence, txs: map<nat, Tx>)

  /** What a transaction reads: what is committed, and what it wrote itself. */
  function View(s: State, t: nat): seq<Entry>
    requires t in s.txs
  {
    s.rows + s.txs[t].own
  }

  function ChainSeen(s: State, t: nat, c: string): seq<Entry>
    requires t in s.txs
  {
    Chain(s.rows, c) + Chain(s.txs[t].own, c)
  }

  function Last(chain: seq<Entry>): Option<Entry> {
    if chain == [] then None else Some(chain[|chain| - 1])
  }

  /** The rows of two lists in the order of their positions. */
  function Merge(a: seq<Entry>, b: seq<Entry>): seq<Entry>
    decreases |a| + |b|
  {
    if a == [] then b
    else if b == [] then a
    else if a[|a| - 1].body.pos < b[|b| - 1].body.pos then Merge(a, b[..|b| - 1]) + [b[|b| - 1]]
    else Merge(a[..|a| - 1], b) + [a[|a| - 1]]
  }

  // --- the steps ------------------------------------------------------------------------------------------

  datatype Action =
    | Begin(t: nat)
    | Claim(t: nat, fact: Fact)
    | ReadLast(t: nat)
    | ReadSequence(t: nat)
    | TakeMarker(t: nat)
    | NextValue(t: nat)
    | Append(t: nat)
    | ReadNewest(t: nat)
    | Probe(t: nat, pos: int)
    | Settle(t: nat)
    | ClaimTenant(t: nat)
    | ReadBound(t: nat)
    | MakeRoot(t: nat)
    | Drop(t: nat)
    | Commit(t: nat)
    | Abort(t: nat)
    | Release(t: nat)
    | OtherTenant

  predicate Free(s: State, t: nat, c: string) {
    forall u | u in s.txs && u != t :: c !in s.txs[u].locks
  }

  /** `ledger_open_below` over the markers of the others is at or above `pos`. */
  predicate NoMarkerBelow(s: State, t: nat, pos: int) {
    forall u | u in s.txs && u != t && s.txs[u].marker.Some? :: pos <= s.txs[u].marker.value
  }

  predicate Running(s: State, t: nat) { t in s.txs && s.txs[t].live }

  function With(s: State, t: nat, x: Tx): State { s.(txs := s.txs[t := x]) }

  function At(s: State, t: nat, phase: Phase): State
    requires t in s.txs
  {
    With(s, t, s.txs[t].(phase := phase))
  }

  function DoBegin(s: State, t: nat): State {
    if t in s.txs then s else With(s, t, Tx(true, [], {}, None, Idle))
  }

  /** Only `MakeRoot` writes anchors: `record` is never called with their kind. */
  function DoClaim(s: State, t: nat, f: Fact): State {
    if Running(s, t) && s.txs[t].phase.Idle? && f.kind != ANCHORED && Free(s, t, ChainFor(f)) then
      With(s, t, s.txs[t].(locks := s.txs[t].locks + {ChainFor(f)}, phase := Claimed(f)))
    else s
  }

  function DoReadLast(s: State, t: nat): State {
    if Running(s, t) && s.txs[t].phase.Claimed? then
      var f := s.txs[t].phase.fact;
      At(s, t, Linking(f, Last(ChainSeen(s, t, ChainFor(f)))))
    else s
  }

  function DoReadSequence(s: State, t: nat): State {
    if Running(s, t) && s.txs[t].phase.Linking? && s.txs[t].marker.None? then
      At(s, t, Marking(s.txs[t].phase.fact, s.txs[t].phase.previous, s.positions.Current()))
    else s
  }

  function DoTakeMarker(s: State, t: nat): State {
    if Running(s, t) && s.txs[t].phase.Marking? then
      var p := s.txs[t].phase;
      With(s, t, s.txs[t].(marker := Some(p.below), phase := Linking(p.fact, p.previous)))
    else s
  }

  function DoNextValue(s: State, t: nat): State {
    if Running(s, t) && s.txs[t].phase.Linking? && s.txs[t].marker.Some? then
      var (pos, positions) := s.positions.Next();
      At(s.(positions := positions), t, Allocated(s.txs[t].phase.fact, s.txs[t].phase.previous, pos))
    else s
  }

  function DoAppend(h: Hasher, s: State, t: nat): State {
    if Running(s, t) && s.txs[t].phase.Allocated? then
      var p := s.txs[t].phase;
      With(s, t, s.txs[t].(own := s.txs[t].own + [Link(h, p.previous, p.fact, p.pos)], phase := Idle))
    else s
  }

  function DoReadNewest(s: State, t: nat): State {
    if Running(s, t) && s.txs[t].phase.Idle? then At(s, t, Probing(Reached(View(s, t)), 0)) else s
  }

  /** One row looked at by the second statement: it counts when it is visible, at or below the
      newest entry read first, and at or below every marker of the others. */
  function DoProbe(s: State, t: nat, pos: int): State {
    if Running(s, t) && s.txs[t].phase.Probing?
       && (exists e | e in View(s, t) :: e.body.pos == pos)
       && pos <= s.txs[t].phase.newest && NoMarkerBelow(s, t, pos)
    then
      var p := s.txs[t].phase;
      At(s, t, Probing(p.newest, if pos > p.best then pos else p.best))
    else s
  }

  function DoSettle(s: State, t: nat): State {
    if Running(s, t) && s.txs[t].phase.Probing? then At(s, t, Headed(s.txs[t].phase.best)) else s
  }

  function DoClaimTenant(s: State, t: nat): State {
    if Running(s, t) && s.txs[t].phase.Headed? && Free(s, t, "") then
      With(s, t, s.txs[t].(locks := s.txs[t].locks + {""}, phase := Anchoring(s.txs[t].phase.through)))
    else s
  }

  function DoReadBound(s: State, t: nat): State {
    if Running(s, t) && s.txs[t].phase.Anchoring? then
      var after := BoundOf(ChainSeen(s, t, ""));
      At(s, t, if s.txs[t].phase.through <= after then Idle else Ranged(after, s.txs[t].phase.through))
    else s
  }

  function DoMakeRoot(h: Hasher, s: State, t: nat): State {
    if Running(s, t) && s.txs[t].phase.Ranged? then
      var p := s.txs[t].phase;
      var root := CoveredRoot(h, View(s, t), p.after, p.through);
      At(s, t, if root.None? then Idle else Claimed(AnchorFact(p.through, root)))
    else s
  }

  function AnchorFact(through: int, root: Option<string>): Fact {
    Fact(ANCHORED, None, false, Some(through), root, "anchored")
  }

  function DoDrop(s: State, t: nat): State {
    if Running(s, t) && (s.txs[t].phase.Headed? || s.txs[t].phase.Probing?) then At(s, t, Idle) else s
  }

  /** What was written becomes visible; the locks and the marker are still held. */
  function DoCommit(s: State, t: nat): State {
    if Running(s, t) then
      With(s.(rows := Merge(s.rows, s.txs[t].own)), t, s.txs[t].(live := false, own := [], phase := Idle))
    else s
  }

  function DoAbort(s: State, t: nat): State {
    if Running(s, t) then With(s, t, s.txs[t].(live := false, own := [], phase := Idle)) else s
  }

  function DoRelease(s: State, t: nat): State {
    if t in s.txs && !s.txs[t].live then s.(txs := s.txs - {t}) else s
  }

  /** One step; a step that is not enabled changes nothing. */
  function Do(h: Hasher, s: State, a: Action): State {
    match a
    case Begin(t) => DoBegin(s, t)
    case Claim(t, f) => DoClaim(s, t, f)
    case ReadLast(t) => DoReadLast(s, t)
    case ReadSequence(t) => DoReadSequence(s, t)
    case TakeMarker(t) => DoTakeMarker(s, t)
    case NextValue(t) => DoNextValue(s, t)
    case Append(t) => DoAppend(h, s, t)
    case ReadNewest(t) => DoReadNewest(s, t)
    case Probe(t, pos) => DoProbe(s, t, pos)
    case Settle(t) => DoSettle(s, t)
    case ClaimTenant(t) => DoClaimTenant(s, t)
    case ReadBound(t) => DoReadBound(s, t)
    case MakeRoot(t) => DoMakeRoot(h, s, t)
    case Drop(t) => DoDrop(s, t)
    case Commit(t) => DoCommit(s, t)
    case Abort(t) => DoAbort(s, t)
    case Release(t) => DoRelease(s, t)
    case OtherTenant => s.(positions := s.positions.Next().1)
  }

  function Run(h: Hasher, s: State, actions: seq<Action>): State
    decreases |actions|
  {
    if actions == [] then s else Run(h, Do(h, s, actions[0]), actions[1..])
  }

  /** The `through` of the newest anchor on the tenant's chain, 0 without one. */
  function BoundOf(chain: seq<Entry>): int { From(AnchorsOf(chain), |AnchorsOf(chain)|) }

  lemma {:induction false} RunsCompose(h: Hasher, s: State, a: seq<Action>, b: seq<Action>)
    ensures Run(h, s, a + b) == Run(h, Run(h, s, a), b)
    decreases |a|
  {
    if a == [] {
      assert a + b == b;
    } else {
      assert (a + b)[1..] == a[1..] + b;
      RunsCompose(h, Do(h, s, a[0]), a[1..], b);
    }
  }

  lemma RunOne(h: Hasher, s: State, a: Action)
    ensures Run(h, s, [a]) == Do(h, s, a)
  {
    assert [a][1..] == [];
  }

  /** Whose transaction a step is of. */
  function ActorOf(a: Action): Option<nat> { if a.OtherTenant? then None else Some(a.t) }

  predicate ByOthers(actions: seq<Action>, t: nat) {
    forall n | 0 <= n < |actions| :: ActorOf(actions[n]) != Some(t)
  }

  lemma OtherLeaves(h: Hasher, s: State, a: Action, t: nat)
    requires ActorOf(a) != Some(t) && t in s.txs
    ensures t in Do(h, s, a).txs && Do(h, s, a).txs[t] == s.txs[t]
    ensures s.positions.Current() <= Do(h, s, a).positions.Current()
  {
  }

  /** Other transactions' steps leave a transaction as it was, and the sequence no lower. */
  lemma {:induction false} OthersLeave(h: Hasher, s: State, actions: seq<Action>, t: nat)
    requires ByOthers(actions, t) && t in s.txs
    ensures var r := Run(h, s, actions);
            t in r.txs && r.txs[t] == s.txs[t] && s.positions.Current() <= r.positions.Current()
    decreases |actions|
  {
    if actions != [] {
      assert ActorOf(actions[0]) != Some(t);
      OtherLeaves(h, s, actions[0], t);
      OthersLeave(h, Do(h, s, actions[0]), actions[1..], t);
    }
  }

  /** A ledger as the migration finds it: every entry by the rule before, the sequence set to
      hand out the position above the newest. */
  ghost predicate Initial(h: Hasher, s: State) {
    && Intact(h, s.rows)
    && (forall e | e in s.rows :: e.body.chainSeq.None?)
    && s.positions == Sequence(Reached(s.rows) + 1, false)
    && s.txs == map[]
  }
}
