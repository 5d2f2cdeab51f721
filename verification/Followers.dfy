/** Readers that follow the head over many rounds, and when a later head can lie below an earlier one. */
module Followers {
  import opened Text
  import opened Merkle
  import opened Ledger
  import opened Integrity
  import opened Writers
  import opened WriterSafety
  import opened WriterCommit
  import opened StableHead
  import opened LedgerDatabase

  // --- reading from head to head ------------------------------------------------------------------------------------

  /** A round: others' steps until a session that wrote nothing has its head, and until the reader has
      read the entries up to it. */
  datatype Round = Round(wait: seq<Action>, t: nat, through: int, read: seq<Action>)

  /** How far a reader has read, and what. */
  datatype Reader = Reader(after: int, seen: set<Entry>)

  function Waited(h: Hasher, s: State, r: Round): State { Run(h, s, r.wait) }

  function AfterRound(h: Hasher, s: State, r: Round): State { Run(h, Waited(h, s, r), r.read) }

  predicate HeadTaken(h: Hasher, s: State, r: Round) {
    var m := Waited(h, s, r);
    Running(m, r.t) && m.txs[r.t].own == [] && m.txs[r.t].phase == Headed(r.through)
  }

  /** The entries from the last head to this one are read. Where this one lies below, a projection is
      built again from the first entry; any other reader waits for a higher one. */
  ghost function Read(h: Hasher, s: State, x: Reader, r: Round, rebuilds: bool): Reader {
    var rows := AfterRound(h, s, r).rows;
    if x.after <= r.through then Reader(r.through, x.seen + Range(rows, x.after, r.through))
    else if rebuilds then Reader(r.through, Range(rows, 0, r.through))
    else x
  }

  predicate HeadsTaken(h: Hasher, s: State, rounds: seq<Round>)
    decreases |rounds|
  {
    rounds != [] ==> HeadTaken(h, s, rounds[0]) && HeadsTaken(h, AfterRound(h, s, rounds[0]), rounds[1..])
  }

  function AfterRounds(h: Hasher, s: State, rounds: seq<Round>): State
    decreases |rounds|
  {
    if rounds == [] then s else AfterRounds(h, AfterRound(h, s, rounds[0]), rounds[1..])
  }

  ghost function ReadAll(h: Hasher, s: State, x: Reader, rounds: seq<Round>, rebuilds: bool): Reader
    decreases |rounds|
  {
    if rounds == [] then x
    else ReadAll(h, AfterRound(h, s, rounds[0]), Read(h, s, x, rounds[0], rebuilds), rounds[1..], rebuilds)
  }

  /** The reader has read exactly the entries up to where it stands, in every later state. */
  ghost predicate Complete(h: Hasher, s: State, x: Reader) {
    forall later: seq<Action> :: x.seen == Range(Run(h, s, later).rows, 0, x.after)
  }

  lemma StaysComplete(h: Hasher, s: State, x: Reader, actions: seq<Action>)
    requires Complete(h, s, x)
    ensures Complete(h, Run(h, s, actions), x)
  {
    forall later: seq<Action> ensures x.seen == Range(Run(h, Run(h, s, actions), later).rows, 0, x.after) {
      RunsCompose(h, s, actions, later);
    }
  }

  /** What lies at or below a head is the same in every state from then on. */
  lemma BelowHeadStays(h: Hasher, base: int, s: State, r: Round, later: seq<Action>)
    requires Inv(h, base, s) && HeadTaken(h, s, r)
    ensures Range(Run(h, AfterRound(h, s, r), later).rows, 0, r.through)
            == Range(AfterRound(h, s, r).rows, 0, r.through)
  {
    var m := Waited(h, s, r);
    KeepsAlways(h, base, s, r.wait);
    RunsCompose(h, m, r.read, later);
    NothingBelowTheHead(h, base, m, r.t, r.through, r.read);
    NothingBelowTheHead(h, base, m, r.t, r.through, r.read + later);
    assert View(m, r.t) == m.rows;
  }

  lemma RangesJoin(h: Hasher, base: int, s: State, after: int, through: int)
    requires Inv(h, base, s) && after <= through
    ensures Range(s.rows, 0, after) + Range(s.rows, after, through) == Range(s.rows, 0, through)
  {
    assert Rising(s.rows);
    forall e | e in s.rows ensures 0 < e.body.pos {}
  }

  lemma ReadsComplete(h: Hasher, base: int, s: State, x: Reader, r: Round, rebuilds: bool)
    requires Inv(h, base, s) && HeadTaken(h, s, r) && Complete(h, s, x)
    ensures Inv(h, base, AfterRound(h, s, r)) && Complete(h, AfterRound(h, s, r), Read(h, s, x, r, rebuilds))
  {
    var end := AfterRound(h, s, r);
    KeepsAlways(h, base, s, r.wait);
    KeepsAlways(h, base, Waited(h, s, r), r.read);
    StaysComplete(h, s, x, r.wait);
    StaysComplete(h, Waited(h, s, r), x, r.read);
    var none: seq<Action> := [];
    assert Run(h, end, none) == end;
    if x.after <= r.through { RangesJoin(h, base, end, x.after, r.through); }
    if x.after <= r.through || rebuilds {
      forall later: seq<Action>
        ensures Read(h, s, x, r, rebuilds).seen == Range(Run(h, end, later).rows, 0, r.through)
      {
        BelowHeadStays(h, base, s, r, later);
      }
    }
  }

  lemma {:induction false} AllComplete(h: Hasher, base: int, s: State, x: Reader, rounds: seq<Round>, rebuilds: bool)
    requires Inv(h, base, s) && HeadsTaken(h, s, rounds) && Complete(h, s, x)
    ensures Complete(h, AfterRounds(h, s, rounds), ReadAll(h, s, x, rounds, rebuilds))
    decreases |rounds|
  {
    if rounds != [] {
      ReadsComplete(h, base, s, x, rounds[0], rebuilds);
      AllComplete(h, base, AfterRound(h, s, rounds[0]), Read(h, s, x, rounds[0], rebuilds), rounds[1..], rebuilds);
    }
  }

  /** Over any number of rounds, its heads rising or falling, a reader that began at the first entry has
      read exactly the entries up to where it stands, in that and in every later state. */
  lemma FollowerMissesNothing(h: Hasher, base: int, s: State, rounds: seq<Round>, rebuilds: bool, later: seq<Action>)
    requires Inv(h, base, s) && HeadsTaken(h, s, rounds)
    ensures var x := ReadAll(h, s, Reader(0, {}), rounds, rebuilds);
            x.seen == set e | e in Run(h, AfterRounds(h, s, rounds), later).rows && 0 < e.body.pos <= x.after
  {
    AllComplete(h, base, s, Reader(0, {}), rounds, rebuilds);
  }

  /** A reader that waits stands at the highest of its heads, a projection at the last. */
  lemma {:induction false} StandsAt(h: Hasher, s: State, x: Reader, rounds: seq<Round>, rebuilds: bool)
    ensures var after := ReadAll(h, s, x, rounds, rebuilds).after;
            if rebuilds then after == if rounds == [] then x.after else rounds[|rounds| - 1].through
            else && x.after <= after && (forall r | r in rounds :: r.through <= after)
                 && (after == x.after || exists r :: r in rounds && r.through == after)
    decreases |rounds|
  {
    if rounds != [] {
      var y := Read(h, s, x, rounds[0], rebuilds);
      StandsAt(h, AfterRound(h, s, rounds[0]), y, rounds[1..], rebuilds);
      assert rounds == [rounds[0]] + rounds[1..];
    }
  }

  // --- when a head can fall -----------------------------------------------------------------------------------------

  /** Another session has read the sequence below this bound and has not taken its marker yet. */
  ghost predicate Exposed(s: State, t: nat, bound: int) {
    exists u :: u in s.txs && u != t && s.txs[u].phase.Marking? && s.txs[u].phase.below < bound
  }

  ghost predicate Settled(s: State, t: nat, bound: int) {
    bound <= s.positions.Current() && NoMarkerBelow(s, t, bound) && !Exposed(s, t, bound)
  }

  lemma StaysSettled(h: Hasher, s: State, a: Action, t: nat, bound: int)
    requires Settled(s, t, bound)
    ensures Settled(Do(h, s, a), t, bound)
  {
    if !a.OtherTenant? {
      OtherTxsStay(h, s, a);
      if a.t != t && a.t in Do(h, s, a).txs { OwnStepSettles(h, s, a, t, bound); }
    }
  }

  /** A step changes its own transaction, and sets the sequence no lower. */
  lemma OtherTxsStay(h: Hasher, s: State, a: Action)
    requires !a.OtherTenant?
    ensures s.positions.Current() <= Do(h, s, a).positions.Current()
    ensures forall u | u != a.t :: u in Do(h, s, a).txs <==> u in s.txs
    ensures forall u | u != a.t && u in s.txs :: Do(h, s, a).txs[u] == s.txs[u]
  {
  }

  lemma OwnStepSettles(h: Hasher, s: State, a: Action, t: nat, bound: int)
    requires Settled(s, t, bound) && !a.OtherTenant? && a.t != t && a.t in Do(h, s, a).txs
    ensures var x := Do(h, s, a).txs[a.t];
            (x.marker.Some? ==> bound <= x.marker.value) && (x.phase.Marking? ==> bound <= x.phase.below)
  {
  }

  lemma {:induction false} AlwaysSettled(h: Hasher, s: State, actions: seq<Action>, t: nat, bound: int)
    requires Settled(s, t, bound)
    ensures Settled(Run(h, s, actions), t, bound)
    decreases |actions|
  {
    if actions != [] {
      StaysSettled(h, s, actions[0], t, bound);
      AlwaysSettled(h, Do(h, s, actions[0]), actions[1..], t, bound);
    }
  }

  lemma MarkerBelow(h: Hasher, s: State, t: nat, u: nat, bound: int)
    requires u != t && Running(s, u) && s.txs[u].phase.Marking? && s.txs[u].phase.below < bound
    ensures !NoMarkerBelow(Run(h, s, [TakeMarker(u)]), t, bound)
  {
    RunOne(h, s, TakeMarker(u));
    assert DoTakeMarker(s, u).txs[u].marker == Some(s.txs[u].phase.below);
  }

  lemma MarkingRuns(h: Hasher, base: int, s: State, u: nat)
    requires Inv(h, base, s) && u in s.txs && s.txs[u].phase.Marking?
    ensures Running(s, u)
  {
    assert TxOk(h, base, s, u);
  }

  lemma ExposedFalls(h: Hasher, base: int, s: State, t: nat, bound: int) returns (actions: seq<Action>)
    requires Inv(h, base, s) && (Exposed(s, t, bound) || !NoMarkerBelow(s, t, bound))
    ensures !NoMarkerBelow(Run(h, s, actions), t, bound)
  {
    actions := [];
    assert Run(h, s, actions) == s;
    if NoMarkerBelow(s, t, bound) {
      var u :| u in s.txs && u != t && s.txs[u].phase.Marking? && s.txs[u].phase.below < bound;
      MarkingRuns(h, base, s, u);
      MarkerBelow(h, s, t, u, bound);
      actions := [TakeMarker(u)];
    }
  }

  /** No marker will ever lie below a position that has been handed out, and so no later head fall below an
      entry committed there, exactly where none does now, and no other session stands before its marker with
      a value of the sequence below it. */
  lemma HeadHoldsExactly(h: Hasher, base: int, s: State, t: nat, bound: int)
    requires Inv(h, base, s) && bound <= s.positions.Current()
    ensures (forall actions: seq<Action> :: NoMarkerBelow(Run(h, s, actions), t, bound))
            <==> NoMarkerBelow(s, t, bound) && !Exposed(s, t, bound)
  {
    if Settled(s, t, bound) {
      forall actions: seq<Action> ensures NoMarkerBelow(Run(h, s, actions), t, bound) {
        AlwaysSettled(h, s, actions, t, bound);
      }
    } else {
      var actions := ExposedFalls(h, base, s, t, bound);
    }
  }

  lemma ProbeReaches(s: State, t: nat, bound: int)
    requires Running(s, t) && s.txs[t].phase.Probing? && bound <= s.txs[t].phase.newest
    requires (exists e | e in View(s, t) :: e.body.pos == bound) && NoMarkerBelow(s, t, bound)
    ensures var r := DoSettle(DoProbe(s, t, bound), t); r.txs[t].phase.Headed? && bound <= r.txs[t].phase.through
  {
  }

  /** So from a state in which neither is so on, a session that reads the newest entry at or above one committed
      by then, and looks at that one, has a head no lower. */
  lemma HeadKeepsUp(h: Hasher, s: State, actions: seq<Action>, t: nat, e: Entry)
    requires e in s.rows && e.body.pos <= s.positions.Current()
    requires NoMarkerBelow(s, t, e.body.pos) && !Exposed(s, t, e.body.pos)
    requires var m := Run(h, s, actions);
             Running(m, t) && m.txs[t].phase.Probing? && e.body.pos <= m.txs[t].phase.newest
    ensures var r := DoSettle(DoProbe(Run(h, s, actions), t, e.body.pos), t);
            t in r.txs && r.txs[t].phase.Headed? && e.body.pos <= r.txs[t].phase.through
  {
    AlwaysSettled(h, s, actions, t, e.body.pos);
    RowsGrow(h, s, actions, e);
    assert e in View(Run(h, s, actions), t);
    ProbeReaches(Run(h, s, actions), t, e.body.pos);
  }
}
