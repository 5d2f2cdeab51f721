/** The allocation and the stable head as the database runs them, one statement after the other
    in one session, tied to the steps of the concurrent system. */
module LedgerDatabase {
  import opened Text
  import opened Merkle
  import opened Ledger
  import opened Writers
  import opened Interleaving

  class Database {
    var rows: seq<Entry>
    var positions: Sequence
    var txs: map<nat, Tx>

    ghost function Now(): State reads this { State(rows, positions, txs) }

    constructor (rows: seq<Entry>, positions: Sequence)
      ensures Now() == State(rows, positions, map[])
    {
      this.rows, this.positions, this.txs := rows, positions, map[];
    }

    /** What other sessions do meanwhile. */
    method Meanwhile(h: Hasher, actions: seq<Action>, t: nat)
      requires ByOthers(actions, t) && t in txs
      modifies this
      ensures Now() == Run(h, old(Now()), actions)
      ensures t in txs && txs[t] == old(txs[t]) && old(positions.Current()) <= positions.Current()
    {
      OthersLeave(h, Now(), actions, t);
      var s := Run(h, State(rows, positions, txs), actions);
      rows, positions, txs := s.rows, s.positions, s.txs;
    }

    /** The marker once per transaction, before its first position; then the next position. `then1` and
        `then2` are other sessions' steps: after the sequence is read, and after the marker is taken. */
    method LedgerAllocate(h: Hasher, t: nat, then1: seq<Action>, then2: seq<Action>) returns (pos: int)
      requires Running(Now(), t) && txs[t].phase.Linking? && ByOthers(then1, t) && ByOthers(then2, t)
      modifies this
      ensures Now() == Run(h, old(Now()), AllocateSteps(t, old(txs[t].marker.None?), then1, then2))
      ensures Running(Now(), t) && txs[t].phase == Allocated(old(txs[t].phase.fact), old(txs[t].phase.previous), pos)
      ensures txs[t].marker == if old(txs[t].marker.None?) then Some(old(positions.Current())) else old(txs[t].marker)
      ensures old(positions.Current()) < pos == positions.Current()
    {
      ghost var before := Now();
      var x := txs[t];
      if x.marker.None? {
        var below := if positions.isCalled then positions.lastValue else positions.lastValue - 1;
        txs := txs[t := x.(phase := Marking(x.phase.fact, x.phase.previous, below))];
        assert Now() == Do(h, before, ReadSequence(t));
        Meanwhile(h, then1, t);
        ghost var marking := Now();
        txs := txs[t := x.(marker := Some(below))];
        assert Now() == Do(h, marking, TakeMarker(t));
        Meanwhile(h, then2, t);
        MarkerRun(h, before, t, then1, then2);
      }
      ghost var marked := Now();
      pos := if positions.isCalled then positions.lastValue + 1 else positions.lastValue;
      positions := Sequence(pos, true);
      txs := txs[t := txs[t].(phase := Allocated(x.phase.fact, x.phase.previous, pos))];
      assert Now() == Do(h, marked, NextValue(t));
      RunsCompose(h, before, MarkerSteps(t, before.txs[t].marker.None?, then1, then2), [NextValue(t)]);
      RunOne(h, marked, NextValue(t));
    }

    /** Two statements. The first reads the newest entry. The second takes its snapshot of the entries, then
        reads the markers of the others, and finds the newest entry of its snapshot at or below both.
        `between` and `during` are other sessions' steps: before that snapshot, and before the markers. */
    method Head(h: Hasher, t: nat, between: seq<Action>, during: seq<Action>)
      returns (head: int, ghost second: State, ghost third: State)
      requires Running(Now(), t) && txs[t].phase.Idle? && ByOthers(between, t) && ByOthers(during, t)
      modifies this
      ensures second == Run(h, old(Now()), [ReadNewest(t)] + between) && Running(second, t)
      ensures third == Run(h, second, during) && Running(third, t)
      ensures Now() == Run(h, third, [Probe(t, head), Settle(t)])
      ensures Running(Now(), t) && txs[t].phase == Headed(head)
      ensures 0 <= head <= Reached(View(old(Now()), t))
      ensures head == 0 || exists e | e in second.rows + second.txs[t].own :: e.body.pos == head
      ensures head == 0 ||
              forall u | u in third.txs && u != t && third.txs[u].marker.Some? :: head <= third.txs[u].marker.value
      ensures forall e | e in second.rows + second.txs[t].own && e.body.pos <= Reached(View(old(Now()), t))
                && (forall u | u in third.txs && u != t && third.txs[u].marker.Some? ::
                      e.body.pos <= third.txs[u].marker.value) :: e.body.pos <= head
    {
      ghost var before := Now();
      var newest := Reached(rows + txs[t].own);
      txs := txs[t := txs[t].(phase := Probing(newest, 0))];
      assert Now() == Do(h, before, ReadNewest(t));
      Meanwhile(h, between, t);
      second := Now();
      RunsCompose(h, before, [ReadNewest(t)], between);
      RunOne(h, before, ReadNewest(t));
      var seen := rows + txs[t].own;
      Meanwhile(h, during, t);
      third := Now();
      head := NewestBelowMarkers(t, newest, seen);
      if e :| e in seen && e.body.pos == head { StillSeen(h, second, during, t, e); }
      txs := txs[t := txs[t].(phase := Headed(head))];
      HeadRun(h, third, t, newest, head);
    }

    /** The newest position of the view, up to `newest`, that no marker of the others lies below. */
    method NewestBelowMarkers(t: nat, newest: int, view: seq<Entry>) returns (head: int)
      requires newest >= 0
      ensures 0 <= head <= newest && (head == 0 || exists e | e in view :: e.body.pos == head)
      ensures head == 0 || forall u | u in txs && u != t && txs[u].marker.Some? :: head <= txs[u].marker.value
      ensures forall e | e in view && e.body.pos <= newest
                && (forall u | u in txs && u != t && txs[u].marker.Some? :: e.body.pos <= txs[u].marker.value) ::
                e.body.pos <= head
    {
      var bound := LowestMarker(t, newest);
      head := NewestUpTo(view, bound);
    }

    /** The smallest marker of the others, or the newest position where none is below it. */
    method LowestMarker(t: nat, newest: int) returns (bound: int)
      ensures bound <= newest
      ensures forall u | u in txs && u != t && txs[u].marker.Some? :: bound <= txs[u].marker.value
      ensures bound == newest || exists u | u in txs && u != t :: txs[u].marker == Some(bound)
    {
      bound := newest;
      var rest := txs.Keys - {t};
      while rest != {}
        invariant rest <= txs.Keys - {t} && bound <= newest
        invariant forall u | u in txs && u != t && u !in rest && txs[u].marker.Some? :: bound <= txs[u].marker.value
        invariant bound == newest || exists u | u in txs && u != t :: txs[u].marker == Some(bound)
        decreases rest
      {
        var u :| u in rest;
        if txs[u].marker.Some? && txs[u].marker.value < bound {
          bound := txs[u].marker.value;
        }
        rest := rest - {u};
      }
    }

    /** The newest position of the view at or below a bound, or none. */
    method NewestUpTo(view: seq<Entry>, bound: int) returns (head: int)
      ensures head >= 0 && (head == 0 || head <= bound)
      ensures head == 0 || exists e | e in view :: e.body.pos == head
      ensures forall e | e in view && e.body.pos <= bound :: e.body.pos <= head
    {
      head := 0;
      for i := 0 to |view|
        invariant head >= 0 && (head == 0 || head <= bound)
        invariant head == 0 || exists e | e in view :: e.body.pos == head
        invariant forall e | e in view[..i] && e.body.pos <= bound :: e.body.pos <= head
      {
        assert view[..i + 1] == view[..i] + [view[i]];
        if view[i].body.pos <= bound && view[i].body.pos > head {
          head := view[i].body.pos;
        }
      }
      assert view[..|view|] == view;
    }
  }

  function MarkerSteps(t: nat, first: bool, then1: seq<Action>, then2: seq<Action>): seq<Action> {
    if first then [ReadSequence(t)] + then1 + [TakeMarker(t)] + then2 else []
  }

  function AllocateSteps(t: nat, first: bool, then1: seq<Action>, then2: seq<Action>): seq<Action> {
    MarkerSteps(t, first, then1, then2) + [NextValue(t)]
  }

  lemma MarkerRun(h: Hasher, s: State, t: nat, then1: seq<Action>, then2: seq<Action>)
    ensures Run(h, s, MarkerSteps(t, true, then1, then2))
            == Run(h, Do(h, Run(h, Do(h, s, ReadSequence(t)), then1), TakeMarker(t)), then2)
  {
    RunsCompose(h, s, [ReadSequence(t)] + then1 + [TakeMarker(t)], then2);
    RunsCompose(h, s, [ReadSequence(t)] + then1, [TakeMarker(t)]);
    RunsCompose(h, s, [ReadSequence(t)], then1);
    RunOne(h, s, ReadSequence(t));
    RunOne(h, Run(h, s, [ReadSequence(t)] + then1), TakeMarker(t));
  }

  lemma {:induction false} RowsGrow(h: Hasher, s: State, actions: seq<Action>, e: Entry)
    requires e in s.rows
    ensures e in Run(h, s, actions).rows
    decreases |actions|
  {
    if actions != [] {
      if actions[0].Commit? && Running(s, actions[0].t) { MergeMembers(s.rows, s.txs[actions[0].t].own, e); }
      RowsGrow(h, Do(h, s, actions[0]), actions[1..], e);
    }
  }

  /** What a session sees it still sees after others' steps. */
  lemma StillSeen(h: Hasher, s: State, actions: seq<Action>, t: nat, e: Entry)
    requires ByOthers(actions, t) && t in s.txs && e in View(s, t)
    ensures t in Run(h, s, actions).txs && e in View(Run(h, s, actions), t)
  {
    OthersLeave(h, s, actions, t);
    if e in s.rows { RowsGrow(h, s, actions, e); }
  }

  /** From the reading of the markers on: probing and settling end at the head probed. */
  lemma HeadRun(h: Hasher, s: State, t: nat, newest: int, head: int)
    requires Running(s, t) && s.txs[t].phase == Probing(newest, 0) && 0 <= head <= newest
    requires head == 0 || ((exists e | e in View(s, t) :: e.body.pos == head) && NoMarkerBelow(s, t, head))
    ensures Run(h, s, [Probe(t, head), Settle(t)]) == At(s, t, Headed(head))
  {
    var probed := Do(h, s, Probe(t, head));
    RunsCompose(h, s, [Probe(t, head)], [Settle(t)]);
    RunOne(h, s, Probe(t, head));
    RunOne(h, probed, Settle(t));
    assert [Probe(t, head)] + [Settle(t)] == [Probe(t, head), Settle(t)];
    assert probed == At(s, t, Probing(newest, head));
  }
}
