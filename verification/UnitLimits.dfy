/** What a unit holds over whole runs: no more than its limit, where every claim ranks on a snapshot that
    shows all that is held, exactly as long as every lease that is renewed late finds room. */
module UnitLimits {
  import opened Text
  import opened Jobs
  import opened ClaimLaws
  import opened QueueRuns

  function Held(rows: Rows, u: string, now: int, w: Setting): nat { |LiveIn(rows, Some(u), TermsAt(w, now))| }

  /** What is live at an instant was live before, where no claim was made in between. */
  lemma LiveBefore(rows: Rows, u: string, now: int, later: int, w: Setting)
    requires now <= later
    ensures Held(rows, u, later, w) <= Held(rows, u, now, w)
  {
    SubsetCount(LiveIn(rows, Some(u), TermsAt(w, later)), LiveIn(rows, Some(u), TermsAt(w, now)));
  }

  // --- renewals -----------------------------------------------------------------------------------------------------

  /** A lease of the unit that has run out at `last` is renewed to run beyond it. */
  predicate Revives(q: Queue, tx: Tx, a: Action, w: Setting, u: string, last: int) {
    && a.Extend? && Reached(q, tx, a, w) && q.rows[a.id].orgUnit == Some(u)
    && q.rows[a.id].claimedAt.value < last - w.lease <= a.now
  }

  /** A lease of the unit that is live at `last` is set back, to have run out at it. */
  predicate SetsBack(q: Queue, tx: Tx, a: Action, w: Setting, u: string, last: int) {
    && a.Extend? && Reached(q, tx, a, w) && q.rows[a.id].orgUnit == Some(u)
    && a.now < last - w.lease <= q.rows[a.id].claimedAt.value
  }

  lemma LiveAfterRenewal(q: Queue, tx: Tx, a: Action, w: Setting, u: string, last: int)
    requires a.Extend? && Reached(q, tx, a, w)
    ensures var was, now := LiveIn(q.rows, Some(u), TermsAt(w, last)),
            LiveIn(Do(q, tx, a, w).rows, Some(u), TermsAt(w, last));
            && now == (if Revives(q, tx, a, w, u, last) then was + {a.id}
                       else if SetsBack(q, tx, a, w, u, last) then was - {a.id} else was)
            && (Revives(q, tx, a, w, u, last) ==> a.id !in was) && (SetsBack(q, tx, a, w, u, last) ==> a.id in was)
  {
  }

  /** What a renewal adds to what its unit holds at any instant: one where it revives a lease run out by
      then, one less where it sets a live one back, and nothing else. */
  lemma RenewalExactly(q: Queue, tx: Tx, a: Action, w: Setting, u: string, last: int)
    requires a.Extend? && Reached(q, tx, a, w)
    ensures Held(Do(q, tx, a, w).rows, u, last, w) as int - Held(q.rows, u, last, w)
            == if Revives(q, tx, a, w, u, last) then 1 else if SetsBack(q, tx, a, w, u, last) then -1 else 0
  {
    LiveAfterRenewal(q, tx, a, w, u, last);
  }

  // --- claims -------------------------------------------------------------------------------------------------------

  /** The claim takes no job of the unit. */
  predicate Spares(q: Queue, tx: Tx, a: Action, w: Setting, u: string) {
    forall i | i in Takes(q, tx, a, w) && i in q.rows :: q.rows[i].orgUnit != Some(u)
  }

  /** The latest instant of a claim that ranks by unit. */
  function Latest(a: Action, last: int): int { if a.Five? then Max(a.now, last) else last }

  /** What the unit can hold after a claim, with any batch and any further rows locked: what it held, and
      the jobs ranked for it that are still to be had. */
  function CanHold(q: Queue, tx: Tx, a: Action, w: Setting, u: string, later: int): set<Id>
    requires a.Five?
  {
    var t := TermsAt(w, a.now);
    LiveIn(q.rows, Some(u), TermsAt(w, later))
    + RankedIn(a.snapshot, t, a.limits, Some(u)) * Open(a.snapshot, q.rows, SharedByOthers(q, tx), t)
  }

  lemma ClaimReaches(q: Queue, tx: Tx, a: Action, w: Setting, u: string, later: int)
    requires a.Five?
    ensures LiveIn(Do(q, tx, a, w).rows, Some(u), TermsAt(w, later)) <= CanHold(q, tx, a, w, u, later)
  {
    TakenExactly(a.snapshot, q.rows, a.locked + SharedByOthers(q, tx), TermsAt(w, a.now), a.batch, Some(a.limits));
  }

  /** With a batch above all that is ranked, and no further row locked, a claim takes all that is to be had. */
  lemma FullClaimReaches(q: Queue, tx: Tx, a: Action, w: Setting, u: string, later: int)
    requires a.Five? && a.locked == {} && |Ranked(a.snapshot, TermsAt(w, a.now), a.limits)| < a.batch
    requires a.now <= later <= a.now + w.lease
    ensures LiveIn(Do(q, tx, a, w).rows, Some(u), TermsAt(w, later)) == CanHold(q, tx, a, w, u, later)
  {
    var t, shared := TermsAt(w, a.now), SharedByOthers(q, tx);
    var r := Takes(q, tx, a, w);
    assert {} + shared == shared;
    TakenExactly(a.snapshot, q.rows, shared, t, a.batch, Some(a.limits));
    SubsetCount(Members(r), Ranked(a.snapshot, t, a.limits));
    ClaimReaches(q, tx, a, w, u, later);
    forall i | i in CanHold(q, tx, a, w, u, later)
      ensures i in LiveIn(Do(q, tx, a, w).rows, Some(u), TermsAt(w, later))
    {
      if i in r { assert Live(Claimed(q.rows[i], a.claimant, t), TermsAt(w, later)); }
    }
  }

  /** The same claim with another batch and other rows locked. */
  function Asking(a: Action, batch: nat, locked: set<Id>): Action
    requires a.Five?
  {
    Five(a.snapshot, locked, a.claimant, batch, a.now, a.limits)
  }

  /** A claim keeps a unit within a bound whatever its batch, and whatever else is locked, exactly where
      what the unit can hold after it is within the bound. */
  lemma ClaimExactly(q: Queue, tx: Tx, a: Action, w: Setting, u: string, bound: int, later: int)
    requires a.Five? && a.now <= later <= a.now + w.lease
    ensures (forall batch: nat, locked: set<Id> ::
               Held(Do(q, tx, Asking(a, batch, locked), w).rows, u, later, w) <= bound)
            <==> |CanHold(q, tx, a, w, u, later)| <= bound
  {
    forall batch: nat, locked: set<Id> | |CanHold(q, tx, a, w, u, later)| <= bound
      ensures Held(Do(q, tx, Asking(a, batch, locked), w).rows, u, later, w) <= bound
    {
      var b := Asking(a, batch, locked);
      ClaimReaches(q, tx, b, w, u, later);
      SubsetCount(LiveIn(Do(q, tx, b, w).rows, Some(u), TermsAt(w, later)), CanHold(q, tx, a, w, u, later));
    }
    var none: set<Id> := {};
    var full: nat := |Ranked(a.snapshot, TermsAt(w, a.now), a.limits)| + 1;
    FullClaimReaches(q, tx, Asking(a, full, none), w, u, later);
    assert Held(Do(q, tx, Asking(a, full, none), w).rows, u, later, w) == |CanHold(q, tx, a, w, u, later)|;
  }

  /** The claim takes no job of the unit; or it asks for a limit within the bound, on a snapshot that shows no
      less of the unit than the rows hold; or what the unit can hold after it is within the bound. */
  predicate Mindful(q: Queue, tx: Tx, a: Action, w: Setting, u: string, bound: int, last: int) {
    || Spares(q, tx, a, w, u)
    || (a.Five? && u in a.limits && a.limits[u] <= bound && Held(q.rows, u, a.now, w) <= Held(a.snapshot, u, a.now, w))
    || (a.Five? && |CanHold(q, tx, a, w, u, Latest(a, last))| <= bound)
  }

  /** No statement but a claim or a renewal adds to what a unit holds. */
  lemma HoldsNoMore(q: Queue, tx: Tx, a: Action, w: Setting, u: string, now: int)
    requires Spares(q, tx, a, w, u) && !Revives(q, tx, a, w, u, now)
    ensures Held(Do(q, tx, a, w).rows, u, now, w) <= Held(q.rows, u, now, w)
  {
    var t := TermsAt(w, now);
    SubsetCount(LiveIn(Do(q, tx, a, w).rows, Some(u), t), LiveIn(q.rows, Some(u), t));
  }

  lemma ClaimWithin(q: Queue, tx: Tx, a: Action, w: Setting, u: string, bound: int, last: int)
    requires a.Five? && |CanHold(q, tx, a, w, u, Latest(a, last))| <= bound
    ensures Held(Do(q, tx, a, w).rows, u, Latest(a, last), w) <= bound
  {
    var later := Latest(a, last);
    ClaimReaches(q, tx, a, w, u, later);
    SubsetCount(LiveIn(Do(q, tx, a, w).rows, Some(u), TermsAt(w, later)), CanHold(q, tx, a, w, u, later));
  }

  /** A snapshot that shows what is held leaves no more places free than there are. */
  lemma ShownWithin(q: Queue, tx: Tx, a: Action, w: Setting, u: string, bound: int, last: int)
    requires a.Five? && u in a.limits && a.limits[u] <= bound && Held(q.rows, u, last, w) <= bound
    requires Held(q.rows, u, a.now, w) <= Held(a.snapshot, u, a.now, w)
    ensures |CanHold(q, tx, a, w, u, Latest(a, last))| <= bound
  {
    var later, t := Latest(a, last), TermsAt(w, a.now);
    var live, ranked := LiveIn(q.rows, Some(u), TermsAt(w, later)), RankedIn(a.snapshot, t, a.limits, Some(u));
    LiveBefore(q.rows, u, last, later, w);
    LiveBefore(q.rows, u, a.now, later, w);
    SubsetCount(CanHold(q, tx, a, w, u, later), live + ranked);
    SumCount(live, ranked);
    RankedCount(a.snapshot, t, a.limits, u);
  }

  lemma KeepsBound(q: Queue, tx: Tx, a: Action, w: Setting, u: string, bound: int, last: int)
    requires Mindful(q, tx, a, w, u, bound, last) && Held(q.rows, u, last, w) <= bound
    requires !Revives(q, tx, a, w, u, last)
    ensures Held(Do(q, tx, a, w).rows, u, Latest(a, last), w) <= bound
  {
    LiveBefore(q.rows, u, last, Latest(a, last), w);
    if Spares(q, tx, a, w, u) {
      HoldsNoMore(q, tx, a, w, u, Latest(a, last));
    } else {
      if |CanHold(q, tx, a, w, u, Latest(a, last))| > bound { ShownWithin(q, tx, a, w, u, bound, last); }
      ClaimWithin(q, tx, a, w, u, bound, last);
    }
  }

  // --- over runs ----------------------------------------------------------------------------------------------------

  ghost predicate MindfulRun(q: Queue, steps: seq<(Tx, Action)>, w: Setting, u: string, bound: int, last: int)
    decreases |steps|
  {
    steps != [] ==>
      var (tx, a) := steps[0];
      Mindful(q, tx, a, w, u, bound, last) && MindfulRun(Do(q, tx, a, w), steps[1..], w, u, bound, Latest(a, last))
  }

  /** Every renewal that revives a lease the latest claim found run out finds a free place for it. */
  ghost predicate Roomy(q: Queue, steps: seq<(Tx, Action)>, w: Setting, u: string, bound: int, last: int)
    decreases |steps|
  {
    steps != [] ==>
      var (tx, a) := steps[0];
      && (Revives(q, tx, a, w, u, last) ==> Held(q.rows, u, last, w) < bound)
      && Roomy(Do(q, tx, a, w), steps[1..], w, u, bound, Latest(a, last))
  }

  /** Throughout the run, the unit holds no more than the bound at the instant of the latest claim. */
  ghost predicate Within(q: Queue, steps: seq<(Tx, Action)>, w: Setting, u: string, bound: int, last: int)
    decreases |steps|
  {
    && Held(q.rows, u, last, w) <= bound
    && (steps != [] ==>
          var (tx, a) := steps[0];
          Within(Do(q, tx, a, w), steps[1..], w, u, bound, Latest(a, last)))
  }

  function LatestOf(steps: seq<(Tx, Action)>, last: int): int {
    if steps == [] then last else LatestOf(steps[1..], Latest(steps[0].1, last))
  }

  /** Over every run whose claims are mindful of a unit's limit, in any order of their instants, whoever
      releases, defers, passes or completes jobs in between: the unit stays within the bound throughout
      exactly where every lease revived finds room. */
  lemma {:induction false} WithinExactly(q: Queue, steps: seq<(Tx, Action)>, w: Setting, u: string, bound: int,
          last: int)
    requires MindfulRun(q, steps, w, u, bound, last) && Held(q.rows, u, last, w) <= bound
    ensures Within(q, steps, w, u, bound, last) <==> Roomy(q, steps, w, u, bound, last)
    decreases |steps|
  {
    if steps != [] {
      var (tx, a) := steps[0];
      var next := Do(q, tx, a, w);
      if Revives(q, tx, a, w, u, last) {
        RenewalExactly(q, tx, a, w, u, last);
      } else {
        KeepsBound(q, tx, a, w, u, bound, last);
      }
      if Held(next.rows, u, Latest(a, last), w) <= bound {
        WithinExactly(next, steps[1..], w, u, bound, Latest(a, last));
      } else {
        assert !Within(next, steps[1..], w, u, bound, Latest(a, last));
      }
    }
  }

  /** At the end of a run within its bound, at any instant from the latest claim on. */
  lemma {:induction false} WithinAtEnd(q: Queue, steps: seq<(Tx, Action)>, w: Setting, u: string, bound: int, last: int,
          later: int)
    requires Within(q, steps, w, u, bound, last) && LatestOf(steps, last) <= later
    ensures Held(Run(q, steps, w).rows, u, later, w) <= bound
    decreases |steps|
  {
    if steps == [] {
      LiveBefore(q.rows, u, last, later, w);
    } else {
      var (tx, a) := steps[0];
      WithinAtEnd(Do(q, tx, a, w), steps[1..], w, u, bound, Latest(a, last), later);
    }
  }

  /** So at the end of such a run, at any instant from the latest claim on, the unit holds no more than its
      limit, or than it held at the start. */
  lemma UnitLimitOverRuns(q: Queue, steps: seq<(Tx, Action)>, w: Setting, u: string, limit: int, last: int, later: int)
    requires var bound := Max(limit, Held(q.rows, u, last, w));
             MindfulRun(q, steps, w, u, bound, last) && Roomy(q, steps, w, u, bound, last)
    requires LatestOf(steps, last) <= later
    ensures Held(Run(q, steps, w).rows, u, later, w) <= Max(limit, Held(q.rows, u, last, w))
  {
    var bound := Max(limit, Held(q.rows, u, last, w));
    WithinExactly(q, steps, w, u, bound, last);
    WithinAtEnd(q, steps, w, u, bound, last, later);
  }

  // --- the lock around a claim --------------------------------------------------------------------------------------

  /** No step takes a job of the unit, or revives a lease of it that has run out at this instant. */
  ghost predicate Calm(q: Queue, steps: seq<(Tx, Action)>, w: Setting, u: string, now: int)
    decreases |steps|
  {
    steps != [] ==>
      var (tx, a) := steps[0];
      Spares(q, tx, a, w, u) && !Revives(q, tx, a, w, u, now) && Calm(Do(q, tx, a, w), steps[1..], w, u, now)
  }

  /** What a snapshot shows of a unit at an instant, it goes on to cover, as long as it is calm. */
  lemma {:induction false} SnapshotCovers(q: Queue, steps: seq<(Tx, Action)>, w: Setting, u: string, now: int)
    requires Calm(q, steps, w, u, now)
    ensures Held(Run(q, steps, w).rows, u, now, w) <= Held(q.rows, u, now, w)
    decreases |steps|
  {
    if steps != [] {
      var (tx, a) := steps[0];
      HoldsNoMore(q, tx, a, w, u, now);
      SnapshotCovers(Do(q, tx, a, w), steps[1..], w, u, now);
    }
  }

  /** The claim at `n` ranks the table as it stood at `m`, and in between it was calm. */
  ghost predicate Shown(q: Queue, steps: seq<(Tx, Action)>, w: Setting, u: string, m: nat, n: nat) {
    && m <= n < |steps| && steps[n].1.Five?
    && steps[n].1.snapshot == Run(q, steps[..m], w).rows
    && Calm(Run(q, steps[..m], w), steps[m..n], w, u, steps[n].1.now)
  }

  /** The claim at `n` could not take the unit past the bound with any batch. */
  ghost predicate Harmless(q: Queue, steps: seq<(Tx, Action)>, w: Setting, u: string, bound: int, start: int, n: nat) {
    && n < |steps| && steps[n].1.Five?
    && |CanHold(Run(q, steps[..n], w), steps[n].0, steps[n].1, w, u, LatestOf(steps[..n + 1], start))| <= bound
  }

  /** Every claim that takes jobs of the unit asks for the one limit, and is made under the lock. Where a
      lease is revived between its snapshot and its update, it must be harmless. */
  ghost predicate UnderLock(q: Queue, steps: seq<(Tx, Action)>, w: Setting, u: string, limit: int, bound: int,
          start: int) {
    forall n | 0 <= n < |steps| && !Spares(Run(q, steps[..n], w), steps[n].0, steps[n].1, w, u) ::
      && steps[n].1.Five? && u in steps[n].1.limits && steps[n].1.limits[u] == limit
      && ((exists m :: Shown(q, steps, w, u, m, n)) || Harmless(q, steps, w, u, bound, start, n))
  }

  lemma {:induction false} LatestNext(steps: seq<(Tx, Action)>, start: int, n: nat)
    requires n < |steps|
    ensures LatestOf(steps[..n + 1], start) == Latest(steps[n].1, LatestOf(steps[..n], start))
    decreases n
  {
    if n > 0 {
      LatestNext(steps[1..], Latest(steps[0].1, start), n - 1);
      assert steps[..n + 1][1..] == steps[1..][..n] && steps[..n][1..] == steps[1..][..n - 1];
    }
  }

  lemma RunNext(q: Queue, steps: seq<(Tx, Action)>, w: Setting, n: nat)
    requires n < |steps|
    ensures Run(q, steps[..n + 1], w) == Do(Run(q, steps[..n], w), steps[n].0, steps[n].1, w)
  {
    assert steps[..n + 1] == steps[..n] + [steps[n]];
    RunSum(q, steps[..n], [steps[n]], w);
    RunOne(Run(q, steps[..n], w), steps[n], w);
  }

  lemma ShownCovers(q: Queue, steps: seq<(Tx, Action)>, w: Setting, u: string, m: nat, n: nat)
    requires Shown(q, steps, w, u, m, n)
    ensures Held(Run(q, steps[..n], w).rows, u, steps[n].1.now, w) <= Held(steps[n].1.snapshot, u, steps[n].1.now, w)
  {
    assert steps[..n] == steps[..m] + steps[m..n];
    RunSum(q, steps[..m], steps[m..n], w);
    SnapshotCovers(Run(q, steps[..m], w), steps[m..n], w, u, steps[n].1.now);
  }

  lemma LockedIsMindful(q: Queue, steps: seq<(Tx, Action)>, w: Setting, u: string, limit: int, bound: int, start: int,
          n: nat)
    requires UnderLock(q, steps, w, u, limit, bound, start) && n < |steps| && limit <= bound
    ensures Mindful(Run(q, steps[..n], w), steps[n].0, steps[n].1, w, u, bound, LatestOf(steps[..n], start))
  {
    LatestNext(steps, start, n);
    if m :| Shown(q, steps, w, u, m, n) { ShownCovers(q, steps, w, u, m, n); }
  }

  lemma {:induction false} LockedRunIsMindful(q: Queue, steps: seq<(Tx, Action)>, w: Setting, u: string, limit: int,
          bound: int, start: int, n: nat)
    requires UnderLock(q, steps, w, u, limit, bound, start) && n <= |steps| && limit <= bound
    ensures MindfulRun(Run(q, steps[..n], w), steps[n..], w, u, bound, LatestOf(steps[..n], start))
    decreases |steps| - n
  {
    if n < |steps| {
      LockedIsMindful(q, steps, w, u, limit, bound, start, n);
      RunNext(q, steps, w, n);
      LatestNext(steps, start, n);
      LockedRunIsMindful(q, steps, w, u, limit, bound, start, n + 1);
      assert steps[n..][1..] == steps[n + 1..];
    }
  }

  /** Where every claim is made under the lock: throughout the run a unit holds, at the instant of the
      latest claim, no more than its limit, or than it held at the start, exactly where every renewal that
      revives a lease that claim found run out finds a free place. */
  lemma LockKeepsUnitLimit(q: Queue, steps: seq<(Tx, Action)>, w: Setting, u: string, limit: int, start: int)
    requires UnderLock(q, steps, w, u, limit, Max(limit, Held(q.rows, u, start, w)), start)
    ensures var bound := Max(limit, Held(q.rows, u, start, w));
            Within(q, steps, w, u, bound, start) <==> Roomy(q, steps, w, u, bound, start)
  {
    var bound := Max(limit, Held(q.rows, u, start, w));
    assert steps[..0] == [] && steps[0..] == steps;
    LockedRunIsMindful(q, steps, w, u, limit, bound, start, 0);
    WithinExactly(q, steps, w, u, bound, start);
  }

  // --- a renewal that comes late ------------------------------------------------------------------------------------

  /** A claim of 0 with its one attempt spent, and a job to claim. */
  function OneClaimed(u: string, first: string): Rows {
    map[0 := Unclaimed(5, u, 0).(claimedAt := Some(0), claimedBy := Some(first), attempts := 1),
      1 := Unclaimed(6, u, 0)]
  }

  lemma ExpiredPlaces(u: string, first: string)
    ensures var rows, t := OneClaimed(u, first), Terms(11, 10, 1);
            LiveIn(rows, Some(u), t) == {} && Taken(rows, rows, {}, t, 1, Some(map[u := 1])) == [1]
  {
    var rows, t := OneClaimed(u, first), Terms(11, 10, 1);
    assert LiveIn(rows, Some(u), t) == {};
    assert UpTo(rows, 1, t) == {1};
    assert Place(rows, 1, t) == 1;
    TakesOnly(rows, rows, t, map[u := 1], 1);
  }

  /** The lease of ten has run out when the claim at 11 takes the other job; a renewal by a transaction
      begun at 10, and executed after it, then makes two. */
  lemma LateRenewalExceeds(u: string, first: string, second: string)
    ensures var q, w := Queue(OneClaimed(u, first), {}), Setting(10, 1);
            var claimed := Do(q, 1, Five(q.rows, {}, second, 1, 11, map[u := 1]), w);
            Held(q.rows, u, 11, w) == 0 && Held(Do(claimed, 2, Extend(0, first, 10), w).rows, u, 11, w) == 2
  {
    var q, w := Queue(OneClaimed(u, first), {}), Setting(10, 1);
    ExpiredPlaces(u, first);
    assert {} + SharedByOthers(q, 1) == {};
    var claimed := Do(q, 1, Five(q.rows, {}, second, 1, 11, map[u := 1]), w);
    assert claimed.rows == Take(q.rows, [1], second, TermsAt(w, 11)) && SharedByOthers(claimed, 2) == {};
    assert Reached(claimed, 2, Extend(0, first, 10), w);
    assert LiveIn(Do(claimed, 2, Extend(0, first, 10), w).rows, Some(u), TermsAt(w, 11)) == {0, 1};
  }
}
