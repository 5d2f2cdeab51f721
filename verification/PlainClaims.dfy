/** What a claim takes and writes, in the rows' own fields. */
module PlainClaims {
  import opened Text
  import opened Jobs
  import opened ClaimLaws
  import opened QueueRuns

  // --- the conditions -----------------------------------------------------------------------------------------------

  /** Available, with attempts left, and neither held nor leased: a hold ends at its time, a lease once it is
      longer ago than it lasts. */
  predicate MayRun(j: Job, now: int, lease: int, maxAttempts: int) {
    && j.availableAt <= now && j.attempts - j.deferrals < maxAttempts
    && (if j.heldUntil.Some? then j.heldUntil.value <= now
        else j.claimedAt.Some? ==> j.claimedAt.value < now - lease)
  }

  /** Claimed, not for a take-over, and within its lease. */
  predicate Occupies(j: Job, now: int, lease: int) {
    j.claimedBy.Some? && j.heldUntil.None? && j.claimedAt.Some? && now - lease <= j.claimedAt.value
  }

  predicate AsOld(rows: Rows, k: Id, i: Id)
    requires k in rows && i in rows
  {
    rows[k].createdAt < rows[i].createdAt || (rows[k].createdAt == rows[i].createdAt && k <= i)
  }

  /** The claims its unit occupies, and the jobs of its unit that may run and are no younger. */
  function Standing(rows: Rows, i: Id, t: Terms): nat
    requires i in rows
  {
    |set k | k in rows && rows[k].orgUnit == rows[i].orgUnit && Occupies(rows[k], t.now, t.lease)|
    + |set k | k in rows && rows[k].orgUnit == rows[i].orgUnit && MayRun(rows[k], t.now, t.lease, t.maxAttempts)
               && AsOld(rows, k, i)|
  }

  /** It may run, and stands within its unit's limit, if that has one. */
  predicate Eligible(rows: Rows, i: Id, t: Terms, limits: map<string, int>) {
    && i in rows && MayRun(rows[i], t.now, t.lease, t.maxAttempts)
    && (rows[i].orgUnit.Some? && rows[i].orgUnit.value in limits ==>
          Standing(rows, i, t) <= limits[rows[i].orgUnit.value])
  }

  /** Where units share, by standing first; then by age, then by id. */
  predicate Sooner(rows: Rows, k: Id, i: Id, t: Terms, shared: bool)
    requires k in rows && i in rows
  {
    || (shared && Standing(rows, k, t) < Standing(rows, i, t))
    || ((!shared || Standing(rows, k, t) == Standing(rows, i, t)) && k != i && AsOld(rows, k, i))
  }

  /** Eligible in the snapshot, still the same job, free, and by now still allowed to run. */
  predicate ToBeHad(snapshot: Rows, rows: Rows, locked: set<Id>, i: Id, t: Terms, limits: map<string, int>) {
    && Eligible(snapshot, i, t, limits) && i in rows && i !in locked
    && rows[i].createdAt == snapshot[i].createdAt && rows[i].orgUnit == snapshot[i].orgUnit
    && MayRun(rows[i], t.now, t.lease, t.maxAttempts)
  }

  // --- they are what a claim asks -----------------------------------------------------------------------------------

  lemma DueIs(j: Job, t: Terms)
    ensures Due(j, t) <==> MayRun(j, t.now, t.lease, t.maxAttempts)
    ensures Live(j, t) <==> Occupies(j, t.now, t.lease)
  {
  }

  lemma PlaceIs(rows: Rows, i: Id, t: Terms)
    requires i in rows
    ensures Place(rows, i, t) == Standing(rows, i, t)
  {
    var unit := rows[i].orgUnit;
    forall k | k in rows ensures (Due(rows[k], t) <==> MayRun(rows[k], t.now, t.lease, t.maxAttempts))
      && (Live(rows[k], t) <==> Occupies(rows[k], t.now, t.lease)) { DueIs(rows[k], t); }
    assert LiveIn(rows, unit, t) == set k | k in rows && rows[k].orgUnit == unit && Occupies(rows[k], t.now, t.lease);
    assert UpTo(rows, i, t) == set k | k in rows && rows[k].orgUnit == unit
      && MayRun(rows[k], t.now, t.lease, t.maxAttempts) && AsOld(rows, k, i);
  }

  lemma RankedIs(rows: Rows, i: Id, t: Terms, limits: map<string, int>)
    ensures i in Ranked(rows, t, limits) <==> Eligible(rows, i, t, limits)
  {
    if i in rows {
      DueIs(rows[i], t);
      PlaceIs(rows, i, t);
    }
  }

  lemma OpenIs(snapshot: Rows, rows: Rows, locked: set<Id>, i: Id, t: Terms, limits: map<string, int>)
    ensures i in Ranked(snapshot, t, limits) && i in Open(snapshot, rows, locked, t)
            <==> ToBeHad(snapshot, rows, locked, i, t, limits)
  {
    RankedIs(snapshot, i, t, limits);
    if i in rows { DueIs(rows[i], t); }
  }

  lemma SoonerIs(rows: Rows, k: Id, i: Id, t: Terms, shared: bool)
    requires k in rows && i in rows
    ensures Before(KeyOf(rows, t, shared, k), KeyOf(rows, t, shared, i)) <==> Sooner(rows, k, i, t, shared)
  {
    PlaceIs(rows, k, t);
    PlaceIs(rows, i, t);
  }

  // --- what a claim takes -------------------------------------------------------------------------------------------

  function Limits(limits: Option<map<string, int>>): map<string, int> { if limits.Some? then limits.value else map[] }

  function AllToBeHad(snapshot: Rows, rows: Rows, locked: set<Id>, t: Terms, limits: map<string, int>): set<Id> {
    set i | i in rows && ToBeHad(snapshot, rows, locked, i, t, limits)
  }

  function SoonerThan(snapshot: Rows, rows: Rows, locked: set<Id>, t: Terms, limits: Option<map<string, int>>,
          i: Id): set<Id>
    requires i in snapshot
  {
    set k | k in AllToBeHad(snapshot, rows, locked, t, Limits(limits)) && Sooner(snapshot, k, i, t, limits.Some?)
  }

  /** To be had, and within the batch. */
  predicate ToBeHadSoon(snapshot: Rows, rows: Rows, locked: set<Id>, t: Terms, batch: nat,
          limits: Option<map<string, int>>, i: Id) {
    && ToBeHad(snapshot, rows, locked, i, t, Limits(limits))
    && |SoonerThan(snapshot, rows, locked, t, limits, i)| < batch
  }

  /** A claim takes exactly the jobs to be had than which fewer to be had come sooner than its batch. */
  lemma TakenPlainly(snapshot: Rows, rows: Rows, locked: set<Id>, t: Terms, batch: nat,
          limits: Option<map<string, int>>, i: Id)
    ensures i in Taken(snapshot, rows, locked, t, batch, limits) <==>
              ToBeHadSoon(snapshot, rows, locked, t, batch, limits, i)
  {
    var r := Taken(snapshot, rows, locked, t, batch, limits);
    TakenExactly(snapshot, rows, locked, t, batch, limits);
    OpenIs(snapshot, rows, locked, i, t, Limits(limits));
    if ToBeHad(snapshot, rows, locked, i, t, Limits(limits)) {
      var sooner := SoonerThan(snapshot, rows, locked, t, limits, i);
      if i in r {
        forall k | k in sooner
          ensures k in Members(r) - {i}
        {
          SoonerIsTaken(snapshot, rows, locked, t, batch, limits, i, k);
        }
        SubsetCount(sooner, Members(r) - {i});
      } else {
        forall k | k in r ensures k in sooner { TakenIsSooner(snapshot, rows, locked, t, batch, limits, i, k); }
        SubsetCount(Members(r), sooner);
      }
    }
  }

  lemma SoonerIsTaken(snapshot: Rows, rows: Rows, locked: set<Id>, t: Terms, batch: nat,
          limits: Option<map<string, int>>, i: Id, k: Id)
    requires i in Taken(snapshot, rows, locked, t, batch, limits) && i in snapshot
    requires k in SoonerThan(snapshot, rows, locked, t, limits, i)
    ensures k != i && k in Taken(snapshot, rows, locked, t, batch, limits)
  {
    TakenExactly(snapshot, rows, locked, t, batch, limits);
    OpenIs(snapshot, rows, locked, k, t, Limits(limits));
    SoonerIs(snapshot, k, i, t, limits.Some?);
  }

  lemma TakenIsSooner(snapshot: Rows, rows: Rows, locked: set<Id>, t: Terms, batch: nat,
          limits: Option<map<string, int>>, i: Id, k: Id)
    requires ToBeHad(snapshot, rows, locked, i, t, Limits(limits)) &&
             i !in Taken(snapshot, rows, locked, t, batch, limits)
    requires k in Taken(snapshot, rows, locked, t, batch, limits)
    ensures k in SoonerThan(snapshot, rows, locked, t, limits, i)
  {
    TakenExactly(snapshot, rows, locked, t, batch, limits);
    OpenIs(snapshot, rows, locked, i, t, Limits(limits));
    OpenIs(snapshot, rows, locked, k, t, Limits(limits));
    SoonerIs(snapshot, k, i, t, limits.Some?);
  }

  /** Nothing locked, no limits, and a batch as large as the table: exactly the jobs whose fields allow it. */
  lemma UnlimitedPlainly(rows: Rows, t: Terms, batch: nat, i: Id)
    requires |rows| <= batch
    ensures i in Taken(rows, rows, {}, t, batch, None) <==>
              && i in rows && rows[i].availableAt <= t.now && rows[i].attempts - rows[i].deferrals < t.maxAttempts
              && (if rows[i].heldUntil.Some? then rows[i].heldUntil.value <= t.now
                  else rows[i].claimedAt.Some? ==> rows[i].claimedAt.value < t.now - t.lease)
  {
    TakenPlainly(rows, rows, {}, t, batch, None, i);
    if i in rows {
      assert i !in SoonerThan(rows, rows, {}, t, None, i);
      SubsetCount(SoonerThan(rows, rows, {}, t, None, i), rows.Keys - {i});
    }
  }

  // --- what has been passed to a take-over --------------------------------------------------------------------------

  /** A claim passed to a take-over, whatever anyone but its holder does before its time: a later claim without
      limits, on the rows as they are and with none locked, takes the job exactly from that time on, where it is
      available and has attempts left. */
  lemma PassedIsClaimable(q: Queue, tx: Tx, a: Action, steps: seq<(Tx, Action)>, w: Setting, now: int, batch: nat)
    requires a.Pass? && Reached(q, tx, a, w)
    requires forall n | 0 <= n < |steps| :: Outside(steps[n].1, a.id, a.holder, a.now + a.seconds)
    ensures var rows := Run(Do(q, tx, a, w), steps, w).rows;
            a.id in rows
            && (|rows| <= batch ==>
                  (a.id in Taken(rows, rows, {}, TermsAt(w, now), batch, None) <==>
                     && a.now + a.seconds <= now && rows[a.id].availableAt <= now
                     && rows[a.id].attempts - rows[a.id].deferrals < w.maxAttempts))
  {
    PassedClaimIsHeld(q, tx, a, steps, w);
    var rows := Run(Do(q, tx, a, w), steps, w).rows;
    if |rows| <= batch { UnlimitedPlainly(rows, TermsAt(w, now), batch, a.id); }
  }

  // --- what a claim writes ------------------------------------------------------------------------------------------

  /** Since when a job waits for its unit's quota once the claimant's own claims of this instant are cleared. */
  function WaitedSince(j: Job, claimant: string, now: int): Option<int> {
    if j.claimedBy == Some(claimant) && j.claimedAt == Some(now) then None else j.quotaHeldSince
  }

  /** Every row after a claim of five arguments with nothing in between: a job taken is its claimant's from now on,
      one attempt more, and waits no longer; of any other only the wait is written, from now on where it may run,
      does not wait yet, is not locked, and its unit then occupies its limit. */
  lemma WrittenPlainly(snapshot: Rows, rows: Rows, locked: set<Id>, busy: set<Id>, claimant: string, batch: nat,
          t: Terms, limits: map<string, int>, i: Id)
    requires t.lease >= 0 && i in rows
    ensures var r, after := Taken(snapshot, rows, locked, t, batch, Some(limits)),
                            ClaimFive(snapshot, rows, locked, busy, claimant, batch, t, limits);
            var j := rows[i];
            var since := WaitedSince(j, claimant, t.now);
            && after.Keys == rows.Keys
            && after[i] == if i in r
                           then j.(claimedAt := Some(t.now), claimedBy := Some(claimant), attempts := j.attempts + 1,
                                   heldUntil := None, quotaHeldSince := None)
                           else if since.None? && i !in busy && MayRun(j, t.now, t.lease, t.maxAttempts)
                                   && j.orgUnit.Some? && j.orgUnit.value in limits
                                   && |set k | k in after && after[k].orgUnit == j.orgUnit
                                              && Occupies(after[k], t.now, t.lease)| >= limits[j.orgUnit.value]
                           then j.(quotaHeldSince := Some(t.now))
                           else j.(quotaHeldSince := since)
  {
    var after := ClaimFive(snapshot, rows, locked, busy, claimant, batch, t, limits);
    QuotaWaits(snapshot, rows, locked, busy, claimant, batch, t, limits, i);
    ClearedIs(rows[i], claimant, t);
    SameUnit(snapshot, rows, locked, busy, claimant, batch, t, limits, i);
    AtLimitIs(after, i, t, limits);
  }

  lemma ClearedIs(j: Job, claimant: string, t: Terms)
    ensures Cleared(j, claimant, t) == j.(quotaHeldSince := WaitedSince(j, claimant, t.now))
    ensures Due(Cleared(j, claimant, t), t) <==> MayRun(j, t.now, t.lease, t.maxAttempts)
  {
    DueIs(Cleared(j, claimant, t), t);
  }

  lemma AtLimitIs(rows: Rows, i: Id, t: Terms, limits: map<string, int>)
    requires i in rows
    ensures AtLimit(rows, i, t, limits) <==>
              && rows[i].orgUnit.Some? && rows[i].orgUnit.value in limits
              && |set k | k in rows && rows[k].orgUnit == rows[i].orgUnit && Occupies(rows[k], t.now, t.lease)|
                 >= limits[rows[i].orgUnit.value]
  {
    forall k | k in rows ensures Live(rows[k], t) <==> Occupies(rows[k], t.now, t.lease) { DueIs(rows[k], t); }
    assert LiveIn(rows, rows[i].orgUnit, t)
        == set k | k in rows && rows[k].orgUnit == rows[i].orgUnit && Occupies(rows[k], t.now, t.lease);
  }

  lemma SameUnit(snapshot: Rows, rows: Rows, locked: set<Id>, busy: set<Id>, claimant: string, batch: nat, t: Terms,
          limits: map<string, int>, i: Id)
    requires i in rows
    ensures var after := ClaimFive(snapshot, rows, locked, busy, claimant, batch, t, limits);
            i in after && after[i].orgUnit == rows[i].orgUnit
  {
  }
}
