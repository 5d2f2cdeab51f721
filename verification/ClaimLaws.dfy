/** What one claim keeps: the units' limits, fair sharing, no job left that could run, and every wait
    for a quota booked. */
module ClaimLaws {
  import opened Text
  import opened Jobs

  lemma {:induction false} SubsetCount(a: set<Id>, b: set<Id>)
    requires a <= b
    ensures |a| <= |b|
    decreases a
  {
    if a != {} {
      var x :| x in a;
      SubsetCount(a - {x}, b - {x});
    }
  }

  function Max(a: int, b: int): int { if a < b then b else a }

  /** The last of some jobs, by age. */
  lemma {:induction false} LastExists(rows: Rows, s: set<Id>) returns (m: Id)
    requires s != {} && s <= rows.Keys
    ensures m in s && forall i | i in s :: Older(rows, i, m)
  {
    m :| m in s;
    var rest := s - {m};
    assert s == rest + {m};
    if rest != {} {
      var last := LastExists(rows, rest);
      if !Older(rows, last, m) { m := last; }
    }
  }

  /** The first of some jobs, by age. */
  lemma {:induction false} FirstOfExists(rows: Rows, s: set<Id>) returns (m: Id)
    requires s != {} && s <= rows.Keys
    ensures m in s && forall i | i in s :: Older(rows, m, i)
  {
    m :| m in s;
    var rest := s - {m};
    assert s == rest + {m};
    if rest != {} {
      var first := FirstOfExists(rows, rest);
      if !Older(rows, m, first) { m := first; }
    }
  }

  /** Jobs of one unit, due, the last of them at position `n`, are at most `n`. */
  lemma PositionsCount(rows: Rows, orgUnit: Option<string>, t: Terms, s: set<Id>)
    returns (last: Id)
    requires s != {} && s <= DueIn(rows, orgUnit, t)
    ensures last in s && |s| <= |UpTo(rows, last, t)|
  {
    last := LastExists(rows, s);
    SubsetCount(s, UpTo(rows, last, t));
  }

  // --- the limit ----------------------------------------------------------------------------------------------------

  function RankedIn(rows: Rows, t: Terms, limits: map<string, int>, orgUnit: Option<string>): set<Id> {
    set i | i in Ranked(rows, t, limits) && rows[i].orgUnit == orgUnit
  }

  /** A unit's jobs within its limit are no more than its free places. */
  lemma RankedCount(rows: Rows, t: Terms, limits: map<string, int>, u: string)
    requires u in limits
    ensures |RankedIn(rows, t, limits, Some(u))| <= Max(0, limits[u] - |LiveIn(rows, Some(u), t)|)
  {
    var s := RankedIn(rows, t, limits, Some(u));
    if s != {} {
      var last := PositionsCount(rows, Some(u), t, s);
      assert Place(rows, last, t) <= limits[u];
    }
  }

  /** A claim of one snapshot: its instant, its claimant, its batch, and the locks it meets. */
  datatype Call = Call(t: Terms, locked: set<Id>, busy: set<Id>, claimant: string, batch: nat)

  function ClaimAll(snapshot: Rows, rows: Rows, calls: seq<Call>, limits: map<string, int>): Rows
    decreases |calls|
  {
    if calls == [] then rows
    else
      var before := ClaimAll(snapshot, rows, calls[..|calls| - 1], limits);
      var c := calls[|calls| - 1];
      ClaimFive(snapshot, before, c.locked, c.busy, c.claimant, c.batch, c.t, limits)
  }

  /** At both instants the unit has the same jobs due and the same claims live. */
  predicate SameView(rows: Rows, orgUnit: Option<string>, t: Terms, other: Terms) {
    DueIn(rows, orgUnit, t) == DueIn(rows, orgUnit, other) && LiveIn(rows, orgUnit, t) == LiveIn(rows, orgUnit, other)
  }

  lemma SameRanked(rows: Rows, t: Terms, other: Terms, limits: map<string, int>, orgUnit: Option<string>)
    requires SameView(rows, orgUnit, t, other)
    ensures RankedIn(rows, t, limits, orgUnit) == RankedIn(rows, other, limits, orgUnit)
  {
    forall i | i in rows && rows[i].orgUnit == orgUnit
      ensures Due(rows[i], t) <==> Due(rows[i], other)
      ensures UpTo(rows, i, t) == UpTo(rows, i, other)
    {
      assert i in DueIn(rows, orgUnit, t) <==> i in DueIn(rows, orgUnit, other);
    }
  }

  /** A claim adds to a unit's live claims, seen at any instant, only jobs that were ranked for it. */
  lemma LiveAfterPick(snapshot: Rows, rows: Rows, locked: set<Id>, claimant: string, batch: nat, t: Terms, later: Terms,
          limits: map<string, int>, orgUnit: Option<string>)
    ensures LiveIn(Take(rows, Taken(snapshot, rows, locked, t, batch, Some(limits)), claimant, t), orgUnit, later)
            <= LiveIn(rows, orgUnit, later) + RankedIn(snapshot, t, limits, orgUnit)
  {
    TakenExactly(snapshot, rows, locked, t, batch, Some(limits));
  }

  lemma LiveAfterClaim(snapshot: Rows, rows: Rows, c: Call, later: Terms, limits: map<string, int>,
          orgUnit: Option<string>)
    ensures LiveIn(ClaimFive(snapshot, rows, c.locked, c.busy, c.claimant, c.batch, c.t, limits), orgUnit, later)
            <= LiveIn(rows, orgUnit, later) + RankedIn(snapshot, c.t, limits, orgUnit)
  {
    LiveAfterPick(snapshot, rows, c.locked, c.claimant, c.batch, c.t, later, limits, orgUnit);
  }

  lemma {:induction false} LiveAfterClaims(snapshot: Rows, rows: Rows, calls: seq<Call>, t: Terms, later: Terms,
          limits: map<string, int>, orgUnit: Option<string>)
    requires forall c | c in calls :: SameView(snapshot, orgUnit, c.t, t)
    ensures LiveIn(ClaimAll(snapshot, rows, calls, limits), orgUnit, later)
            <= LiveIn(rows, orgUnit, later) + RankedIn(snapshot, t, limits, orgUnit)
    decreases |calls|
  {
    if calls != [] {
      var fewer, c := calls[..|calls| - 1], calls[|calls| - 1];
      LiveAfterClaims(snapshot, rows, fewer, t, later, limits, orgUnit);
      LiveAfterClaim(snapshot, ClaimAll(snapshot, rows, fewer, limits), c, later, limits, orgUnit);
      SameRanked(snapshot, c.t, t, limits, orgUnit);
    }
  }

  lemma SumCount(a: set<Id>, b: set<Id>)
    ensures |a + b| <= |a| + |b|
  {
    assert |a + b| == |a| + |b| - |a * b|;
  }

  /** However many claims rank from one snapshot, at instants between which no job of the unit comes
      due or is freed in it, together they take a limited unit no further than its limit, or than what
      it held. */
  lemma UnitLimitKept(snapshot: Rows, rows: Rows, calls: seq<Call>, t: Terms, later: Terms, limits: map<string, int>,
          u: string)
    requires u in limits && LiveIn(rows, Some(u), later) <= LiveIn(snapshot, Some(u), t)
    requires forall c | c in calls :: SameView(snapshot, Some(u), c.t, t)
    ensures |LiveIn(ClaimAll(snapshot, rows, calls, limits), Some(u), later)|
            <= Max(limits[u], |LiveIn(snapshot, Some(u), t)|)
  {
    var live, ranked := LiveIn(snapshot, Some(u), t), RankedIn(snapshot, t, limits, Some(u));
    LiveAfterClaims(snapshot, rows, calls, t, later, limits, Some(u));
    SubsetCount(LiveIn(ClaimAll(snapshot, rows, calls, limits), Some(u), later), live + ranked);
    SumCount(live, ranked);
    RankedCount(snapshot, t, limits, u);
  }

  /** One claim whose snapshot shows no less of the unit than the rows hold: whenever one looks from
      then on, the unit holds no more than its limit, or than it held. */
  lemma ClaimKeepsLimit(snapshot: Rows, rows: Rows, locked: set<Id>, claimant: string, batch: nat, t: Terms,
          later: Terms, limits: map<string, int>, u: string)
    requires u in limits && t.lease == later.lease && t.now <= later.now
    requires |LiveIn(rows, Some(u), t)| <= |LiveIn(snapshot, Some(u), t)|
    ensures |LiveIn(Take(rows, Taken(snapshot, rows, locked, t, batch, Some(limits)), claimant, t), Some(u), later)|
            <= Max(limits[u], |LiveIn(rows, Some(u), later)|)
  {
    var live, ranked := LiveIn(rows, Some(u), later), RankedIn(snapshot, t, limits, Some(u));
    var after := Take(rows, Taken(snapshot, rows, locked, t, batch, Some(limits)), claimant, t);
    LiveAfterPick(snapshot, rows, locked, claimant, batch, t, later, limits, Some(u));
    SubsetCount(LiveIn(after, Some(u), later), live + ranked);
    SumCount(live, ranked);
    SubsetCount(live, LiveIn(rows, Some(u), t));
    RankedCount(snapshot, t, limits, u);
  }

  // --- exactly when -------------------------------------------------------------------------------------------------

  /** The unit's jobs within its limit at any of these instants. */
  function RankedEver(snapshot: Rows, instants: seq<Terms>, limits: map<string, int>,
          orgUnit: Option<string>): set<Id> {
    set k, i | 0 <= k < |instants| && i in RankedIn(snapshot, instants[k], limits, orgUnit) :: i
  }

  function Instants(calls: seq<Call>): seq<Terms> { seq(|calls|, k requires 0 <= k < |calls| => calls[k].t) }

  lemma EverLonger(snapshot: Rows, calls: seq<Call>, limits: map<string, int>, orgUnit: Option<string>)
    requires calls != []
    ensures var fewer, c := calls[..|calls| - 1], calls[|calls| - 1];
            RankedEver(snapshot, Instants(calls), limits, orgUnit)
            == RankedEver(snapshot, Instants(fewer), limits, orgUnit) + RankedIn(snapshot, c.t, limits, orgUnit)
  {
    var fewer := calls[..|calls| - 1];
    assert Instants(calls)[..|calls| - 1] == Instants(fewer) && Instants(calls)[|calls| - 1] == calls[|calls| - 1].t;
    forall k, i | 0 <= k < |calls| && i in RankedIn(snapshot, Instants(calls)[k], limits, orgUnit)
      ensures i in RankedEver(snapshot, Instants(fewer), limits, orgUnit)
              + RankedIn(snapshot, calls[|calls| - 1].t, limits, orgUnit)
    {
      if k < |calls| - 1 { assert Instants(fewer)[k] == Instants(calls)[k]; }
    }
    forall i | i in RankedEver(snapshot, Instants(fewer), limits, orgUnit)
      ensures i in RankedEver(snapshot, Instants(calls), limits, orgUnit)
    {
      var k: nat :| k < |fewer| && i in RankedIn(snapshot, Instants(fewer)[k], limits, orgUnit);
      assert Instants(calls)[k] == Instants(fewer)[k];
    }
  }

  /** Whatever their batches and locks, claims add to a unit only jobs ranked at one of their instants. */
  lemma {:induction false} LiveAfterAny(snapshot: Rows, calls: seq<Call>, later: Terms, limits: map<string, int>,
          orgUnit: Option<string>)
    ensures LiveIn(ClaimAll(snapshot, snapshot, calls, limits), orgUnit, later)
            <= LiveIn(snapshot, orgUnit, later) + RankedEver(snapshot, Instants(calls), limits, orgUnit)
    decreases |calls|
  {
    if calls != [] {
      var fewer, c := calls[..|calls| - 1], calls[|calls| - 1];
      LiveAfterAny(snapshot, fewer, later, limits, orgUnit);
      LiveAfterClaim(snapshot, ClaimAll(snapshot, snapshot, fewer, limits), c, later, limits, orgUnit);
      EverLonger(snapshot, calls, limits, orgUnit);
    }
  }

  /** A claim with a batch above all that is ranked, and with nothing locked. */
  predicate Full(snapshot: Rows, c: Call, limits: map<string, int>) {
    c.locked == {} && c.busy == {} && |Ranked(snapshot, c.t, limits)| < c.batch
  }

  /** At `later`, what was claimed at this instant is live. */
  predicate Recent(t: Terms, later: Terms) { t.lease == later.lease && t.now <= later.now <= t.now + t.lease }

  /** The row is as it was, but for its wait, or is a claim live at `later`. */
  predicate KeptOrLive(was: Job, now: Job, later: Terms) {
    SameJob(was, now) && (Live(now, later) || was == now.(quotaHeldSince := was.quotaHeldSince))
  }

  ghost predicate AllKeptOrLive(snapshot: Rows, rows: Rows, later: Terms) {
    rows.Keys == snapshot.Keys && forall i | i in rows :: KeptOrLive(snapshot[i], rows[i], later)
  }

  lemma ClaimKeepsOrLives(snapshot: Rows, rows: Rows, c: Call, later: Terms, limits: map<string, int>)
    requires AllKeptOrLive(snapshot, rows, later) && Recent(c.t, later)
    ensures AllKeptOrLive(snapshot, ClaimFive(snapshot, rows, c.locked, c.busy, c.claimant, c.batch, c.t, limits),
            later)
  {
    var r := Taken(snapshot, rows, c.locked, c.t, c.batch, Some(limits));
    var taken := Take(rows, r, c.claimant, c.t);
    assert AllKeptOrLive(snapshot, taken, later);
    assert AllKeptOrLive(snapshot, NotWaiting(taken, c.claimant, c.t), later);
  }

  /** A full claim takes every job it ranked that is not live already. */
  lemma FullClaimTakes(snapshot: Rows, rows: Rows, c: Call, later: Terms, limits: map<string, int>, i: Id)
    requires AllKeptOrLive(snapshot, rows, later) && Recent(c.t, later) && Full(snapshot, c, limits)
    requires i in Ranked(snapshot, c.t, limits)
    ensures i in rows && (Live(rows[i], later) || i in Taken(snapshot, rows, c.locked, c.t, c.batch, Some(limits)))
  {
    var r := Taken(snapshot, rows, c.locked, c.t, c.batch, Some(limits));
    TakenExactly(snapshot, rows, c.locked, c.t, c.batch, Some(limits));
    SubsetCount(Members(r), Ranked(snapshot, c.t, limits));
    assert KeptOrLive(snapshot[i], rows[i], later);
    if !Live(rows[i], later) { assert i in Open(snapshot, rows, c.locked, c.t); }
  }

  /** What was taken, and what was live before, is live. */
  lemma TakenLives(rows: Rows, r: seq<Id>, claimant: string, t: Terms, later: Terms, orgUnit: Option<string>, i: Id)
    requires Recent(t, later) && i in rows && rows[i].orgUnit == orgUnit && (Live(rows[i], later) || i in r)
    ensures i in LiveIn(Take(rows, r, claimant, t), orgUnit, later)
  {
  }

  /** A full claim leaves live all that was and all that it ranked. */
  lemma FullClaimLives(snapshot: Rows, rows: Rows, c: Call, later: Terms, limits: map<string, int>,
          orgUnit: Option<string>)
    requires AllKeptOrLive(snapshot, rows, later) && Recent(c.t, later) && Full(snapshot, c, limits)
    ensures LiveIn(rows, orgUnit, later) + RankedIn(snapshot, c.t, limits, orgUnit)
            <= LiveIn(ClaimFive(snapshot, rows, c.locked, c.busy, c.claimant, c.batch, c.t, limits), orgUnit, later)
  {
    var r := Taken(snapshot, rows, c.locked, c.t, c.batch, Some(limits));
    forall i | i in LiveIn(rows, orgUnit, later) + RankedIn(snapshot, c.t, limits, orgUnit)
      ensures i in LiveIn(Take(rows, r, c.claimant, c.t), orgUnit, later)
    {
      if i in RankedIn(snapshot, c.t, limits, orgUnit) {
        FullClaimTakes(snapshot, rows, c, later, limits, i);
        assert KeptOrLive(snapshot[i], rows[i], later);
      }
      TakenLives(rows, r, c.claimant, c.t, later, orgUnit, i);
    }
    LiveBookings(Take(rows, r, c.claimant, c.t), c.claimant, c.busy, c.t, limits, orgUnit, later);
  }

  /** Clearing and booking waits changes nothing that is live. */
  lemma LiveBookings(rows: Rows, claimant: string, busy: set<Id>, t: Terms, limits: map<string, int>,
          orgUnit: Option<string>, later: Terms)
    ensures LiveIn(Waiting(NotWaiting(rows, claimant, t), busy, t, limits), orgUnit, later)
            == LiveIn(rows, orgUnit, later)
  {
  }

  lemma {:induction false} FullClaimsLive(snapshot: Rows, calls: seq<Call>, later: Terms, limits: map<string, int>,
          orgUnit: Option<string>)
    requires forall c | c in calls :: Full(snapshot, c, limits) && Recent(c.t, later)
    ensures AllKeptOrLive(snapshot, ClaimAll(snapshot, snapshot, calls, limits), later)
    ensures LiveIn(snapshot, orgUnit, later) + RankedEver(snapshot, Instants(calls), limits, orgUnit)
            <= LiveIn(ClaimAll(snapshot, snapshot, calls, limits), orgUnit, later)
    decreases |calls|
  {
    if calls != [] {
      var fewer, c := calls[..|calls| - 1], calls[|calls| - 1];
      var before := ClaimAll(snapshot, snapshot, fewer, limits);
      FullClaimsLive(snapshot, fewer, later, limits, orgUnit);
      ClaimKeepsOrLives(snapshot, before, c, later, limits);
      FullClaimLives(snapshot, before, c, later, limits, orgUnit);
      EverLonger(snapshot, calls, limits, orgUnit);
    }
  }

  /** Full claims at these instants. */
  function FullCalls(snapshot: Rows, instants: seq<Terms>, limits: map<string, int>): seq<Call> {
    seq(|instants|, k requires 0 <= k < |instants| =>
      Call(instants[k], {}, {}, "", |Ranked(snapshot, instants[k], limits)| + 1))
  }

  /** Claims that rank from one snapshot at these instants keep a unit within a bound, whatever their batches,
      claimants and locks, exactly where its live claims and the jobs ranked for it at any of the instants
      are within the bound together. */
  lemma OneSnapshotExactly(snapshot: Rows, instants: seq<Terms>, later: Terms, limits: map<string, int>, u: string,
          bound: int)
    requires forall t | t in instants :: Recent(t, later)
    ensures (forall calls | Instants(calls) == instants ::
               |LiveIn(ClaimAll(snapshot, snapshot, calls, limits), Some(u), later)| <= bound)
            <==> |LiveIn(snapshot, Some(u), later) + RankedEver(snapshot, instants, limits, Some(u))| <= bound
  {
    var most := LiveIn(snapshot, Some(u), later) + RankedEver(snapshot, instants, limits, Some(u));
    forall calls | Instants(calls) == instants
      ensures |LiveIn(ClaimAll(snapshot, snapshot, calls, limits), Some(u), later)| <= |most|
    {
      LiveAfterAny(snapshot, calls, later, limits, Some(u));
      SubsetCount(LiveIn(ClaimAll(snapshot, snapshot, calls, limits), Some(u), later), most);
    }
    var full := FullCalls(snapshot, instants, limits);
    assert Instants(full) == instants;
    FullClaimsLive(snapshot, full, later, limits, Some(u));
    SubsetCount(most, LiveIn(ClaimAll(snapshot, snapshot, full, limits), Some(u), later));
  }

  // --- two instants, one snapshot -----------------------------------------------------------------------------------

  function Unclaimed(createdAt: int, orgUnit: string, availableAt: int): Job {
    Job(createdAt, Some(orgUnit), availableAt, 0, 0, None, None, None, None, None)
  }

  /** The one job of a claim that has one to take and may take one. */
  lemma TakesOnly(snapshot: Rows, rows: Rows, t: Terms, limits: map<string, int>, i: Id)
    requires Ranked(snapshot, t, limits) == {i} && i in Open(snapshot, rows, {}, t)
    ensures Taken(snapshot, rows, {}, t, 1, Some(limits)) == [i]
  {
    TakenExactly(snapshot, rows, {}, t, 1, Some(limits));
    var r := Taken(snapshot, rows, {}, t, 1, Some(limits));
    assert |r| == 1;
    assert r[0] in r;
  }

  /** Two jobs of one unit, the older of them available at 20 only. */
  function TwoJobs(u: string): Rows { map[0 := Unclaimed(5, u, 20), 1 := Unclaimed(10, u, 10)] }

  lemma EarlyPlaces(u: string)
    ensures var t := Terms(15, 60, 3); Ranked(TwoJobs(u), t, map[u := 1]) == {1} && LiveIn(TwoJobs(u), Some(u), t) == {}
  {
    var rows, t := TwoJobs(u), Terms(15, 60, 3);
    assert UpTo(rows, 1, t) == {1};
    assert Place(rows, 1, t) == 1;
  }

  lemma LatePlaces(u: string)
    ensures var t := Terms(25, 60, 3); Ranked(TwoJobs(u), t, map[u := 1]) == {0} && LiveIn(TwoJobs(u), Some(u), t) == {}
  {
    var rows, t := TwoJobs(u), Terms(25, 60, 3);
    assert UpTo(rows, 0, t) == {0} && UpTo(rows, 1, t) == {0, 1};
    assert Place(rows, 0, t) == 1 && Place(rows, 1, t) == 2;
  }

  /** The younger job is claimed, at 15; the older is as it was. */
  predicate YoungerClaimed(u: string, rows: Rows, first: string) {
    rows.Keys == {0, 1} && rows[0] == TwoJobs(u)[0]
    && rows[1] == TwoJobs(u)[1].(claimedAt := Some(15), claimedBy := Some(first), attempts := 1)
  }

  lemma EarlyClaim(u: string, first: string)
    ensures YoungerClaimed(u, ClaimFive(TwoJobs(u), TwoJobs(u), {}, {}, first, 1, Terms(15, 60, 3), map[u := 1]), first)
  {
    EarlyPlaces(u);
    TakesOnly(TwoJobs(u), TwoJobs(u), Terms(15, 60, 3), map[u := 1], 1);
  }

  lemma LateClaim(u: string, rows: Rows, first: string, second: string)
    requires YoungerClaimed(u, rows, first)
    ensures var t := Terms(25, 60, 3);
            LiveIn(ClaimFive(TwoJobs(u), rows, {}, {}, second, 1, t, map[u := 1]), Some(u), t) == {0, 1}
  {
    var t := Terms(25, 60, 3);
    LatePlaces(u);
    TakesOnly(TwoJobs(u), rows, t, map[u := 1], 0);
    var taken := Take(rows, [0], second, t);
    assert Live(taken[0], t) && Live(taken[1], t);
  }

  lemma ClaimTwo(rows: Rows, c: Call, d: Call, limits: map<string, int>)
    ensures ClaimAll(rows, rows, [c, d], limits)
            == ClaimFive(rows, ClaimFive(rows, rows, c.locked, c.busy, c.claimant, c.batch, c.t, limits),
                         d.locked, d.busy, d.claimant, d.batch, d.t, limits)
  {
    assert [c, d][..1] == [c] && [c][..0] == [];
    assert ClaimAll(rows, rows, [], limits) == rows;
  }

  /** The claim at 15 takes the younger job, the claim at 25, ranked from the same snapshot, the older:
      two claims under a limit of one. */
  lemma TwoInstantsExceed(u: string, first: string, second: string)
    ensures var early, late := Terms(15, 60, 3), Terms(25, 60, 3);
            var calls := [Call(early, {}, {}, first, 1), Call(late, {}, {}, second, 1)];
            && LiveIn(TwoJobs(u), Some(u), early) == LiveIn(TwoJobs(u), Some(u), late) == {}
            && LiveIn(ClaimAll(TwoJobs(u), TwoJobs(u), calls, map[u := 1]), Some(u), late) == {0, 1}
  {
    var rows, early, late, limits := TwoJobs(u), Terms(15, 60, 3), Terms(25, 60, 3), map[u := 1];
    var calls := [Call(early, {}, {}, first, 1), Call(late, {}, {}, second, 1)];
    assert LiveIn(rows, Some(u), early) == LiveIn(rows, Some(u), late) == {};
    EarlyClaim(u, first);
    LateClaim(u, ClaimFive(rows, rows, {}, {}, first, 1, early, limits), first, second);
    ClaimTwo(rows, calls[0], calls[1], limits);
  }

  // --- sharing ------------------------------------------------------------------------------------------------------

  /** A claim on the rows it ranked, none of them locked by another. */
  function Claim(rows: Rows, claimant: string, batch: nat, t: Terms, limits: map<string, int>): Rows {
    ClaimFive(rows, rows, {}, {}, claimant, batch, t, limits)
  }

  function Got(rows: Rows, batch: nat, t: Terms, limits: map<string, int>): seq<Id> {
    Taken(rows, rows, {}, t, batch, Some(limits))
  }

  function GotIn(rows: Rows, batch: nat, t: Terms, limits: map<string, int>, orgUnit: Option<string>): set<Id> {
    set i | i in Got(rows, batch, t, limits) && i in rows && rows[i].orgUnit == orgUnit
  }

  /** Taking due jobs of a unit adds them to its live claims: none of them was one. */
  lemma LiveAfterTake(rows: Rows, picked: seq<Id>, claimant: string, t: Terms, orgUnit: Option<string>, got: set<Id>)
    requires t.lease >= 0 && forall i | i in picked :: i in rows && Due(rows[i], t)
    requires got == set i | i in picked && i in rows && rows[i].orgUnit == orgUnit
    ensures LiveIn(rows, orgUnit, t) !! got
    ensures LiveIn(Take(rows, picked, claimant, t), orgUnit, t) == LiveIn(rows, orgUnit, t) + got
  {
    forall i | i in picked ensures !Live(rows[i], t) && Live(Claimed(rows[i], claimant, t), t) {}
  }

  lemma SameLive(rows: Rows, claimant: string, busy: set<Id>, t: Terms, limits: map<string, int>,
          orgUnit: Option<string>)
    ensures LiveIn(Waiting(rows, busy, t, limits), orgUnit, t) == LiveIn(rows, orgUnit, t)
    ensures LiveIn(NotWaiting(rows, claimant, t), orgUnit, t) == LiveIn(rows, orgUnit, t)
  {
  }

  /** What a unit holds after a claim is what it held and what it got. */
  lemma HeldAfter(rows: Rows, claimant: string, batch: nat, t: Terms, limits: map<string, int>, orgUnit: Option<string>)
    requires t.lease >= 0
    ensures |LiveIn(Claim(rows, claimant, batch, t, limits), orgUnit, t)|
            == |LiveIn(rows, orgUnit, t)| + |GotIn(rows, batch, t, limits, orgUnit)|
  {
    TakenExactly(rows, rows, {}, t, batch, Some(limits));
    var picked := Got(rows, batch, t, limits);
    var taken := Take(rows, picked, claimant, t);
    LiveAfterTake(rows, picked, claimant, t, orgUnit, GotIn(rows, batch, t, limits, orgUnit));
    SameLive(taken, claimant, {}, t, limits, orgUnit);
    SameLive(NotWaiting(taken, claimant, t), claimant, {}, t, limits, orgUnit);
  }

  /** The last job a unit got stands no earlier than what the unit now holds. */
  lemma LastGot(rows: Rows, claimant: string, batch: nat, t: Terms, limits: map<string, int>, orgUnit: Option<string>)
    returns (last: Id)
    requires t.lease >= 0 && GotIn(rows, batch, t, limits, orgUnit) != {}
    ensures last in GotIn(rows, batch, t, limits, orgUnit)
    ensures |LiveIn(Claim(rows, claimant, batch, t, limits), orgUnit, t)| <= Place(rows, last, t)
  {
    TakenExactly(rows, rows, {}, t, batch, Some(limits));
    HeldAfter(rows, claimant, batch, t, limits, orgUnit);
    last := PositionsCount(rows, orgUnit, t, GotIn(rows, batch, t, limits, orgUnit));
  }

  /** The first job a unit did not get stands at most one past what the unit now holds. */
  lemma FirstLeft(rows: Rows, claimant: string, batch: nat, t: Terms, limits: map<string, int>, k: Id)
    returns (first: Id)
    requires t.lease >= 0 && k in rows && Due(rows[k], t) && k !in Got(rows, batch, t, limits)
    ensures first in rows && rows[first].orgUnit == rows[k].orgUnit && Due(rows[first], t) &&
            first !in Got(rows, batch, t, limits)
    ensures Place(rows, first, t) <= Place(rows, k, t)
    ensures Place(rows, first, t) <= |LiveIn(Claim(rows, claimant, batch, t, limits), rows[k].orgUnit, t)| + 1
  {
    var orgUnit := rows[k].orgUnit;
    var got := Got(rows, batch, t, limits);
    first := FirstOfExists(rows, set i | i in DueIn(rows, orgUnit, t) && i !in got);
    forall i | i in UpTo(rows, first, t)
      ensures i in UpTo(rows, k, t) && (i == first || i in GotIn(rows, batch, t, limits, orgUnit))
    {
      assert Older(rows, i, first) && Older(rows, first, k);
      if i !in got { assert Older(rows, first, i); }
    }
    SubsetCount(UpTo(rows, first, t), UpTo(rows, k, t));
    var gotIn := GotIn(rows, batch, t, limits, orgUnit);
    SubsetCount(UpTo(rows, first, t), gotIn + {first});
    SumCount(gotIn, {first});
    HeldAfter(rows, claimant, batch, t, limits, orgUnit);
  }

  /** A unit that got a job holds at most one more than any unit left with a job within its limit. */
  lemma FairShare(rows: Rows, claimant: string, batch: nat, t: Terms, limits: map<string, int>, i: Id, k: Id)
    requires t.lease >= 0 && i in Got(rows, batch, t, limits)
    requires k in Ranked(rows, t, limits) && k !in Got(rows, batch, t, limits)
    ensures i in rows
    ensures |LiveIn(Claim(rows, claimant, batch, t, limits), rows[i].orgUnit, t)|
            <= |LiveIn(Claim(rows, claimant, batch, t, limits), rows[k].orgUnit, t)| + 1
  {
    TakenExactly(rows, rows, {}, t, batch, Some(limits));
    assert i in GotIn(rows, batch, t, limits, rows[i].orgUnit);
    var last := LastGot(rows, claimant, batch, t, limits, rows[i].orgUnit);
    var first := FirstLeft(rows, claimant, batch, t, limits, k);
    assert first in Ranked(rows, t, limits) && first in Open(rows, rows, {}, t);
    assert Before(Jobs.KeyOf(rows, t, true, last), Jobs.KeyOf(rows, t, true, first));
  }

  /** A claim that does not fill its batch leaves only jobs whose units now hold their limit. */
  lemma NothingLeftToRun(rows: Rows, claimant: string, batch: nat, t: Terms, limits: map<string, int>, k: Id)
    requires t.lease >= 0 && |Got(rows, batch, t, limits)| < batch
    requires k in rows && Due(rows[k], t) && k !in Got(rows, batch, t, limits)
    ensures rows[k].orgUnit.Some? && rows[k].orgUnit.value in limits
    ensures |LiveIn(Claim(rows, claimant, batch, t, limits), rows[k].orgUnit, t)| >= limits[rows[k].orgUnit.value]
  {
    TakenExactly(rows, rows, {}, t, batch, Some(limits));
    var first := FirstLeft(rows, claimant, batch, t, limits, k);
    assert forall i | i in rows && Due(rows[i], t) :: i in Open(rows, rows, {}, t);
    assert first !in Ranked(rows, t, limits);
  }

  // --- waits for a quota --------------------------------------------------------------------------------------------

  /** The job was claimed by this claimant at this instant, before this claim. */
  predicate JustClaimed(j: Job, claimant: string, t: Terms) {
    j.claimedBy == Some(claimant) && j.claimedAt == Some(t.now)
  }

  /** The row once the second update has cleared the waits of what the claimant claimed now. */
  function Cleared(j: Job, claimant: string, t: Terms): Job {
    if JustClaimed(j, claimant, t) then j.(quotaHeldSince := None) else j
  }

  /** The row of every job after a claim whose last statement finds the rows `busy` locked: a job taken
      waits no more; any other, cleared where its claimant had claimed it at this instant before, waits
      for its unit's quota exactly where it waited, or is due and not locked and its unit holds its limit,
      since when it was said, and else is as it was. */
  lemma QuotaWaits(snapshot: Rows, rows: Rows, locked: set<Id>, busy: set<Id>, claimant: string, batch: nat, t: Terms,
          limits: map<string, int>, i: Id)
    requires t.lease >= 0 && i in rows
    ensures var r, after := Taken(snapshot, rows, locked, t, batch, Some(limits)),
                            ClaimFive(snapshot, rows, locked, busy, claimant, batch, t, limits);
            var j := Cleared(rows[i], claimant, t);
            && after.Keys == rows.Keys
            && after[i] == if i in r then Claimed(rows[i], claimant, t).(quotaHeldSince := None)
                           else if Due(j, t) && AtLimit(after, i, t, limits) && j.quotaHeldSince.None? && i !in busy
                           then j.(quotaHeldSince := Some(t.now)) else j
  {
    TakenExactly(snapshot, rows, locked, t, batch, Some(limits));
    var r := Taken(snapshot, rows, locked, t, batch, Some(limits));
    var taken := NotWaiting(Take(rows, r, claimant, t), claimant, t);
    var after := Waiting(taken, busy, t, limits);
    SameLive(taken, claimant, busy, t, limits, rows[i].orgUnit);
    assert after[i].orgUnit == taken[i].orgUnit == rows[i].orgUnit;
  }

  /** After a claim that does not fill its batch and finds no row locked, every due job left waits
      for its unit's quota, since now or since before. */
  lemma EveryWaitBooked(rows: Rows, claimant: string, batch: nat, t: Terms, limits: map<string, int>, k: Id)
    requires t.lease >= 0 && |Got(rows, batch, t, limits)| < batch
    requires k in rows && Due(rows[k], t) && k !in Got(rows, batch, t, limits)
    ensures k in Claim(rows, claimant, batch, t, limits)
    ensures var j := Cleared(rows[k], claimant, t);
            Claim(rows, claimant, batch, t, limits)[k].quotaHeldSince
            == if j.quotaHeldSince.Some? then j.quotaHeldSince else Some(t.now)
  {
    NothingLeftToRun(rows, claimant, batch, t, limits, k);
    QuotaWaits(rows, rows, {}, {}, claimant, batch, t, limits, k);
  }
}
