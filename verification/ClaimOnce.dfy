/** The claim before its pick was executed exactly once: the inner query run again for every row. */
module ClaimOnce {
  import opened Text
  import opened Jobs
  import opened ClaimLaws

  /** The claim with its inner query executed for each scanned row: each execution skips the rows the
      statement has updated, and the row is updated where the execution returns it. */
  function PerRow(rows: Rows, scan: seq<Id>, done: set<Id>, batch: nat, t: Terms): set<Id>
    decreases |scan|
  {
    if scan == [] then done
    else
      var inner := Once(rows, done, batch, t);
      PerRow(rows, scan[1..], if scan[0] in inner then done + {scan[0]} else done, batch, t)
  }

  /** The pick executed once. */
  function Once(rows: Rows, done: set<Id>, batch: nat, t: Terms): set<Id> {
    Members(Taken(rows, rows, done, t, batch, None))
  }

  function DueSet(rows: Rows, t: Terms): set<Id> { set i | i in rows && Due(rows[i], t) }

  /** Every due job is scanned. */
  predicate Covers(rows: Rows, t: Terms, scan: seq<Id>) { DueSet(rows, t) <= Members(scan) }

  /** What the pick takes, said without its order: due jobs not skipped, as many as the batch where any
      is left, and those all after it. */
  lemma OnceExactly(rows: Rows, done: set<Id>, batch: nat, t: Terms)
    ensures Once(rows, done, batch, t) <= DueSet(rows, t) - done && |Once(rows, done, batch, t)| <= batch
    ensures forall i | i in DueSet(rows, t) - done && i !in Once(rows, done, batch, t) ::
              && |Once(rows, done, batch, t)| == batch
              && forall p | p in Once(rows, done, batch, t) ::
                Before(KeyOf(rows, t, false, p), KeyOf(rows, t, false, i))
  {
    TakenExactly(rows, rows, done, t, batch, None);
    forall i | i in DueSet(rows, t) - done ensures i in Ranked(rows, t, map[]) && i in Open(rows, rows, done, t) {}
  }

  lemma OnceIsFirst(rows: Rows, batch: nat, t: Terms, i: Id, p: Id)
    requires i in Once(rows, {}, batch, t) && p in DueSet(rows, t)
    requires Before(KeyOf(rows, t, false, p), KeyOf(rows, t, false, i))
    ensures p in Once(rows, {}, batch, t)
  {
    OnceExactly(rows, {}, batch, t);
  }

  /** A job the pick takes, it takes too when others are skipped. */
  lemma SkippingHelps(rows: Rows, done: set<Id>, batch: nat, t: Terms, i: Id)
    requires i in Once(rows, {}, batch, t) && i !in done
    ensures i in Once(rows, done, batch, t)
  {
    OnceExactly(rows, {}, batch, t);
    OnceExactly(rows, done, batch, t);
    var all, rest := Once(rows, {}, batch, t), Once(rows, done, batch, t);
    if i !in rest {
      forall p | p in rest ensures p in all { OnceIsFirst(rows, batch, t, i, p); }
      SubsetCount(rest + {i}, all);
    }
  }

  /** Scanned in any order, the claim run for every row takes all that the claim run once takes. */
  lemma {:induction false} PerRowTakesOnce(rows: Rows, scan: seq<Id>, done: set<Id>, batch: nat, t: Terms, i: Id)
    requires i in done || (i in scan && i in Once(rows, {}, batch, t))
    ensures i in PerRow(rows, scan, done, batch, t)
    decreases |scan|
  {
    if scan != [] {
      var inner := Once(rows, done, batch, t);
      if i == scan[0] && i !in done { SkippingHelps(rows, done, batch, t, i); }
      PerRowTakesOnce(rows, scan[1..], if scan[0] in inner then done + {scan[0]} else done, batch, t, i);
    }
  }

  lemma {:induction false} PerRowTakesDue(rows: Rows, scan: seq<Id>, done: set<Id>, batch: nat, t: Terms)
    requires done <= DueSet(rows, t)
    ensures PerRow(rows, scan, done, batch, t) <= DueSet(rows, t)
    decreases |scan|
  {
    if scan != [] {
      var inner := Once(rows, done, batch, t);
      OnceExactly(rows, done, batch, t);
      PerRowTakesDue(rows, scan[1..], if scan[0] in inner then done + {scan[0]} else done, batch, t);
    }
  }

  // --- a scan by age ------------------------------------------------------------------------------------------------

  /** Of the jobs left, the first scanned is the oldest. */
  lemma OldestIsTaken(rows: Rows, t: Terms, scan: seq<Id>, done: set<Id>, batch: nat)
    requires batch > 0 && Rising(rows, t, false, scan) && scan != []
    requires scan[0] in DueSet(rows, t) - done && DueSet(rows, t) - done <= Members(scan)
    ensures scan[0] in Once(rows, done, batch, t)
  {
    var inner := Once(rows, done, batch, t);
    OnceExactly(rows, done, batch, t);
    forall p | p in scan ensures !Before(KeyOf(rows, t, false, p), KeyOf(rows, t, false, scan[0])) {
      var k :| 0 <= k < |scan| && scan[k] == p;
      if k > 0 { assert Before(KeyOf(rows, t, false, scan[0]), KeyOf(rows, t, false, scan[k])); }
    }
    if inner != {} {
      var p :| p in inner;
      assert p in scan;
    }
  }

  /** Whatever its batch, if it is not none, such a claim takes every due job of a table scanned by age. */
  lemma {:induction false} PerRowTakesEverything(rows: Rows, t: Terms, scan: seq<Id>, done: set<Id>, batch: nat)
    requires batch > 0 && Rising(rows, t, false, scan) && done <= DueSet(rows, t)
    requires Members(scan) == DueSet(rows, t) - done
    ensures PerRow(rows, scan, done, batch, t) == DueSet(rows, t)
    decreases |scan|
  {
    if scan == [] {
      assert Members(scan) == {};
      assert DueSet(rows, t) == done + (DueSet(rows, t) - done);
    } else {
      assert scan[0] in Members(scan);
      OldestIsTaken(rows, t, scan, done, batch);
      FirstOnce(rows, t, false, scan);
      assert Members(scan) == {scan[0]} + Members(scan[1..]);
      assert Members(scan[1..]) == DueSet(rows, t) - (done + {scan[0]});
      PerRowTakesEverything(rows, t, scan[1..], done + {scan[0]}, batch);
    }
  }

  /** The due jobs, by age. */
  lemma AgeScan(rows: Rows, t: Terms) returns (scan: seq<Id>)
    ensures Rising(rows, t, false, scan) && Members(scan) == DueSet(rows, t)
  {
    scan := Ordered(rows, t, false, DueSet(rows, t));
    OrderedRises(rows, t, false, DueSet(rows, t));
  }

  // --- the two compared ---------------------------------------------------------------------------------------------

  lemma FitIsAll(rows: Rows, batch: nat, t: Terms)
    requires |DueSet(rows, t)| <= batch
    ensures Once(rows, {}, batch, t) == DueSet(rows, t)
  {
    OnceExactly(rows, {}, batch, t);
    forall i | i in DueSet(rows, t) ensures i in Once(rows, {}, batch, t) {
      if i !in Once(rows, {}, batch, t) { SubsetCount(Once(rows, {}, batch, t) + {i}, DueSet(rows, t)); }
    }
  }

  lemma SameWithinBatch(rows: Rows, scan: seq<Id>, batch: nat, t: Terms)
    requires |DueSet(rows, t)| <= batch && Covers(rows, t, scan)
    ensures PerRow(rows, scan, {}, batch, t) == Once(rows, {}, batch, t)
  {
    FitIsAll(rows, batch, t);
    PerRowTakesDue(rows, scan, {}, batch, t);
    forall i | i in DueSet(rows, t) ensures i in PerRow(rows, scan, {}, batch, t) {
      assert i in Members(scan);
      PerRowTakesOnce(rows, scan, {}, batch, t, i);
    }
  }

  /** Whatever order the table is scanned in, the two take the same jobs, exactly when the due jobs fit
      the batch. */
  lemma SameOnlyWithinBatch(rows: Rows, batch: nat, t: Terms)
    requires batch > 0
    ensures (forall scan | Covers(rows, t, scan) :: PerRow(rows, scan, {}, batch, t) == Once(rows, {}, batch, t))
            <==> |DueSet(rows, t)| <= batch
  {
    if |DueSet(rows, t)| <= batch {
      forall scan | Covers(rows, t, scan) ensures PerRow(rows, scan, {}, batch, t) == Once(rows, {}, batch, t) {
        SameWithinBatch(rows, scan, batch, t);
      }
    } else {
      var scan := AgeScan(rows, t);
      PerRowTakesEverything(rows, t, scan, {}, batch);
      OnceExactly(rows, {}, batch, t);
      assert Covers(rows, t, scan);
    }
  }
}
