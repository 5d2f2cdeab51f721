/** What one statement of the queue gives back of another, and what it brings about for good. */
module QueueLaws {
  import opened Text
  import opened Jobs
  import opened ClaimLaws
  import opened QueueRuns

  /** A claim took the job: its row now, and that it was due. */
  lemma TakenRow(q: Queue, tx: Tx, a: Action, w: Setting, i: Id)
    requires (a.Four? || a.Five?) && i in Takes(q, tx, a, w)
    ensures i in q.rows && i in Do(q, tx, a, w).rows && q.rows[i].attempts - q.rows[i].deferrals < w.maxAttempts
    ensures var j := Do(q, tx, a, w).rows[i];
            && j.claimedBy == Some(a.claimant) && j.claimedAt == Some(a.now) && j.heldUntil.None?
            && j.attempts == q.rows[i].attempts + 1 && j.deferrals == q.rows[i].deferrals
            && j.availableAt == q.rows[i].availableAt && j.takeoverBy == q.rows[i].takeoverBy
  {
    OnlyDueJobsTaken(q, tx, a, w, i);
  }

  /** A job claimed is no one else's to claim before its lease has run out. */
  lemma ClaimIsALease(q: Queue, tx: Tx, a: Action, w: Setting, i: Id, later: int)
    requires (a.Four? || a.Five?) && i in Takes(q, tx, a, w)
    ensures i in Do(q, tx, a, w).rows
    ensures Due(Do(q, tx, a, w).rows[i], TermsAt(w, later)) <==>
              later > a.now + w.lease && q.rows[i].availableAt <= later
              && q.rows[i].attempts + 1 - q.rows[i].deferrals < w.maxAttempts
  {
    TakenRow(q, tx, a, w, i);
  }

  /** A claim released makes the job claimable as it was, one attempt spent. */
  lemma ReleasedIsClaimable(q: Queue, tx: Tx, a: Action, w: Setting, i: Id, later: int)
    requires (a.Four? || a.Five?) && i in Takes(q, tx, a, w)
    ensures var now := Do(q, tx, a, w);
            var end := Do(now, tx, Release(i, a.claimant), w);
            i in SharedByOthers(now, tx) || (i in end.rows
              && (Due(end.rows[i], TermsAt(w, later)) <==>
                    q.rows[i].availableAt <= later && q.rows[i].attempts + 1 - q.rows[i].deferrals < w.maxAttempts))
  {
    TakenRow(q, tx, a, w, i);
  }

  /** A claim deferred spends no attempt, and makes the job claimable from its time on. */
  lemma DeferredSpendsNothing(q: Queue, tx: Tx, a: Action, w: Setting, i: Id, now: int, seconds: int, later: int)
    requires (a.Four? || a.Five?) && i in Takes(q, tx, a, w)
    ensures var claimed := Do(q, tx, a, w);
            var end := Do(claimed, tx, Defer(i, a.claimant, now, seconds), w);
            i in SharedByOthers(claimed, tx) || (i in end.rows
              && end.rows[i].attempts - end.rows[i].deferrals == q.rows[i].attempts - q.rows[i].deferrals
              && (Due(end.rows[i], TermsAt(w, later)) <==> now + seconds <= later))
  {
    TakenRow(q, tx, a, w, i);
  }

  /** A claim passed to a take-over spends no attempt, neither the runner's nor the holder's. */
  lemma PassedSpendsNothing(q: Queue, tx: Tx, a: Action, w: Setting, i: Id, pass: Action)
    requires (a.Four? || a.Five?) && i in Takes(q, tx, a, w)
    requires pass.Pass? && pass.id == i && Reached(Do(q, tx, a, w), tx, pass, w)
    ensures i in q.rows && i in Do(Do(q, tx, a, w), tx, pass, w).rows
    ensures var end := Do(Do(q, tx, a, w), tx, pass, w).rows[i];
            && end.attempts - end.deferrals == q.rows[i].attempts - q.rows[i].deferrals
            && pass.claimant == a.claimant && pass.attempt == q.rows[i].attempts + 1
  {
    TakenRow(q, tx, a, w, i);
  }

  // --- leases -------------------------------------------------------------------------------------------------------

  /** The claimant's own claim of that number, made or renewed at `since` or later. */
  predicate Leased(rows: Rows, i: Id, claimant: string, attempt: nat, since: int) {
    Fenced(rows, i, claimant, attempt) && rows[i].heldUntil.None? && rows[i].claimedAt.Some? &&
      rows[i].claimedAt.value >= since
  }

  /** The step is a claim before the lease has run out, a renewal no earlier than it began, or no act of
      the claimant. */
  predicate WithinLease(a: Action, w: Setting, i: Id, claimant: string, since: int) {
    match a
    case Four(_, _, _, _, now) => now <= since + w.lease
    case Five(_, _, _, _, now, _) => now <= since + w.lease
    case Extend(id, c, now) => id == i && c == claimant ==> since <= now
    case Release(id, c) => id != i || c != claimant
    case Defer(id, c, _, _) => id != i || c != claimant
    case Complete(id, c) => id != i || c != claimant
    case Pass(id, c, _, _, _, _) => id != i || c != claimant
    case _ => true
  }

  ghost predicate AllWithinLease(steps: seq<(Tx, Action)>, w: Setting, i: Id, claimant: string, since: int) {
    forall n | 0 <= n < |steps| :: WithinLease(steps[n].1, w, i, claimant, since)
  }

  lemma KeepsLease(q: Queue, tx: Tx, a: Action, w: Setting, i: Id, claimant: string, attempt: nat, since: int)
    requires Leased(q.rows, i, claimant, attempt, since) && WithinLease(a, w, i, claimant, since)
    ensures Leased(Do(q, tx, a, w).rows, i, claimant, attempt, since)
  {
    if a.Four? || a.Five? { OnlyDueJobsTaken(q, tx, a, w, i); }
  }

  lemma {:induction false} LeasedThrough(q: Queue, steps: seq<(Tx, Action)>, w: Setting, i: Id, claimant: string,
          attempt: nat, since: int)
    requires Leased(q.rows, i, claimant, attempt, since) && AllWithinLease(steps, w, i, claimant, since)
    ensures Leased(Run(q, steps, w).rows, i, claimant, attempt, since)
    decreases |steps|
  {
    if steps != [] {
      assert WithinLease(steps[0].1, w, i, claimant, since);
      KeepsLease(q, steps[0].0, steps[0].1, w, i, claimant, attempt, since);
      forall n | 0 <= n < |steps[1..]| ensures WithinLease(steps[1..][n].1, w, i, claimant, since) {
        assert steps[1..][n] == steps[n + 1];
      }
      LeasedThrough(Do(q, steps[0].0, steps[0].1, w), steps[1..], w, i, claimant, attempt, since);
    }
  }

  /** A job claimed, or a claim renewed, is the claimant's for the whole lease: through every run whose
      claims come before its end, the fence of that claim holds, unless the claimant gives it up. */
  lemma LeaseIsExclusive(q: Queue, tx: Tx, a: Action, steps: seq<(Tx, Action)>, w: Setting, i: Id)
    requires if a.Extend? then Reached(q, tx, a, w) && a.id == i else i in Takes(q, tx, a, w)
    requires AllWithinLease(steps, w, i, a.claimant, a.now)
    ensures i in q.rows
    ensures var attempt := q.rows[i].attempts + (if a.Extend? then 0 else 1);
            Fenced(Run(Do(q, tx, a, w), steps, w).rows, i, a.claimant, attempt)
  {
    if !a.Extend? { TakenRow(q, tx, a, w, i); }
    LeasedThrough(Do(q, tx, a, w), steps, w, i, a.claimant, q.rows[i].attempts + (if a.Extend? then 0 else 1), a.now);
  }

  // --- take-overs asked for -----------------------------------------------------------------------------------------

  /** The asker does not withdraw, the claim is not passed to it, and the job is not completed. */
  ghost predicate Undecided(steps: seq<(Tx, Action)>, i: Id, first: string) {
    forall n | 0 <= n < |steps| ::
      match steps[n].1
      case Withdraw(id, holder) => id != i || holder != first
      case Pass(id, _, _, holder, _, _) => id != i || holder != first
      case Complete(id, _) => id != i
      case _ => true
  }

  lemma {:induction false} AskedThrough(q: Queue, steps: seq<(Tx, Action)>, w: Setting, i: Id, first: string)
    requires i in q.rows && q.rows[i].takeoverBy == Some(first) && Undecided(steps, i, first)
    ensures i in Run(q, steps, w).rows && Run(q, steps, w).rows[i].takeoverBy == Some(first)
    decreases |steps|
  {
    if steps != [] {
      var (tx, a) := steps[0];
      assert steps[0].1 == a;
      if a.Four? || a.Five? { OnlyDueJobsTaken(q, tx, a, w, i); }
      AskedThrough(Do(q, tx, a, w), steps[1..], w, i, first);
    }
  }

  /** Until it is withdrawn, passed or the job completed, a take-over is the first asker's: through every
      run a later asker is refused, and no claim is passed to anyone else. */
  lemma FirstAskerOnly(q: Queue, tx: Tx, i: Id, first: string, steps: seq<(Tx, Action)>, w: Setting, other: Tx,
          a: Action)
    requires Reached(q, tx, AskTakeover(i, first), w) && Undecided(steps, i, first)
    requires (a.AskTakeover? || (a.Pass? && a.holder != first)) && a.id == i
    ensures var end := Run(Do(q, tx, AskTakeover(i, first), w), steps, w);
            !Reached(end, other, a, w) && Do(end, other, a, w) == end
  {
    AskedThrough(Do(q, tx, AskTakeover(i, first), w), steps, w, i, first);
  }

  // --- jobs completed -----------------------------------------------------------------------------------------------

  ghost predicate NotEnqueued(steps: seq<(Tx, Action)>, i: Id) {
    forall n | 0 <= n < |steps| :: !(steps[n].1.Enqueue? && steps[n].1.id == i)
  }

  lemma {:induction false} StaysAway(q: Queue, steps: seq<(Tx, Action)>, w: Setting, i: Id)
    requires i !in q.rows && NotEnqueued(steps, i)
    ensures i !in Run(q, steps, w).rows
    decreases |steps|
  {
    if steps != [] {
      assert !(steps[0].1.Enqueue? && steps[0].1.id == i);
      StaysAway(Do(q, steps[0].0, steps[0].1, w), steps[1..], w, i);
    }
  }

  /** A job completed is gone for good: unless its id is enqueued again, no claim takes it, even one
      that ranks it from a snapshot of before, and no fence holds. */
  lemma CompletedIsGone(q: Queue, tx: Tx, i: Id, claimant: string, steps: seq<(Tx, Action)>, w: Setting, other: Tx,
          a: Action, c: string, attempt: nat)
    requires Reached(q, tx, Complete(i, claimant), w) && NotEnqueued(steps, i)
    ensures var end := Run(Do(q, tx, Complete(i, claimant), w), steps, w);
            i !in end.rows && i !in Takes(end, other, a, w) && !Fenced(end.rows, i, c, attempt)
  {
    var end := Run(Do(q, tx, Complete(i, claimant), w), steps, w);
    StaysAway(Do(q, tx, Complete(i, claimant), w), steps, w, i);
    if a.Four? || a.Five? { OnlyDueJobsTaken(end, other, a, w, i); }
  }
}
