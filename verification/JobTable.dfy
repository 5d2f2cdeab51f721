/** The queue's statements on the table they update, each tied to its step of a run. */
module JobTable {
  import opened Text
  import opened Jobs
  import opened QueueRuns
  import opened PlainClaims

  /** A claim of five arguments among other transactions' steps. */
  function ClaimSteps(tx: Tx, snapshot: Rows, locked: set<Id>, busy: set<Id>, claimant: string, batch: nat, now: int,
          limits: map<string, int>, then1: seq<(Tx, Action)>, then2: seq<(Tx, Action)>): seq<(Tx, Action)> {
    [(tx, Five(snapshot, locked, claimant, batch, now, limits))] + then1 + [(tx, ClearWaits(claimant, now))] + then2
    + [(tx, BookWaits(busy, now, limits))]
  }

  lemma ClaimRun(q: Queue, tx: Tx, snapshot: Rows, locked: set<Id>, busy: set<Id>, claimant: string, batch: nat,
          now: int, limits: map<string, int>, then1: seq<(Tx, Action)>, then2: seq<(Tx, Action)>, w: Setting)
    ensures var taken := Run(Do(q, tx, Five(snapshot, locked, claimant, batch, now, limits), w), then1, w);
            var cleared := Run(Do(taken, tx, ClearWaits(claimant, now), w), then2, w);
            Run(q, ClaimSteps(tx, snapshot, locked, busy, claimant, batch, now, limits, then1, then2), w)
            == Do(cleared, tx, BookWaits(busy, now, limits), w)
  {
    var first, second, third := (tx, Five(snapshot, locked, claimant, batch, now, limits)),
      (tx, ClearWaits(claimant, now)),
                                (tx, BookWaits(busy, now, limits));
    RunSum(q, [first] + then1 + [second] + then2, [third], w);
    RunSum(q, [first] + then1 + [second], then2, w);
    RunSum(q, [first] + then1, [second], w);
    RunSum(q, [first], then1, w);
    RunOne(q, first, w);
    RunOne(Run(q, [first] + then1, w), second, w);
    RunOne(Run(q, [first] + then1 + [second] + then2, w), third, w);
  }

  /** With nothing between its statements, a claim is the one `ClaimLaws` speaks of. */
  lemma Undisturbed(q: Queue, tx: Tx, snapshot: Rows, locked: set<Id>, busy: set<Id>, claimant: string, batch: nat,
          now: int, limits: map<string, int>, w: Setting)
    ensures Run(q, ClaimSteps(tx, snapshot, locked, busy, claimant, batch, now, limits, [], []), w).rows
            == ClaimFive(snapshot, q.rows, locked + SharedByOthers(q, tx), busy + SharedByOthers(q, tx),
                         claimant, batch, TermsAt(w, now), limits)
  {
    ClaimRun(q, tx, snapshot, locked, busy, claimant, batch, now, limits, [], [], w);
    var taken := Do(q, tx, Five(snapshot, locked, claimant, batch, now, limits), w);
    assert Run(taken, [], w) == taken;
    assert Run(Do(taken, tx, ClearWaits(claimant, now), w), [], w) == Do(taken, tx, ClearWaits(claimant, now), w);
  }

  /** No other transaction has fenced the row. */
  predicate NotFenced(shared: set<(Tx, Id)>, tx: Tx, id: Id) { forall p | p in shared && p.1 == id :: p.0 == tx }

  /** The claimant holds the job, and no other transaction has fenced it. */
  predicate Held(rows: Rows, shared: set<(Tx, Id)>, tx: Tx, id: Id, claimant: string) {
    id in rows && rows[id].claimedBy == Some(claimant) && NotFenced(shared, tx, id)
  }

  lemma FencedByOthers(shared: set<(Tx, Id)>, rows: Rows, tx: Tx, id: Id)
    ensures id in SharedByOthers(Queue(rows, shared), tx) <==> !NotFenced(shared, tx, id)
  {
  }

  lemma TakesPlainly(q: Queue, tx: Tx, snapshot: Rows, locked: set<Id>, t: Terms, batch: nat,
          limits: Option<map<string, int>>)
    ensures forall i :: i in Taken(snapshot, q.rows, locked + SharedByOthers(q, tx), t, batch, limits) <==>
              ToBeHadSoon(snapshot, q.rows, locked + SharedByOthers(q, tx), t, batch, limits, i)
  {
    forall i {
      TakenPlainly(snapshot, q.rows, locked + SharedByOthers(q, tx), t, batch, limits, i);
    }
  }

  class Table {
    var rows: Rows
    var shared: set<(Tx, Id)>
    const lease: int
    const maxAttempts: int

    constructor (lease: int, maxAttempts: int)
      ensures rows == map[] && shared == {} && this.lease == lease && this.maxAttempts == maxAttempts
    {
      rows, shared, this.lease, this.maxAttempts := map[], {}, lease, maxAttempts;
    }

    function Contents(): Queue
      reads this
    {
      Queue(rows, shared)
    }

    function Built(): Setting { Setting(lease, maxAttempts) }

    /** What any transactions do meanwhile. */
    method Meanwhile(steps: seq<(Tx, Action)>)
      modifies this
      ensures Contents() == Run(old(Contents()), steps, Built())
    {
      var q := Run(Contents(), steps, Built());
      rows, shared := q.rows, q.shared;
    }

    /** The update both claims begin with: what it takes is the claimant's. */
    method TakeJobs(tx: Tx, snapshot: Rows, locked: set<Id>, claimant: string, batch: nat, now: int,
            limits: Option<map<string, int>>) returns (got: seq<Id>)
      modifies this`rows
      ensures got == Taken(snapshot, old(rows), locked + SharedByOthers(old(Contents()), tx), TermsAt(Built(), now),
                       batch, limits)
      ensures forall i :: i in got <==>
                ToBeHadSoon(snapshot, old(rows), locked + SharedByOthers(old(Contents()), tx),
                  Terms(now, lease, maxAttempts), batch, limits, i)
      ensures rows == Take(old(rows), got, claimant, TermsAt(Built(), now))
    {
      var t := TermsAt(Built(), now);
      got := Taken(snapshot, rows, locked + SharedByOthers(Contents(), tx), t, batch, limits);
      TakesPlainly(Contents(), tx, snapshot, locked, t, batch, limits);
      rows := map i | i in rows :: if i in got then Claimed(rows[i], claimant, t) else rows[i];
    }

    /** What the claimant claimed at this instant no longer waits. */
    method ClearWaits(tx: Tx, claimant: string, now: int)
      modifies this`rows
      ensures Contents() == Do(old(Contents()), tx, Action.ClearWaits(claimant, now), Built())
    {
      ghost var before := rows;
      rows := map i | i in rows ::
        if rows[i].claimedBy == Some(claimant) && rows[i].claimedAt == Some(now) && rows[i].quotaHeldSince.Some?
        then rows[i].(quotaHeldSince := None) else rows[i];
      assert rows == NotWaiting(before, claimant, TermsAt(Built(), now));
    }

    /** The due jobs of every unit at its limit, but those found locked, wait from now on. */
    method BookWaits(tx: Tx, busy: set<Id>, now: int, limits: map<string, int>)
      modifies this`rows
      ensures Contents() == Do(old(Contents()), tx, Action.BookWaits(busy, now, limits), Built())
    {
      var t, fenced := TermsAt(Built(), now), SharedByOthers(Contents(), tx);
      rows := map i | i in rows ::
        if rows[i].quotaHeldSince.None? && Due(rows[i], t) && AtLimit(rows, i, t, limits) && i !in busy + fenced
        then rows[i].(quotaHeldSince := Some(now)) else rows[i];
    }

    /** `claim_jobs` of five arguments: three updates, one after the other, other transactions' steps
        after the first and after the second. */
    method Claim(tx: Tx, snapshot: Rows, locked: set<Id>, busy: set<Id>, claimant: string, batch: nat, now: int,
            limits: map<string, int>, then1: seq<(Tx, Action)>, then2: seq<(Tx, Action)>)
      returns (got: seq<Id>)
      modifies this
      ensures got == Takes(old(Contents()), tx, Five(snapshot, locked, claimant, batch, now, limits), Built())
      ensures forall i :: i in got <==>
                ToBeHadSoon(snapshot, old(rows), locked + SharedByOthers(old(Contents()), tx),
                  Terms(now, lease, maxAttempts), batch, Some(limits), i)
      ensures var steps := ClaimSteps(tx, snapshot, locked, busy, claimant, batch, now, limits, then1, then2);
              Contents() == Run(old(Contents()), steps, Built())
    {
      ghost var before := Contents();
      got := TakeJobs(tx, snapshot, locked, claimant, batch, now, Some(limits));
      Meanwhile(then1);
      ClearWaits(tx, claimant, now);
      Meanwhile(then2);
      BookWaits(tx, busy, now, limits);
      ClaimRun(before, tx, snapshot, locked, busy, claimant, batch, now, limits, then1, then2, Built());
    }

    /** `claim_jobs` of four arguments, which the previous release calls. */
    method ClaimOldest(tx: Tx, snapshot: Rows, locked: set<Id>, claimant: string, batch: nat, now: int)
      returns (got: seq<Id>)
      modifies this`rows
      ensures got == Takes(old(Contents()), tx, Four(snapshot, locked, claimant, batch, now), Built())
      ensures forall i :: i in got <==>
                ToBeHadSoon(snapshot, old(rows), locked + SharedByOthers(old(Contents()), tx),
                  Terms(now, lease, maxAttempts), batch, None, i)
      ensures Contents() == Do(old(Contents()), tx, Four(snapshot, locked, claimant, batch, now), Built())
      ensures rows == map i | i in old(rows) ::
                        if i !in got then old(rows)[i]
                        else old(rows)[i].(claimedAt := Some(now), claimedBy := Some(claimant), heldUntil := None,
                                           attempts := old(rows)[i].attempts + 1)
    {
      got := TakeJobs(tx, snapshot, locked, claimant, batch, now, None);
    }

    /** An id goes in once: a job available from now on, nobody's, with the attempts it brings. */
    method Enqueue(tx: Tx, id: Id, now: int, orgUnit: Option<string>, attempts: nat) returns (ok: bool)
      modifies this`rows
      ensures ok <==> id !in old(rows)
      ensures Contents() == Do(old(Contents()), tx, Action.Enqueue(id, now, orgUnit, attempts), Built())
      ensures rows == if ok then old(rows)[id := Job(now, orgUnit, now, attempts, 0, None, None, None, None, None)]
                      else old(rows)
    {
      ok := id !in rows;
      if ok { rows := rows[id := Fresh(now, orgUnit, attempts)]; }
    }

    /** Renews a claim that has not run out and is not a take-over's. */
    method Extend(tx: Tx, id: Id, claimant: string, now: int) returns (renewed: bool)
      modifies this`rows
      ensures renewed <==>
                && id in old(rows) && NotFenced(old(shared), tx, id) && old(rows)[id].claimedBy == Some(claimant)
                && old(rows)[id].claimedAt.Some? && now - lease <= old(rows)[id].claimedAt.value
                && old(rows)[id].heldUntil.None?
      ensures rows == if renewed then old(rows)[id := old(rows)[id].(claimedAt := Some(now))] else old(rows)
      ensures Contents() == Do(old(Contents()), tx, Action.Extend(id, claimant, now), Built())
    {
      FencedByOthers(shared, rows, tx, id);
      renewed := Reached(Contents(), tx, Action.Extend(id, claimant, now), Built());
      if renewed { rows := rows[id := rows[id].(claimedAt := Some(now))]; }
    }

    /** Whether the job still names the claim; where it does, no other transaction changes it before
        this one ends. */
    method Fence(tx: Tx, id: Id, claimant: string, attempt: nat) returns (held: bool)
      modifies this`shared
      ensures held <==> id in rows && rows[id].claimedBy == Some(claimant) && rows[id].attempts == attempt
      ensures shared == if held then old(shared) + {(tx, id)} else old(shared)
      ensures Contents() == Do(old(Contents()), tx, Action.Fence(id, claimant, attempt), Built())
    {
      held := Fenced(rows, id, claimant, attempt);
      if held { shared := shared + {(tx, id)}; }
    }

    /** The end of a transaction: what it fenced is free. */
    method End(tx: Tx)
      modifies this`shared
      ensures shared == set p | p in old(shared) && p.0 != tx
      ensures Contents() == Do(old(Contents()), tx, Action.End, Built())
    {
      shared := set p | p in shared && p.0 != tx;
    }

    /** Gives the holder's claim back, its hold with it. */
    method Release(tx: Tx, id: Id, claimant: string)
      modifies this`rows
      ensures rows == if Held(old(rows), old(shared), tx, id, claimant)
                      then old(rows)[id := old(rows)[id].(claimedAt := None, claimedBy := None, heldUntil := None)]
                      else old(rows)
      ensures Contents() == Do(old(Contents()), tx, Action.Release(id, claimant), Built())
    {
      FencedByOthers(shared, rows, tx, id);
      if Mine(Contents(), tx, id, claimant) {
        rows := rows[id := rows[id].(claimedAt := None, claimedBy := None, heldUntil := None)];
      }
    }

    /** Gives the holder's claim back for later, counted as a deferral, its hold kept. */
    method Defer(tx: Tx, id: Id, claimant: string, now: int, seconds: int)
      modifies this`rows
      ensures rows == if Held(old(rows), old(shared), tx, id, claimant)
                      then old(rows)[id := old(rows)[id].(claimedAt := None, claimedBy := None,
                                                          deferrals := old(rows)[id].deferrals + 1,
                                                          availableAt := now + seconds)]
                      else old(rows)
      ensures Contents() == Do(old(Contents()), tx, Action.Defer(id, claimant, now, seconds), Built())
    {
      FencedByOthers(shared, rows, tx, id);
      if Mine(Contents(), tx, id, claimant) {
        var j := rows[id];
        rows := rows[id := j.(claimedAt := None, claimedBy := None, deferrals := j.deferrals + 1,
                              availableAt := now + seconds)];
      }
    }

    /** Deletes the holder's job. */
    method Complete(tx: Tx, id: Id, claimant: string)
      modifies this`rows
      ensures rows == if Held(old(rows), old(shared), tx, id, claimant) then old(rows) - {id} else old(rows)
      ensures Contents() == Do(old(Contents()), tx, Action.Complete(id, claimant), Built())
    {
      FencedByOthers(shared, rows, tx, id);
      if Mine(Contents(), tx, id, claimant) { rows := rows - {id}; }
    }

    /** The first asker only, and only while a runner holds the job. */
    method AskTakeover(tx: Tx, id: Id, holder: string) returns (asked: bool)
      modifies this`rows
      ensures asked <==>
                && id in old(rows) && NotFenced(old(shared), tx, id) && old(rows)[id].claimedBy.Some?
                && old(rows)[id].heldUntil.None? && old(rows)[id].takeoverBy.None?
      ensures rows == if asked then old(rows)[id := old(rows)[id].(takeoverBy := Some(holder))] else old(rows)
      ensures Contents() == Do(old(Contents()), tx, Action.AskTakeover(id, holder), Built())
    {
      FencedByOthers(shared, rows, tx, id);
      asked := Reached(Contents(), tx, Action.AskTakeover(id, holder), Built());
      if asked { rows := rows[id := rows[id].(takeoverBy := Some(holder))]; }
    }

    /** The asker's own request, and no other's. */
    method Withdraw(tx: Tx, id: Id, holder: string)
      modifies this`rows
      ensures rows == if id in old(rows) && NotFenced(old(shared), tx, id) && old(rows)[id].takeoverBy == Some(holder)
                      then old(rows)[id := old(rows)[id].(takeoverBy := None)] else old(rows)
      ensures Contents() == Do(old(Contents()), tx, Action.Withdraw(id, holder), Built())
    {
      FencedByOthers(shared, rows, tx, id);
      if id in rows && id !in SharedByOthers(Contents(), tx) && rows[id].takeoverBy == Some(holder) {
        rows := rows[id := rows[id].(takeoverBy := None)];
      }
    }

    /** The runner's claim becomes the take-over's, a claim of its own, held until its time; neither
        counts as a failed attempt. */
    method PassClaim(tx: Tx, id: Id, claimant: string, attempt: nat, holder: string, now: int,
            seconds: int) returns (passed: bool)
      modifies this`rows
      ensures passed <==>
                && Held(old(rows), old(shared), tx, id, claimant) && old(rows)[id].attempts == attempt
                && old(rows)[id].takeoverBy == Some(holder)
      ensures rows == if !passed then old(rows)
                      else old(rows)[id := old(rows)[id].(
                             claimedAt := Some(now), claimedBy := Some(holder), attempts := old(rows)[id].attempts + 1,
                             deferrals := old(rows)[id].deferrals + 2, heldUntil := Some(now + seconds),
                             takeoverBy := None)]
      ensures Contents() == Do(old(Contents()), tx, Action.Pass(id, claimant, attempt, holder, now, seconds), Built())
    {
      FencedByOthers(shared, rows, tx, id);
      passed := Reached(Contents(), tx, Action.Pass(id, claimant, attempt, holder, now, seconds), Built());
      if passed {
        var j := rows[id];
        rows := rows[id := j.(claimedAt := Some(now), claimedBy := Some(holder), attempts := j.attempts + 1,
                              deferrals := j.deferrals + 2, heldUntil := Some(now + seconds), takeoverBy := None)];
      }
    }
  }
}
