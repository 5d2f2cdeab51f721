/** Runs of the queue: every statement on the job table, by any number of transactions. */
module QueueRuns {
  import opened Text
  import opened Jobs
  import opened ClaimLaws

  type Tx = nat

  /** The table, and the rows each open transaction holds shared by a fence. */
  datatype Queue = Queue(rows: Rows, shared: set<(Tx, Id)>)

  /** What the adapter is built with. */
  datatype Setting = Setting(lease: int, maxAttempts: int)

  /** The claim of five arguments is three statements: `Five`, `ClearWaits` and `BookWaits`. */
  datatype Action =
    | Enqueue(id: Id, now: int, orgUnit: Option<string>, attempts: nat)
    | Four(snapshot: Rows, locked: set<Id>, claimant: string, batch: nat, now: int)
    | Five(snapshot: Rows, locked: set<Id>, claimant: string, batch: nat, now: int, limits: map<string, int>)
    | ClearWaits(claimant: string, now: int)
    | BookWaits(busy: set<Id>, now: int, limits: map<string, int>)
    | Extend(id: Id, claimant: string, now: int)
    | Fence(id: Id, claimant: string, attempt: nat)
    | Release(id: Id, claimant: string)
    | Defer(id: Id, claimant: string, now: int, seconds: int)
    | Complete(id: Id, claimant: string)
    | AskTakeover(id: Id, holder: string)
    | Withdraw(id: Id, holder: string)
    | Pass(id: Id, claimant: string, attempt: nat, holder: string, now: int, seconds: int)
    | End

  function SharedByOthers(q: Queue, tx: Tx): set<Id> { set p | p in q.shared && p.0 != tx :: p.1 }

  function TermsAt(w: Setting, now: int): Terms { Terms(now, w.lease, w.maxAttempts) }

  /** The row a statement updates, or none: its condition fails, or another transaction holds it. */
  predicate Reached(q: Queue, tx: Tx, a: Action, w: Setting) {
    match a
    case Extend(i, c, now) =>
      Mine(q, tx, i, c) && q.rows[i].claimedAt.Some? && q.rows[i].claimedAt.value >= now - w.lease &&
        q.rows[i].heldUntil.None?
    case Release(i, c) => Mine(q, tx, i, c)
    case Defer(i, c, _, _) => Mine(q, tx, i, c)
    case Complete(i, c) => Mine(q, tx, i, c)
    case AskTakeover(i, _) =>
      Free(q, tx, i) && q.rows[i].claimedBy.Some? && q.rows[i].heldUntil.None? && q.rows[i].takeoverBy.None?
    case Withdraw(i, holder) => Free(q, tx, i) && q.rows[i].takeoverBy == Some(holder)
    case Pass(i, c, attempt, holder, _, _) =>
      Mine(q, tx, i, c) && q.rows[i].attempts == attempt && q.rows[i].takeoverBy == Some(holder)
    case _ => false
  }

  predicate Free(q: Queue, tx: Tx, i: Id) { i in q.rows && i !in SharedByOthers(q, tx) }

  predicate Mine(q: Queue, tx: Tx, i: Id, claimant: string) { Free(q, tx, i) && q.rows[i].claimedBy == Some(claimant) }

  /** The claim is still the one the job names. */
  predicate Fenced(rows: Rows, i: Id, claimant: string, attempt: nat) {
    i in rows && rows[i].claimedBy == Some(claimant) && rows[i].attempts == attempt
  }

  function Changed(j: Job, a: Action): Job {
    match a
    case Extend(_, _, now) => j.(claimedAt := Some(now))
    case Release(_, _) => j.(claimedAt := None, claimedBy := None, heldUntil := None)
    case Defer(_, _, now, seconds) =>
      j.(claimedAt := None, claimedBy := None, deferrals := j.deferrals + 1, availableAt := now + seconds)
    case AskTakeover(_, holder) => j.(takeoverBy := Some(holder))
    case Withdraw(_, _) => j.(takeoverBy := None)
    case Pass(_, _, _, holder, now, seconds) =>
      j.(claimedAt := Some(now), claimedBy := Some(holder), attempts := j.attempts + 1, deferrals := j.deferrals + 2,
         heldUntil := Some(now + seconds), takeoverBy := None)
    case _ => j
  }

  function Fresh(now: int, orgUnit: Option<string>, attempts: nat): Job {
    Job(now, orgUnit, now, attempts, 0, None, None, None, None, None)
  }

  function Do(q: Queue, tx: Tx, a: Action, w: Setting): Queue {
    match a
    case Enqueue(i, now, u, attempts) => if i in q.rows then q else q.(rows := q.rows[i := Fresh(now, u, attempts)])
    case Four(_, _, c, _, now) => q.(rows := Take(q.rows, Takes(q, tx, a, w), c, TermsAt(w, now)))
    case Five(_, _, c, _, now, _) => q.(rows := Take(q.rows, Takes(q, tx, a, w), c, TermsAt(w, now)))
    case ClearWaits(c, now) => q.(rows := NotWaiting(q.rows, c, TermsAt(w, now)))
    case BookWaits(busy, now, limits) =>
      q.(rows := Waiting(q.rows, busy + SharedByOthers(q, tx), TermsAt(w, now), limits))
    case Fence(i, c, attempt) => if Fenced(q.rows, i, c, attempt) then q.(shared := q.shared + {(tx, i)}) else q
    case End => q.(shared := set p | p in q.shared && p.0 != tx)
    case Complete(i, _) => if Reached(q, tx, a, w) then q.(rows := q.rows - {i}) else q
    case _ => if Reached(q, tx, a, w) then q.(rows := q.rows[a.id := Changed(q.rows[a.id], a)]) else q
  }

  function Run(q: Queue, steps: seq<(Tx, Action)>, w: Setting): Queue
    decreases |steps|
  {
    if steps == [] then q else Run(Do(q, steps[0].0, steps[0].1, w), steps[1..], w)
  }

  lemma {:induction false} RunSum(q: Queue, x: seq<(Tx, Action)>, y: seq<(Tx, Action)>, w: Setting)
    ensures Run(q, x + y, w) == Run(Run(q, x, w), y, w)
    decreases |x|
  {
    if x == [] {
      assert x + y == y;
    } else {
      assert (x + y)[1..] == x[1..] + y;
      RunSum(Do(q, x[0].0, x[0].1, w), x[1..], y, w);
    }
  }

  lemma RunOne(q: Queue, step: (Tx, Action), w: Setting)
    ensures Run(q, [step], w) == Do(q, step.0, step.1, w)
  {
    assert [step][1..] == [];
  }

  /** What a claim takes when it is the next step. */
  function Takes(q: Queue, tx: Tx, a: Action, w: Setting): seq<Id> {
    match a
    case Four(s, locked, _, batch, now) =>
      Taken(s, q.rows, locked + SharedByOthers(q, tx), TermsAt(w, now), batch, None)
    case Five(s, locked, _, batch, now, limits) =>
      Taken(s, q.rows, locked + SharedByOthers(q, tx), TermsAt(w, now), batch, Some(limits))
    case _ => []
  }

  // --- claims --------------------------------------------------------------------------------------------------------

  /** Whatever snapshot it ranked and whatever was locked meanwhile, a claim takes at most its batch,
      none twice, and no job whose lease has not run out, that is held, that waits, that is at its
      limit of attempts, or that another transaction has fenced. */
  lemma OnlyDueJobsTaken(q: Queue, tx: Tx, a: Action, w: Setting, i: Id)
    requires a.Four? || a.Five?
    ensures |Takes(q, tx, a, w)| <= a.batch && |Members(Takes(q, tx, a, w))| == |Takes(q, tx, a, w)|
    ensures i in Takes(q, tx, a, w) ==>
      && i in q.rows && (forall other | other != tx :: (other, i) !in q.shared)
      && var j := q.rows[i];
      && j.availableAt <= a.now && j.attempts - j.deferrals < w.maxAttempts
      && (j.heldUntil.Some? ==> j.heldUntil.value <= a.now)
      && (j.heldUntil.None? && j.claimedAt.Some? ==> j.claimedAt.value < a.now - w.lease)
  {
    var limits := if a.Five? then Some(a.limits) else None;
    forall other | other != tx && (other, i) in q.shared ensures i in SharedByOthers(q, tx) {
      assert (other, i).1 == i;
    }
    TakenExactly(a.snapshot, q.rows, a.locked + SharedByOthers(q, tx), TermsAt(w, a.now), a.batch, limits);
  }

  // --- attempts ------------------------------------------------------------------------------------------------------

  ghost predicate WithinAttempts(rows: Rows, w: Setting) {
    forall i | i in rows :: rows[i].attempts - rows[i].deferrals <= w.maxAttempts
  }

  ghost predicate ModestEnqueues(steps: seq<(Tx, Action)>, w: Setting) {
    forall n | 0 <= n < |steps| :: steps[n].1.Enqueue? ==> steps[n].1.attempts <= w.maxAttempts
  }

  lemma KeepsWithinAttempts(q: Queue, tx: Tx, a: Action, w: Setting)
    requires WithinAttempts(q.rows, w) && (a.Enqueue? ==> a.attempts <= w.maxAttempts)
    ensures WithinAttempts(Do(q, tx, a, w).rows, w)
  {
    if a.Four? || a.Five? {
      forall i
        ensures i in Takes(q, tx, a, w) ==> i in q.rows && q.rows[i].attempts - q.rows[i].deferrals < w.maxAttempts
      {
        OnlyDueJobsTaken(q, tx, a, w, i);
      }
    }
  }

  /** Over every run, a job's claims less its deferrals never pass the limit of attempts. */
  lemma {:induction false} AttemptsNeverExceeded(q: Queue, steps: seq<(Tx, Action)>, w: Setting)
    requires WithinAttempts(q.rows, w) && ModestEnqueues(steps, w)
    ensures WithinAttempts(Run(q, steps, w).rows, w)
    decreases |steps|
  {
    if steps != [] {
      assert steps[0].1.Enqueue? ==> steps[0].1.attempts <= w.maxAttempts;
      KeepsWithinAttempts(q, steps[0].0, steps[0].1, w);
      AttemptsNeverExceeded(Do(q, steps[0].0, steps[0].1, w), steps[1..], w);
    }
  }

  // --- fences --------------------------------------------------------------------------------------------------------

  /** No step of it completes the job. */
  ghost predicate Keeping(steps: seq<(Tx, Action)>, i: Id) {
    forall n | 0 <= n < |steps| :: !(steps[n].1.Complete? && steps[n].1.id == i)
  }

  /** A step takes the claim on the job: a claim that picks it, or a claim passed on. */
  predicate TakesOver(q: Queue, tx: Tx, a: Action, w: Setting, i: Id) {
    i in Takes(q, tx, a, w) || (a.Pass? && a.id == i && Reached(q, tx, a, w))
  }

  lemma AttemptsOfStep(q: Queue, tx: Tx, a: Action, w: Setting, i: Id)
    requires i in q.rows && !(a.Complete? && a.id == i)
    ensures var p := Do(q, tx, a, w).rows;
            i in p && p[i].attempts == q.rows[i].attempts + (if TakesOver(q, tx, a, w, i) then 1 else 0)
    ensures !TakesOver(q, tx, a, w, i) ==>
      var p := Do(q, tx, a, w).rows; p[i].claimedBy == q.rows[i].claimedBy || p[i].claimedBy.None?
  {
  }

  lemma {:induction false} AttemptsRise(q: Queue, steps: seq<(Tx, Action)>, w: Setting, i: Id)
    requires i in q.rows && Keeping(steps, i)
    ensures i in Run(q, steps, w).rows && Run(q, steps, w).rows[i].attempts >= q.rows[i].attempts
    decreases |steps|
  {
    if steps != [] {
      assert !(steps[0].1.Complete? && steps[0].1.id == i);
      AttemptsOfStep(q, steps[0].0, steps[0].1, w, i);
      AttemptsRise(Do(q, steps[0].0, steps[0].1, w), steps[1..], w, i);
    }
  }

  /** Once another claim of the job was taken, the fence of the earlier one is refused for as long as
      the job lives, whoever claims, releases or defers it in between. */
  lemma SupersededForEver(q: Queue, tx: Tx, a: Action, steps: seq<(Tx, Action)>, w: Setting, i: Id,
          claimant: string, attempt: nat)
    requires Fenced(q.rows, i, claimant, attempt) && TakesOver(q, tx, a, w, i) && Keeping(steps, i)
    ensures !Fenced(Run(Do(q, tx, a, w), steps, w).rows, i, claimant, attempt)
  {
    AttemptsOfStep(q, tx, a, w, i);
    AttemptsRise(Do(q, tx, a, w), steps, w, i);
  }

  /** Every step is another transaction's. */
  ghost predicate ByOthers(steps: seq<(Tx, Action)>, tx: Tx) {
    forall n | 0 <= n < |steps| :: steps[n].0 != tx
  }

  lemma SharedBlocks(q: Queue, tx: Tx, other: Tx, a: Action, w: Setting, i: Id)
    requires (tx, i) in q.shared && other != tx && i in q.rows
    ensures (tx, i) in Do(q, other, a, w).shared
    ensures i in Do(q, other, a, w).rows
    ensures Do(q, other, a, w).rows[i].claimedBy == q.rows[i].claimedBy
    ensures Do(q, other, a, w).rows[i].attempts == q.rows[i].attempts
  {
    assert (tx, i).1 in SharedByOthers(q, other);
    if a.Four? || a.Five? { OnlyDueJobsTaken(q, other, a, w, i); }
  }

  lemma {:induction false} SharedKeeps(q: Queue, tx: Tx, steps: seq<(Tx, Action)>, w: Setting, i: Id,
          claimant: string, attempt: nat)
    requires (tx, i) in q.shared && Fenced(q.rows, i, claimant, attempt) && ByOthers(steps, tx)
    ensures Fenced(Run(q, steps, w).rows, i, claimant, attempt)
    decreases |steps|
  {
    if steps != [] {
      assert steps[0].0 != tx;
      SharedBlocks(q, tx, steps[0].0, steps[0].1, w, i);
      SharedKeeps(Do(q, steps[0].0, steps[0].1, w), tx, steps[1..], w, i, claimant, attempt);
    }
  }

  /** From the fence to the end of its transaction, whatever any other transaction does, the job
      still names the claim: what the transaction writes, it writes under it. */
  lemma FencedUntilTheEnd(q: Queue, tx: Tx, steps: seq<(Tx, Action)>, w: Setting, i: Id, claimant: string, attempt: nat)
    requires Fenced(q.rows, i, claimant, attempt) && ByOthers(steps, tx)
    ensures Fenced(Run(Do(q, tx, Fence(i, claimant, attempt), w), steps, w).rows, i, claimant, attempt)
  {
    SharedKeeps(Do(q, tx, Fence(i, claimant, attempt), w), tx, steps, w, i, claimant, attempt);
  }

  // --- take-overs ----------------------------------------------------------------------------------------------------

  /** Held for a take-over, by its holder, as the claim numbered so. */
  predicate HeldFor(rows: Rows, i: Id, holder: string, until: int, attempt: nat) {
    Fenced(rows, i, holder, attempt) && rows[i].heldUntil == Some(until) && rows[i].takeoverBy.None?
  }

  /** The step is a claim before the hold ends, or no act of the holder. */
  predicate Outside(a: Action, i: Id, holder: string, until: int) {
    match a
    case Four(_, _, _, _, now) => now < until
    case Five(_, _, _, _, now, _) => now < until
    case Release(id, c) => id != i || c != holder
    case Defer(id, c, _, _) => id != i || c != holder
    case Complete(id, c) => id != i || c != holder
    case _ => true
  }

  lemma KeepsHeld(q: Queue, tx: Tx, a: Action, w: Setting, i: Id, holder: string, until: int, attempt: nat)
    requires HeldFor(q.rows, i, holder, until, attempt) && Outside(a, i, holder, until)
    ensures HeldFor(Do(q, tx, a, w).rows, i, holder, until, attempt)
  {
    if a.Four? || a.Five? { OnlyDueJobsTaken(q, tx, a, w, i); }
  }

  lemma {:induction false} HeldThrough(q: Queue, steps: seq<(Tx, Action)>, w: Setting, i: Id, holder: string,
          until: int, attempt: nat)
    requires HeldFor(q.rows, i, holder, until, attempt)
    requires forall n | 0 <= n < |steps| :: Outside(steps[n].1, i, holder, until)
    ensures HeldFor(Run(q, steps, w).rows, i, holder, until, attempt)
    decreases |steps|
  {
    if steps != [] {
      assert Outside(steps[0].1, i, holder, until);
      KeepsHeld(q, steps[0].0, steps[0].1, w, i, holder, until, attempt);
      forall n | 0 <= n < |steps| - 1 ensures Outside(steps[1..][n].1, i, holder, until) {
        assert steps[1..][n] == steps[n + 1];
      }
      HeldThrough(Do(q, steps[0].0, steps[0].1, w), steps[1..], w, i, holder, until, attempt);
    }
  }

  /** A claim passed to a take-over stays the take-over's, whatever anyone else does, through every
      claim made before its time; and the fence of the claim it was passed from is refused. */
  lemma PassedClaimIsHeld(q: Queue, tx: Tx, a: Action, steps: seq<(Tx, Action)>, w: Setting)
    requires a.Pass? && Reached(q, tx, a, w)
    requires forall n | 0 <= n < |steps| :: Outside(steps[n].1, a.id, a.holder, a.now + a.seconds)
    ensures var rows := Run(Do(q, tx, a, w), steps, w).rows;
            && HeldFor(rows, a.id, a.holder, a.now + a.seconds, a.attempt + 1)
            && !Fenced(rows, a.id, a.claimant, a.attempt)
  {
    HeldThrough(Do(q, tx, a, w), steps, w, a.id, a.holder, a.now + a.seconds, a.attempt + 1);
  }
}
