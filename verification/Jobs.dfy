/** The job table: when a job is due, what a unit holds, the order a claim takes jobs in, and what
    each statement of a claim writes. One tenant's rows; ids stand for their places in the order
    of ids. */
module Jobs {
  import opened Text

  type Id = nat

  datatype Job = Job(
    createdAt: int,
    orgUnit: Option<string>,
    availableAt: int,
    attempts: nat,
    deferrals: nat,
    claimedAt: Option<int>,
    claimedBy: Option<string>,
    heldUntil: Option<int>,
    quotaHeldSince: Option<int>,
    takeoverBy: Option<string>)

  type Rows = map<Id, Job>

  /** The instant of the claiming transaction, and what its caller asks. */
  datatype Terms = Terms(now: int, lease: int, maxAttempts: int)

  /** Due and claimable: a held job by its hold, any other by its lease. */
  predicate Due(j: Job, t: Terms) {
    && j.availableAt <= t.now
    && j.attempts - j.deferrals < t.maxAttempts
    && match j.heldUntil
       case Some(until) => until <= t.now
       case None => j.claimedAt.None? || j.claimedAt.value < t.now - t.lease
  }

  /** A claim that counts against its unit. */
  predicate Live(j: Job, t: Terms) {
    j.claimedBy.Some? && j.heldUntil.None? && j.claimedAt.Some? && j.claimedAt.value >= t.now - t.lease
  }

  function LiveIn(rows: Rows, orgUnit: Option<string>, t: Terms): set<Id> {
    set i | i in rows && rows[i].orgUnit == orgUnit && Live(rows[i], t)
  }

  function DueIn(rows: Rows, orgUnit: Option<string>, t: Terms): set<Id> {
    set i | i in rows && rows[i].orgUnit == orgUnit && Due(rows[i], t)
  }

  /** By age, then by id. */
  predicate Older(rows: Rows, i: Id, k: Id)
    requires i in rows && k in rows
  {
    rows[i].createdAt < rows[k].createdAt || (rows[i].createdAt == rows[k].createdAt && i <= k)
  }

  /** The due jobs of its unit up to and including it. */
  function UpTo(rows: Rows, i: Id, t: Terms): set<Id>
    requires i in rows
  {
    set k | k in DueIn(rows, rows[i].orgUnit, t) && Older(rows, k, i)
  }

  /** A job's place: the claims its unit holds, and its position among its unit's due jobs. */
  function Place(rows: Rows, i: Id, t: Terms): nat
    requires i in rows
  {
    |LiveIn(rows, rows[i].orgUnit, t)| + |UpTo(rows, i, t)|
  }

  predicate WithinLimit(rows: Rows, i: Id, t: Terms, limits: map<string, int>)
    requires i in rows
  {
    match rows[i].orgUnit
    case None => true
    case Some(u) => u in limits ==> Place(rows, i, t) <= limits[u]
  }

  function Ranked(rows: Rows, t: Terms, limits: map<string, int>): set<Id> {
    set i | i in rows && Due(rows[i], t) && WithinLimit(rows, i, t, limits)
  }

  // --- the order of a claim ------------------------------------------------------------------------------------

  datatype Key = Key(place: int, created: int, id: Id)

  predicate Before(a: Key, b: Key) {
    a.place < b.place || (a.place == b.place && (a.created < b.created || (a.created == b.created && a.id < b.id)))
  }

  /** By place, then by age; by age alone where places are not asked for. */
  function KeyOf(rows: Rows, t: Terms, shared: bool, i: Id): Key
    requires i in rows
  {
    Key(if shared then Place(rows, i, t) else 0, rows[i].createdAt, i)
  }

  predicate IsFirst(rows: Rows, t: Terms, shared: bool, s: set<Id>, m: Id)
    requires s <= rows.Keys
  {
    m in s && forall k | k in s && k != m :: Before(KeyOf(rows, t, shared, m), KeyOf(rows, t, shared, k))
  }

  lemma {:induction false} FirstExists(rows: Rows, t: Terms, shared: bool, s: set<Id>) returns (m: Id)
    requires s != {} && s <= rows.Keys
    ensures IsFirst(rows, t, shared, s, m)
  {
    m :| m in s;
    var rest := s - {m};
    assert s == rest + {m};
    if rest != {} {
      var first := FirstExists(rows, t, shared, rest);
      if Before(KeyOf(rows, t, shared, first), KeyOf(rows, t, shared, m)) { m := first; }
    }
  }

  function First(rows: Rows, t: Terms, shared: bool, s: set<Id>): (m: Id)
    requires s != {} && s <= rows.Keys
    ensures IsFirst(rows, t, shared, s, m)
  {
    assert exists m :: IsFirst(rows, t, shared, s, m) by { var first := FirstExists(rows, t, shared, s); }
    var m :| IsFirst(rows, t, shared, s, m);
    m
  }

  function Ordered(rows: Rows, t: Terms, shared: bool, s: set<Id>): (r: seq<Id>)
    requires s <= rows.Keys
    ensures forall i :: i in r <==> i in s
  {
    if s == {} then []
    else
      var m := First(rows, t, shared, s);
      [m] + Ordered(rows, t, shared, s - {m})
  }

  /** The first `batch` of them that can be locked. */
  function Pick(order: seq<Id>, open: set<Id>, batch: nat): (r: seq<Id>)
    ensures |r| <= batch
    ensures forall i | i in r :: i in order && i in open
  {
    if batch == 0 || order == [] then []
    else if order[0] in open then [order[0]] + Pick(order[1..], open, batch - 1)
    else Pick(order[1..], open, batch)
  }

  /** The same job, not one deleted and enqueued again: no statement changes either field. */
  predicate SameJob(was: Job, now: Job) { was.createdAt == now.createdAt && was.orgUnit == now.orgUnit }

  /** The rows a claim can lock: no one else holds them, and checked again, they are still due. */
  function Open(snapshot: Rows, rows: Rows, locked: set<Id>, t: Terms): set<Id> {
    set i | i in rows && i !in locked && Due(rows[i], t) && i in snapshot && SameJob(snapshot[i], rows[i])
  }

  /** What a claim takes: ranked from the snapshot the statement reads, locked on the rows as they are. */
  function Taken(snapshot: Rows, rows: Rows, locked: set<Id>, t: Terms, batch: nat,
          limits: Option<map<string, int>>): seq<Id> {
    var ranked := Ranked(snapshot, t, if limits.Some? then limits.value else map[]);
    Pick(Ordered(snapshot, t, limits.Some?, ranked), Open(snapshot, rows, locked, t), batch)
  }

  // --- what a claim writes ------------------------------------------------------------------------------------------

  function Claimed(j: Job, claimant: string, t: Terms): Job {
    j.(claimedAt := Some(t.now), claimedBy := Some(claimant), attempts := j.attempts + 1, heldUntil := None)
  }

  function Take(rows: Rows, picked: seq<Id>, claimant: string, t: Terms): Rows {
    map i | i in rows :: if i in picked then Claimed(rows[i], claimant, t) else rows[i]
  }

  /** What was claimed now no longer waits. */
  function NotWaiting(rows: Rows, claimant: string, t: Terms): Rows {
    map i | i in rows ::
      if rows[i].claimedBy == Some(claimant) && rows[i].claimedAt == Some(t.now) then rows[i].(quotaHeldSince := None)
        else rows[i]
  }

  /** Its unit holds its limit. */
  predicate AtLimit(rows: Rows, i: Id, t: Terms, limits: map<string, int>)
    requires i in rows
  {
    match rows[i].orgUnit
    case None => false
    case Some(u) => u in limits && |LiveIn(rows, Some(u), t)| >= limits[u]
  }

  /** The due jobs of every unit at its limit wait from now on, where they do not wait already. */
  function Waiting(rows: Rows, locked: set<Id>, t: Terms, limits: map<string, int>): Rows {
    map i | i in rows ::
      if rows[i].quotaHeldSince.None? && Due(rows[i], t) && AtLimit(rows, i, t, limits) && i !in locked
      then rows[i].(quotaHeldSince := Some(t.now)) else rows[i]
  }

  // --- a claim undisturbed -----------------------------------------------------------------------------------------

  /** The claim of five arguments with nothing between its three statements: by places, within the
      units' limits, and with their waits booked. `busy` are the rows the last statement finds locked. */
  function ClaimFive(snapshot: Rows, rows: Rows, locked: set<Id>, busy: set<Id>, claimant: string, batch: nat,
          t: Terms, limits: map<string, int>): Rows {
    var taken := Take(rows, Taken(snapshot, rows, locked, t, batch, Some(limits)), claimant, t);
    Waiting(NotWaiting(taken, claimant, t), busy, t, limits)
  }

  // --- facts about picking -----------------------------------------------------------------------------------------

  ghost predicate Rising(rows: Rows, t: Terms, shared: bool, r: seq<Id>) {
    && (forall i | i in r :: i in rows)
    && forall a, b | 0 <= a < b < |r| :: Before(KeyOf(rows, t, shared, r[a]), KeyOf(rows, t, shared, r[b]))
  }

  lemma {:induction false} OrderedRises(rows: Rows, t: Terms, shared: bool, s: set<Id>)
    requires s <= rows.Keys
    ensures Rising(rows, t, shared, Ordered(rows, t, shared, s))
  {
    if s != {} {
      var m := First(rows, t, shared, s);
      var rest := Ordered(rows, t, shared, s - {m});
      OrderedRises(rows, t, shared, s - {m});
      var r := [m] + rest;
      forall a, b | 0 <= a < b < |r| ensures Before(KeyOf(rows, t, shared, r[a]), KeyOf(rows, t, shared, r[b])) {
        if a == 0 { assert r[b] in rest; }
      }
    }
  }

  /** Whatever could be taken and was not comes after everything that was, and the batch is full. */
  lemma {:induction false} PickTakesFirst(rows: Rows, t: Terms, shared: bool, order: seq<Id>, open: set<Id>,
          batch: nat, i: Id)
    requires Rising(rows, t, shared, order)
    requires i in order && i in open && i !in Pick(order, open, batch)
    ensures |Pick(order, open, batch)| == batch
    ensures forall p | p in Pick(order, open, batch) :: Before(KeyOf(rows, t, shared, p), KeyOf(rows, t, shared, i))
  {
    if batch > 0 {
      var at :| 0 <= at < |order| && order[at] == i;
      if order[0] in open {
        assert at > 0;
        assert order[1..][at - 1] == i;
        assert Before(KeyOf(rows, t, shared, order[0]), KeyOf(rows, t, shared, order[at]));
        PickTakesFirst(rows, t, shared, order[1..], open, batch - 1, i);
      } else {
        assert order[1..][at - 1] == i;
        PickTakesFirst(rows, t, shared, order[1..], open, batch, i);
      }
    }
  }

  function Members(r: seq<Id>): set<Id> { set i | i in r }

  lemma FirstOnce(rows: Rows, t: Terms, shared: bool, order: seq<Id>)
    requires Rising(rows, t, shared, order) && order != []
    ensures order[0] !in order[1..]
  {
    forall k | 0 <= k < |order| - 1 ensures order[1..][k] != order[0] {
      assert Before(KeyOf(rows, t, shared, order[0]), KeyOf(rows, t, shared, order[k + 1]));
    }
  }

  /** No job is taken twice. */
  lemma {:induction false} PickDistinct(rows: Rows, t: Terms, shared: bool, order: seq<Id>, open: set<Id>, batch: nat)
    requires Rising(rows, t, shared, order)
    ensures |Members(Pick(order, open, batch))| == |Pick(order, open, batch)|
  {
    if batch > 0 && order != [] {
      PickDistinct(rows, t, shared, order[1..], open, if order[0] in open then batch - 1 else batch);
      if order[0] in open {
        FirstOnce(rows, t, shared, order);
        var rest := Pick(order[1..], open, batch - 1);
        assert order[0] !in Members(rest);
        assert Members([order[0]] + rest) == {order[0]} + Members(rest);
      }
    }
  }

  /** Exactly what a claim takes: jobs ranked and open, at most the batch, none of them twice; and of
      those ranked and open that it does not take, each comes after all it takes, the batch full. */
  lemma TakenExactly(snapshot: Rows, rows: Rows, locked: set<Id>, t: Terms, batch: nat,
          limits: Option<map<string, int>>)
    ensures var r := Taken(snapshot, rows, locked, t, batch, limits);
            var ranked := Ranked(snapshot, t, if limits.Some? then limits.value else map[]);
            && |r| <= batch && |Members(r)| == |r|
            && (forall i | i in r :: i in ranked && i in Open(snapshot, rows, locked, t))
            && (forall i | i in ranked && i in Open(snapshot, rows, locked, t) && i !in r ::
                  |r| == batch &&
                    forall p | p in r ::
                      Before(KeyOf(snapshot, t, limits.Some?, p), KeyOf(snapshot, t, limits.Some?, i)))
  {
    var shared := limits.Some?;
    var ranked := Ranked(snapshot, t, if limits.Some? then limits.value else map[]);
    var order := Ordered(snapshot, t, shared, ranked);
    OrderedRises(snapshot, t, shared, ranked);
    PickDistinct(snapshot, t, shared, order, Open(snapshot, rows, locked, t), batch);
    forall i | i in ranked && i in Open(snapshot, rows, locked, t) &&
      i !in Taken(snapshot, rows, locked, t, batch, limits)
      ensures |Taken(snapshot, rows, locked, t, batch, limits)| == batch
      ensures forall p | p in Taken(snapshot, rows, locked, t, batch, limits) ::
                Before(KeyOf(snapshot, t, shared, p), KeyOf(snapshot, t, shared, i))
    {
      PickTakesFirst(snapshot, t, shared, order, Open(snapshot, rows, locked, t), batch, i);
    }
  }
}
