/** The retention: which backups are deleted, and which segments of the write-ahead log with them. */
module Retention {
  import opened Text

  /** A segment's place in the log, its timeline left aside. */
  type Place = nat

  datatype Base = Base(cluster: string, first: Place)

  /** What a backup object's name says. */
  datatype Named = Named(at: int, base: Option<Base>)

  datatype Segment = Segment(cluster: string, place: Place)

  /** How names are read; a name of another form is none. */
  datatype Forms = Forms(backup: string -> Option<Named>, drill: string -> Option<Named>,
    segment: string -> Option<Segment>)

  datatype Outcome<T> = Done(value: T) | NegativeRetention

  const DAY := 86400

  type Reader = string -> Option<Named>

  /** The time of the newest backup, if any. */
  ghost predicate IsNewest(read: Reader, objects: set<string>, at: int) {
    && (exists n :: n in objects && read(n).Some? && read(n).value.at == at)
    && forall n | n in objects && read(n).Some? :: read(n).value.at <= at
  }

  /** Some backup is newer. */
  predicate Outlived(read: Reader, objects: set<string>, at: int) {
    exists n | n in objects :: read(n).Some? && read(n).value.at > at
  }

  function Stale(read: Reader, objects: set<string>, limit: int): set<string> {
    set n | n in objects && read(n).Some? && read(n).value.at < limit && Outlived(read, objects, read(n).value.at)
  }

  /** What is stale: older than the limit, with a newer one beside it. */
  lemma StaleExactly(read: Reader, objects: set<string>, limit: int)
    ensures forall n :: n in Stale(read, objects, limit) <==>
              && n in objects && read(n).Some? && read(n).value.at < limit
              && exists m :: m in objects && read(m).Some? && read(n).value.at < read(m).value.at
  {
  }

  /** The newest time, by comparing them all, and what it leaves to delete. */
  method Expired(read: Reader, objects: seq<string>, now: int, days: int) returns (r: Outcome<seq<string>>)
    ensures r.NegativeRetention? <==> days < 0
    ensures r.Done? ==> Ascending(r.value) && forall n :: n in r.value <==>
            n in Stale(read, (set m | m in objects), now - days * DAY)
    ensures r.Done? ==> forall n :: n in r.value <==>
              && n in objects && read(n).Some? && read(n).value.at < now - days * 86400
              && exists m :: m in objects && read(m).Some? && read(n).value.at < read(m).value.at
  {
    if days < 0 { return NegativeRetention; }
    var all := set m | m in objects;
    var newest: Option<int> := None;
    var i := 0;
    while i < |objects|
      invariant i <= |objects|
      invariant newest.None? ==> forall k | 0 <= k < i :: read(objects[k]).None?
      invariant newest.Some? ==> IsNewest(read, (set k | 0 <= k < i :: objects[k]), newest.value)
    {
      var n := read(objects[i]);
      ghost var before, after := (set k | 0 <= k < i :: objects[k]), (set k | 0 <= k < i + 1 :: objects[k]);
      assert after == before + {objects[i]};
      if n.Some? && (newest.None? || n.value.at > newest.value) {
        newest := Some(n.value.at);
        assert objects[i] in after;
      }
      i := i + 1;
    }
    assert all == set k | 0 <= k < i :: objects[k];
    var doomed: set<string> := {};
    if newest.Some? {
      doomed := set n | n in all && read(n).Some? && read(n).value.at < now - days * DAY &&
        read(n).value.at != newest.value;
    }
    StaleExactly(read, all, now - days * DAY);
    return Done(Sorted(doomed));
  }

  // --- backups -----------------------------------------------------------------------------------------------------

  /** The newest backup is kept, whatever the clock and the retention say. */
  lemma NewestKept(read: Reader, objects: set<string>, limit: int, n: string)
    requires n in objects && read(n).Some? && IsNewest(read, objects, read(n).value.at)
    ensures n !in Stale(read, objects, limit)
  {
  }

  /** One backup's objects go together or stay together; an object of another form stays. */
  lemma NeverSplit(read: Reader, objects: set<string>, limit: int, m: string, n: string)
    requires m in objects && n in objects
    ensures read(m).None? ==> m !in Stale(read, objects, limit)
    ensures read(m).Some? && read(n).Some? && read(m).value.at == read(n).value.at ==>
              (m in Stale(read, objects, limit) <==> n in Stale(read, objects, limit))
  {
  }

  lemma NewestExists(read: Reader, objects: set<string>) returns (n: string)
    requires exists m :: m in objects && read(m).Some?
    ensures n in objects && read(n).Some? && IsNewest(read, objects, read(n).value.at)
  {
    n :| n in objects && read(n).Some?;
    var rest := objects - {n};
    if exists m :: m in rest && read(m).Some? {
      var best := NewestExists(read, rest);
      if read(best).value.at > read(n).value.at { n := best; }
    }
  }

  /** A second pass with the same limit finds nothing: what outlived a stale backup is still there. */
  lemma SecondPassFindsNothing(read: Reader, objects: set<string>, limit: int)
    ensures Stale(read, objects - Stale(read, objects, limit), limit) == {}
  {
    var kept := objects - Stale(read, objects, limit);
    forall n | n in kept && read(n).Some? && read(n).value.at < limit
      ensures !Outlived(read, kept, read(n).value.at)
    {
      assert !Outlived(read, objects, read(n).value.at);
    }
  }

  // --- segments ------------------------------------------------------------------------------------------------------

  datatype First = First(at: int, place: Place)

  /** The oldest base backup of each cluster, the first one met where two are as old. */
  function Oldest(read: Reader, objects: seq<string>): map<string, First> {
    if objects == [] then map[]
    else
      var known := Oldest(read, objects[..|objects| - 1]);
      var n := read(objects[|objects| - 1]);
      if n.None? || n.value.base.None? then known
      else
        var b := n.value.base.value;
        if b.cluster !in known || n.value.at < known[b.cluster].at then known[b.cluster := First(n.value.at, b.first)]
          else known
  }

  predicate HasBase(read: Reader, n: string, cluster: string) {
    read(n).Some? && read(n).value.base.Some? && read(n).value.base.value.cluster == cluster
  }

  /** It is a base backup of the cluster, and none of it is older. */
  lemma {:induction false} OldestIsOldest(read: Reader, objects: seq<string>, cluster: string)
    ensures cluster in Oldest(read, objects) <==> exists n :: n in objects && HasBase(read, n, cluster)
    ensures cluster in Oldest(read, objects) ==>
      var o := Oldest(read, objects)[cluster];
      && (exists n ::
            n in objects && HasBase(read, n, cluster) && read(n).value.at == o.at &&
              read(n).value.base.value.first == o.place)
      && (forall n | n in objects && HasBase(read, n, cluster) :: o.at <= read(n).value.at)
  {
    if objects != [] {
      var fewer, last := objects[..|objects| - 1], objects[|objects| - 1];
      OldestIsOldest(read, fewer, cluster);
      assert objects == fewer + [last];
      if HasBase(read, last, cluster) { assert last in objects; }
    }
  }

  predicate SegmentDoomed(oldest: map<string, First>, s: Segment) {
    s.cluster !in oldest || s.place < oldest[s.cluster].place
  }

  /** What `wal_expired` deletes: nothing at all where no base backup is kept. */
  function DoomedSegments(forms: Forms, kept: seq<string>, wal: set<string>): set<string> {
    var oldest := Oldest(forms.backup, kept);
    if oldest == map[] then {}
    else set p | p in wal && forms.segment(p).Some? && SegmentDoomed(oldest, forms.segment(p).value)
  }

  method WalExpired(forms: Forms, kept: seq<string>, wal: seq<string>) returns (doomed: seq<string>)
    ensures Ascending(doomed) && forall p :: p in doomed <==> p in DoomedSegments(forms, kept, set q | q in wal)
  {
    var oldest: map<string, First> := map[];
    var i := 0;
    while i < |kept|
      invariant i <= |kept|
      invariant oldest == Oldest(forms.backup, kept[..i])
    {
      assert kept[..i + 1][..i] == kept[..i];
      var n := forms.backup(kept[i]);
      if n.Some? && n.value.base.Some? {
        var b := n.value.base.value;
        if b.cluster !in oldest || n.value.at < oldest[b.cluster].at {
          oldest := oldest[b.cluster := First(n.value.at, b.first)];
        }
      }
      i := i + 1;
    }
    assert kept[..i] == kept;
    if oldest == map[] { return []; }
    var found: set<string> := {};
    i := 0;
    while i < |wal|
      invariant i <= |wal|
      invariant found == set p | p in wal[..i] && forms.segment(p).Some? &&
                SegmentDoomed(oldest, forms.segment(p).value)
    {
      assert wal[..i + 1] == wal[..i] + [wal[i]];
      var s := forms.segment(wal[i]);
      if s.Some? && SegmentDoomed(oldest, s.value) { found := found + {wal[i]}; }
      i := i + 1;
    }
    assert wal[..i] == wal;
    return Sorted(found);
  }

  /** A base backup needs every segment of its cluster from its first on. */
  predicate Needs(read: Reader, n: string, s: Segment) {
    HasBase(read, n, s.cluster) && s.place >= read(n).value.base.value.first
  }

  /** Within each cluster, an older base backup starts no later in the log. */
  ghost predicate FirstsRise(read: Reader, objects: seq<string>) {
    forall m, n | m in objects && n in objects && read(m).Some? && read(m).value.base.Some? && read(n).Some? &&
      read(n).value.base.Some? ::
      read(m).value.base.value.cluster == read(n).value.base.value.cluster && read(m).value.at <= read(n).value.at ==>
        read(m).value.base.value.first <= read(n).value.base.value.first
  }

  /** No base backup starts before the one the program takes for its cluster's oldest. */
  predicate OldestFirst(read: Reader, kept: seq<string>) {
    forall n | n in kept && read(n).Some? && read(n).value.base.Some? ::
      var b := read(n).value.base.value;
      b.cluster in Oldest(read, kept) && Oldest(read, kept)[b.cluster].place <= b.first
  }

  lemma RiseMeansFirst(read: Reader, kept: seq<string>)
    requires FirstsRise(read, kept)
    ensures OldestFirst(read, kept)
  {
    forall n | n in kept && read(n).Some? && read(n).value.base.Some?
      ensures var b := read(n).value.base.value;
              b.cluster in Oldest(read, kept) && Oldest(read, kept)[b.cluster].place <= b.first
    {
      var cluster := read(n).value.base.value.cluster;
      OldestIsOldest(read, kept, cluster);
      assert HasBase(read, n, cluster);
      var o := Oldest(read, kept)[cluster];
      var m :| m in kept && HasBase(read, m, cluster) && read(m).value.at == o.at &&
        read(m).value.base.value.first == o.place;
    }
  }

  /** No archived segment a kept base backup needs is deleted. */
  lemma NeededSegmentsStay(forms: Forms, kept: seq<string>, wal: set<string>, n: string, p: string)
    requires OldestFirst(forms.backup, kept)
    requires n in kept && p in wal && forms.segment(p).Some? && Needs(forms.backup, n, forms.segment(p).value)
    ensures p !in DoomedSegments(forms, kept, wal)
  {
  }

  predicate IsBase(read: Reader, n: string) { read(n).Some? && read(n).value.base.Some? }

  /** The segment a base backup starts in. */
  function FirstOf(read: Reader, n: string): Segment
    requires IsBase(read, n)
  {
    Segment(read(n).value.base.value.cluster, read(n).value.base.value.first)
  }

  /** The base backup needs the segment of that name. */
  predicate NeedsAt(forms: Forms, n: string, p: string) {
    forms.segment(p).Some? && Needs(forms.backup, n, forms.segment(p).value)
  }

  /** Where a base backup starts before the one taken for the oldest, its first segment is deleted: so,
      with a name for the first segment of every base backup kept, whatever the archive holds stays
      recoverable exactly when none does. */
  lemma RecoverableExactly(forms: Forms, kept: seq<string>, path: string -> string)
    requires forall n | n in kept && IsBase(forms.backup, n) :: forms.segment(path(n)) == Some(FirstOf(forms.backup, n))
    ensures OldestFirst(forms.backup, kept) <==>
            forall n, p | n in kept && NeedsAt(forms, n, p) :: p !in DoomedSegments(forms, kept, {p})
  {
    if OldestFirst(forms.backup, kept) {
      forall n, p | n in kept && NeedsAt(forms, n, p) ensures p !in DoomedSegments(forms, kept, {p}) {
        NeededSegmentsStay(forms, kept, {p}, n, p);
      }
    } else {
      var n :| n in kept && forms.backup(n).Some? && forms.backup(n).value.base.Some?
        && var b := forms.backup(n).value.base.value;
           !(b.cluster in Oldest(forms.backup, kept) && Oldest(forms.backup, kept)[b.cluster].place <= b.first);
      var b := forms.backup(n).value.base.value;
      OldestIsOldest(forms.backup, kept, b.cluster);
      assert HasBase(forms.backup, n, b.cluster);
      assert NeedsAt(forms, n, path(n));
      assert path(n) in DoomedSegments(forms, kept, {path(n)});
    }
  }
}
