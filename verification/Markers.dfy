/** A marker's key in the lock table: which tenant, and a bound below every position its
    transaction holds. */
module Markers {
  import opened Text

  const POSITION_LIMIT: bv64 := 0x100_0000_0000    // 2^40
  const KEY_LIMIT: bv64 := 0x80_0000               // 2^23
  const SIGN: bv64 := 0x8000_0000_0000_0000

  /** `~((key::bigint << 40) | below)`. */
  function Marker(key: bv64, below: bv64): bv64 {
    !((key << 40) | below)
  }

  /** An advisory lock as `pg_locks` shows it; a lock on one bigint has `subid` 1, on two integers 2. */
  datatype Lock = Lock(classid: bv64, objid: bv64, subid: nat, pid: nat)

  function OnBigint(value: bv64, pid: nat): Lock {
    Lock(value >> 32, value & 0xffff_ffff, 1, pid)
  }

  function Rejoined(l: Lock): bv64 { (l.classid << 32) | l.objid }

  /** The bound a marker of the tenant carries. */
  function BoundIn(marker: bv64, key: bv64): Option<bv64> {
    if (marker & SIGN) != 0 && (!marker >> 40) == key then Some(!marker & (POSITION_LIMIT - 1)) else None
  }

  /** What `ledger_open_below` reads of a lock: its bound, when it is a marker of the tenant that
      another session holds. */
  function Read(l: Lock, pid: nat, key: bv64): Option<bv64> {
    if l.subid == 1 && l.pid != pid then BoundIn(Rejoined(l), key) else None
  }

  lemma Rejoins(value: bv64, pid: nat)
    ensures Rejoined(OnBigint(value, pid)) == value
  {
  }

  lemma BoundReadsBack(marker: bv64, key: bv64, below: bv64)
    ensures BoundIn(marker, key) == Some(below)
            <==> (marker & SIGN) != 0 && (!marker >> 40) == key && (!marker & (POSITION_LIMIT - 1)) == below
  {
  }

  lemma OfAnother(marker: bv64, key: bv64, holder: nat, reader: nat)
    requires holder != reader
    ensures Read(OnBigint(marker, holder), reader, key) == BoundIn(marker, key)
  {
    Rejoins(marker, holder);
  }

  /** Another transaction's marker is read back as its tenant's, with its bound, exactly when the
      position fits 40 bits and the tenant's key 23. */
  lemma ReadsBackExactly(key: bv64, below: bv64, marker: bv64, holder: nat, reader: nat)
    requires holder != reader && marker == Marker(key, below)
    ensures Read(OnBigint(marker, holder), reader, key) == Some(below) <==> below < POSITION_LIMIT && key < KEY_LIMIT
  {
    ReadsBackBits(key, below);
    BoundReadsBack(marker, key, below);
    OfAnother(marker, key, holder, reader);
  }

  lemma ReadsBackBits(key: bv64, below: bv64)
    ensures var marker := Marker(key, below);
            ((marker & SIGN) != 0 && (!marker >> 40) == key && (!marker & (POSITION_LIMIT - 1)) == below)
            <==> below < POSITION_LIMIT && key < KEY_LIMIT
  {
  }

  lemma OtherKey(key: bv64, below: bv64, other: bv64)
    requires below < POSITION_LIMIT && key < KEY_LIMIT && other != key
    ensures BoundIn(Marker(key, below), other).None?
  {
  }

  /** A marker of one tenant is never read as another's. */
  lemma OtherTenantUnread(key: bv64, below: bv64, other: bv64, holder: nat, reader: nat)
    requires below < POSITION_LIMIT && key < KEY_LIMIT && other != key
    ensures Read(OnBigint(Marker(key, below), holder), reader, other).None?
  {
    Rejoins(Marker(key, below), holder);
    OtherKey(key, below, other);
  }

  function Position(bound: Option<bv64>): Option<int> {
    if bound.None? then None else Some(bound.value as int)
  }

  function Bounds(locks: seq<Lock>, pid: nat, key: bv64): seq<Option<int>> {
    seq(|locks|, i requires 0 <= i < |locks| => Position(Read(locks[i], pid, key)))
  }

  ghost predicate IsLeast(least: Option<int>, bounds: seq<Option<int>>) {
    && (least.None? <==> forall b | b in bounds :: b.None?)
    && (least.Some? ==> least in bounds)
    && (least.Some? ==> forall b | b in bounds && b.Some? :: least.value <= b.value)
  }

  method Least(bounds: seq<Option<int>>) returns (least: Option<int>)
    ensures IsLeast(least, bounds)
  {
    least := None;
    for i := 0 to |bounds|
      invariant IsLeast(least, bounds[..i])
    {
      assert bounds[..i + 1] == bounds[..i] + [bounds[i]];
      if bounds[i].Some? && (least.None? || bounds[i].value < least.value) {
        least := bounds[i];
      }
    }
    assert bounds[..|bounds|] == bounds;
  }

  /** `ledger_open_below`: the smallest bound of the tenant's markers that other sessions hold. */
  method OpenBelow(locks: seq<Lock>, pid: nat, key: bv64) returns (least: Option<int>)
    ensures IsLeast(least, Bounds(locks, pid, key))
  {
    least := Least(Bounds(locks, pid, key));
  }

  // --- the locks as sessions took them ------------------------------------------------------------------------------

  /** A session's marker; or any other lock, on two integers or on a number that is not negative. */
  datatype Taken = Mark(key: bv64, below: bv64, pid: nat) | Other(l: Lock)

  function LockOf(x: Taken): Lock {
    match x
    case Mark(key, below, pid) => OnBigint(Marker(key, below), pid)
    case Other(l) => l
  }

  predicate Proper(x: Taken) {
    match x
    case Mark(key, below, _) => below < 0x100_0000_0000 && key < 0x80_0000
    case Other(l) => l.subid != 1 || (((l.classid << 32) | l.objid) & 0x8000_0000_0000_0000) == 0
  }

  /** A marker of the tenant that another session holds. */
  predicate Stands(x: Taken, pid: nat, key: bv64) { x.Mark? && x.key == key && x.pid != pid }

  lemma ReadPlainly(x: Taken, pid: nat, key: bv64)
    requires Proper(x)
    ensures Read(LockOf(x), pid, key) == if Stands(x, pid, key) then Some(x.below) else None
  {
    if x.Mark? {
      Rejoins(Marker(x.key, x.below), x.pid);
      if x.pid != pid {
        if x.key == key { ReadsBackExactly(x.key, x.below, Marker(x.key, x.below), x.pid, pid); }
        else { OtherKey(x.key, x.below, key); }
      }
    }
  }

  predicate BoundsOf(bounds: seq<Option<int>>, taken: seq<Taken>, pid: nat, key: bv64) {
    && |bounds| == |taken|
    && forall i | 0 <= i < |taken| ::
         bounds[i] == if Stands(taken[i], pid, key) then Some(taken[i].below as int) else None
  }

  lemma BoundsAre(taken: seq<Taken>, locks: seq<Lock>, pid: nat, key: bv64)
    requires |locks| == |taken| && forall i | 0 <= i < |taken| :: locks[i] == LockOf(taken[i]) && Proper(taken[i])
    ensures BoundsOf(Bounds(locks, pid, key), taken, pid, key)
  {
    var bounds := Bounds(locks, pid, key);
    forall i | 0 <= i < |taken|
      ensures bounds[i] == if Stands(taken[i], pid, key) then Some(taken[i].below as int) else None
    {
      ReadPlainly(taken[i], pid, key);
    }
  }

  /** Over any locks, what is read is the smallest bound of the tenant's markers of other sessions, and nothing
      exactly where there is none. */
  lemma OpenBelowPlainly(taken: seq<Taken>, pid: nat, key: bv64, least: Option<int>)
    requires forall x | x in taken :: Proper(x)
    requires IsLeast(least, Bounds(seq(|taken|, i requires 0 <= i < |taken| => LockOf(taken[i])), pid, key))
    ensures least.None? <==> forall x | x in taken :: !Stands(x, pid, key)
    ensures least.Some? ==>
              && (exists x :: x in taken && Stands(x, pid, key) && x.below as int == least.value)
              && forall x | x in taken && Stands(x, pid, key) :: least.value <= x.below as int
  {
    var locks := seq(|taken|, i requires 0 <= i < |taken| => LockOf(taken[i]));
    BoundsAre(taken, locks, pid, key);
    LeastIs(taken, Bounds(locks, pid, key), pid, key, least);
  }

  lemma LeastIs(taken: seq<Taken>, bounds: seq<Option<int>>, pid: nat, key: bv64, least: Option<int>)
    requires BoundsOf(bounds, taken, pid, key) && IsLeast(least, bounds)
    ensures least.None? <==> forall x | x in taken :: !Stands(x, pid, key)
    ensures least.Some? ==>
              && (exists x :: x in taken && Stands(x, pid, key) && x.below as int == least.value)
              && forall x | x in taken && Stands(x, pid, key) :: least.value <= x.below as int
  {
    forall x | x in taken && Stands(x, pid, key) ensures Some(x.below as int) in bounds {
      var i :| 0 <= i < |taken| && taken[i] == x;
      assert bounds[i] == Some(x.below as int);
    }
    if least.Some? {
      var i :| 0 <= i < |bounds| && bounds[i] == least;
      assert taken[i] in taken;
    }
  }
}
