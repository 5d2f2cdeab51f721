/** The store a pass of the retention works on, and runs of uploads, archiving and passes. */
module BackupStore {
  import opened Text
  import opened Retention

  datatype Held = Held(names: set<string>, wal: set<string>, drills: set<string>)

  datatype Step =
    | Upload(objects: set<string>)
    | Archive(path: string)
    | Drill(report: string)
    | Pass(now: int, days: int)

  /** The backups past the retention, then the segments no kept base backup needs, then the drills'
      reports; nothing where the retention is refused. */
  function AfterPass(forms: Forms, h: Held, now: int, days: int): Held {
    if days < 0 then h
    else
      var limit := now - days * DAY;
      var kept := h.names - Stale(forms.backup, h.names, limit);
      Held(kept, Left(forms, kept, h.wal), h.drills - Stale(forms.drill, h.drills, limit))
  }

  /** The segments left in the archive, given the backups kept. */
  function Left(forms: Forms, kept: set<string>, wal: set<string>): set<string> {
    wal - DoomedSegments(forms, Sorted(kept), wal)
  }

  /** Its name reads as a time before the days kept, and another's as a later one. */
  ghost predicate Outdated(read: Reader, objects: set<string>, n: string, now: int, days: int) {
    && read(n).Some? && read(n).value.at < now - days * 86400
    && exists m :: m in objects && read(m).Some? && read(n).value.at < read(m).value.at
  }

  class Store {
    var names: set<string>
    var wal: set<string>
    var drills: set<string>

    constructor ()
      ensures Contents() == Held({}, {}, {})
    {
      names, wal, drills := {}, {}, {};
    }

    function Contents(): Held
      reads this
    {
      Held(names, wal, drills)
    }

    /** One pass: backups, then segments, then reports. */
    method KeepRetention(forms: Forms, now: int, days: int, pointInTime: bool) returns (r: Outcome<seq<string>>)
      modifies this
      ensures Contents() == AfterPass(forms, old(Contents()), now, days)
      ensures r.NegativeRetention? <==> days < 0
      ensures r.Done? ==> forall n :: n in r.value <==> n in old(names) && n !in names
      ensures days < 0 ==> Contents() == old(Contents())
      ensures days >= 0 ==> forall n :: n in names <==>
                n in old(names) && !Outdated(forms.backup, old(names), n, now, days)
      ensures days >= 0 ==> forall n :: n in drills <==>
                n in old(drills) && !Outdated(forms.drill, old(drills), n, now, days)
    {
      if days < 0 { return NegativeRetention; }
      var doomed := DeleteStale(forms.backup, names, now, days);
      names := names - set n | n in doomed;
      DeleteSegments(forms, pointInTime);
      var reports := DeleteStale(forms.drill, drills, now, days);
      drills := drills - set n | n in reports;
      PassParts(forms, old(Contents()), now, days);
      StaleExactly(forms.backup, old(names), now - days * DAY);
      StaleExactly(forms.drill, old(drills), now - days * DAY);
      return Done(doomed);
    }

    /** The archive is only listed where it is asked for or a base backup is kept: where neither is
        so, there is nothing to delete in it. */
    method DeleteSegments(forms: Forms, pointInTime: bool)
      modifies this`wal
      ensures wal == Left(forms, names, old(wal))
    {
      var kept := Sorted(names);
      if pointInTime || exists n | n in kept :: forms.backup(n).Some? && forms.backup(n).value.base.Some? {
        var doomed := WalExpired(forms, kept, Sorted(wal));
        Listing(wal);
        wal := wal - set p | p in doomed;
      } else {
        NoBaseNoOldest(forms.backup, kept);
      }
    }
  }

  lemma Listing(s: set<string>)
    ensures (set x | x in Sorted(s)) == s
  {
  }

  /** What of a listing is past the retention. */
  method DeleteStale(read: Reader, objects: set<string>, now: int, days: int) returns (doomed: seq<string>)
    requires days >= 0
    ensures forall n :: n in doomed <==> n in Stale(read, objects, now - days * DAY)
    ensures (set n | n in doomed) == Stale(read, objects, now - days * DAY)
  {
    Listing(objects);
    var r := Expired(read, Sorted(objects), now, days);
    doomed := r.value;
  }

  lemma {:induction false} NoBaseNoOldest(read: Reader, objects: seq<string>)
    requires forall n | n in objects :: read(n).None? || read(n).value.base.None?
    ensures Oldest(read, objects) == map[]
  {
    if objects != [] {
      assert objects[|objects| - 1] in objects;
      NoBaseNoOldest(read, objects[..|objects| - 1]);
    }
  }

  lemma StaleOnce(read: Reader, objects: set<string>, limit: int)
    ensures var kept := objects - Stale(read, objects, limit); kept - Stale(read, kept, limit) == kept
  {
    SecondPassFindsNothing(read, objects, limit);
  }

  lemma LeftOnce(forms: Forms, kept: set<string>, again: set<string>, wal: set<string>)
    requires again == kept
    ensures Left(forms, again, Left(forms, kept, wal)) == Left(forms, kept, wal)
  {
    var order := Sorted(kept);
    assert Left(forms, kept, wal) == wal - DoomedSegments(forms, order, wal);
    DoomedOnce(forms, order, wal);
  }

  lemma DoomedOnce(forms: Forms, kept: seq<string>, wal: set<string>)
    ensures DoomedSegments(forms, kept, wal - DoomedSegments(forms, kept, wal)) == {}
  {
  }

  lemma PassParts(forms: Forms, h: Held, now: int, days: int)
    requires days >= 0
    ensures var limit, after := now - days * DAY, AfterPass(forms, h, now, days);
            && after.names == h.names - Stale(forms.backup, h.names, limit)
            && after.wal == Left(forms, after.names, h.wal)
            && after.drills == h.drills - Stale(forms.drill, h.drills, limit)
  {
  }

  /** A second pass at the same time deletes nothing: no backup, no segment, no report. */
  lemma PassTwice(forms: Forms, h: Held, now: int, days: int)
    ensures AfterPass(forms, AfterPass(forms, h, now, days), now, days) == AfterPass(forms, h, now, days)
  {
    if days >= 0 {
      var once := AfterPass(forms, h, now, days);
      var twice := AfterPass(forms, once, now, days);
      PassParts(forms, h, now, days);
      PassParts(forms, once, now, days);
      StaleOnce(forms.backup, h.names, now - days * DAY);
      StaleOnce(forms.drill, h.drills, now - days * DAY);
      LeftOnce(forms, once.names, twice.names, h.wal);
    }
  }

  // --- runs --------------------------------------------------------------------------------------------------------

  function Do(forms: Forms, h: Held, s: Step): Held {
    match s
    case Upload(objects) => h.(names := h.names + objects)
    case Archive(path) => h.(wal := h.wal + {path})
    case Drill(report) => h.(drills := h.drills + {report})
    case Pass(now, days) => AfterPass(forms, h, now, days)
  }

  function Run(forms: Forms, h: Held, steps: seq<Step>): Held
    decreases |steps|
  {
    if steps == [] then h else Run(forms, Do(forms, h, steps[0]), steps[1..])
  }

  /** Every backup object uploaded is one of `all`, and the base backup `n` is not uploaded again. */
  ghost predicate Among(steps: seq<Step>, all: set<string>, n: string) {
    forall k | 0 <= k < |steps| :: steps[k].Upload? ==> steps[k].objects <= all && n !in steps[k].objects
  }

  ghost predicate Rise(read: Reader, all: set<string>) { FirstsRise(read, Sorted(all)) }

  lemma RiseOfFewer(read: Reader, all: set<string>, fewer: set<string>)
    requires Rise(read, all) && fewer <= all
    ensures OldestFirst(read, Sorted(fewer))
  {
    assert FirstsRise(read, Sorted(fewer));
    RiseMeansFirst(read, Sorted(fewer));
  }

  lemma StepKeepsSegment(forms: Forms, h: Held, s: Step, all: set<string>, n: string, p: string)
    requires Rise(forms.backup, all) && h.names <= all && (s.Upload? ==> s.objects <= all)
    requires p in h.wal && forms.segment(p).Some? && Needs(forms.backup, n, forms.segment(p).value)
    ensures n in Do(forms, h, s).names ==> p in Do(forms, h, s).wal
  {
    if s.Pass? && s.days >= 0 {
      var kept := Do(forms, h, s).names;
      RiseOfFewer(forms.backup, all, kept);
      if n in kept { NeededSegmentsStay(forms, Sorted(kept), h.wal, n, p); }
    }
  }

  /** Over every run of uploads, archiving and passes at any times and retentions, where base backups
      start later in the log as they are younger: a segment a base backup needs, once archived, stays
      for as long as the base backup does. */
  lemma {:induction false} KeptBasesStayRecoverable(forms: Forms, h: Held, steps: seq<Step>, all: set<string>,
          n: string, p: string)
    requires Rise(forms.backup, all) && h.names <= all && Among(steps, all, n)
    requires n in h.names && p in h.wal && forms.segment(p).Some? && Needs(forms.backup, n, forms.segment(p).value)
    ensures n in Run(forms, h, steps).names ==> p in Run(forms, h, steps).wal
    decreases |steps|
  {
    if steps != [] {
      assert steps[0].Upload? ==> steps[0].objects <= all && n !in steps[0].objects;
      var next := Do(forms, h, steps[0]);
      StepKeepsSegment(forms, h, steps[0], all, n, p);
      ShiftAmong(steps, all, n);
      if n in next.names {
        KeptBasesStayRecoverable(forms, next, steps[1..], all, n, p);
      } else {
        GoneStaysGone(forms, next, steps[1..], all, n);
      }
    }
  }

  lemma ShiftAmong(steps: seq<Step>, all: set<string>, n: string)
    requires steps != [] && Among(steps, all, n)
    ensures Among(steps[1..], all, n)
  {
    forall k | 0 <= k < |steps| - 1 && steps[1..][k].Upload?
      ensures steps[1..][k].objects <= all && n !in steps[1..][k].objects
    {
      assert steps[1..][k] == steps[k + 1];
    }
  }

  lemma {:induction false} GoneStaysGone(forms: Forms, h: Held, steps: seq<Step>, all: set<string>, n: string)
    requires n !in h.names && Among(steps, all, n)
    ensures n !in Run(forms, h, steps).names
    decreases |steps|
  {
    if steps != [] {
      assert steps[0].Upload? ==> n !in steps[0].objects;
      ShiftAmong(steps, all, n);
      GoneStaysGone(forms, Do(forms, h, steps[0]), steps[1..], all, n);
    }
  }

  // --- segments of base backups yet to come -------------------------------------------------------------------------

  /** No base backup is kept at all, or one that needs the segment. */
  ghost predicate Covered(forms: Forms, kept: set<string>, p: string) {
    (forall n | n in kept :: !IsBase(forms.backup, n)) || exists m :: m in kept && NeedsAt(forms, m, p)
  }

  lemma OldestNeeds(forms: Forms, order: seq<string>, p: string)
    requires forms.segment(p).Some?
    requires var s := forms.segment(p).value;
             s.cluster in Oldest(forms.backup, order) && Oldest(forms.backup, order)[s.cluster].place <= s.place
    ensures exists m :: m in order && NeedsAt(forms, m, p)
  {
    var s := forms.segment(p).value;
    OldestIsOldest(forms.backup, order, s.cluster);
    var o := Oldest(forms.backup, order)[s.cluster];
    var m :| m in order && HasBase(forms.backup, m, s.cluster) && forms.backup(m).value.at == o.at
      && forms.backup(m).value.base.value.first == o.place;
    assert NeedsAt(forms, m, p);
  }

  lemma SomeOldest(forms: Forms, order: seq<string>, n: string)
    requires n in order && IsBase(forms.backup, n)
    ensures Oldest(forms.backup, order) != map[]
  {
    var c := FirstOf(forms.backup, n).cluster;
    OldestIsOldest(forms.backup, order, c);
    assert HasBase(forms.backup, n, c);
  }

  /** A pass leaves a segment exactly where no base backup is kept, or one that needs it. */
  lemma PassLeavesExactly(forms: Forms, kept: set<string>, wal: set<string>, p: string)
    requires p in wal && forms.segment(p).Some? && OldestFirst(forms.backup, Sorted(kept))
    ensures p in Left(forms, kept, wal) <==> Covered(forms, kept, p)
  {
    var order := Sorted(kept);
    if forall n | n in kept :: !IsBase(forms.backup, n) {
      NoBaseNoOldest(forms.backup, order);
    } else {
      var n :| n in kept && IsBase(forms.backup, n);
      SomeOldest(forms, order, n);
      if p in Left(forms, kept, wal) { OldestNeeds(forms, order, p); }
      if m :| m in kept && NeedsAt(forms, m, p) { NeededSegmentsStay(forms, order, wal, m, p); }
    }
  }

  /** Every backup object uploaded is one of `all`, and the segment is not archived again. */
  ghost predicate Once(steps: seq<Step>, all: set<string>, p: string) {
    forall k | 0 <= k < |steps| :: (steps[k].Upload? ==> steps[k].objects <= all) && steps[k] != Archive(p)
  }

  /** Every pass keeps no base backup, or one that needs the segment. */
  ghost predicate CoveredThroughout(forms: Forms, h: Held, steps: seq<Step>, p: string)
    decreases |steps|
  {
    steps != [] ==>
      && (steps[0].Pass? && steps[0].days >= 0 ==> Covered(forms, Do(forms, h, steps[0]).names, p))
      && CoveredThroughout(forms, Do(forms, h, steps[0]), steps[1..], p)
  }

  lemma ShiftOnce(steps: seq<Step>, all: set<string>, p: string)
    requires steps != [] && Once(steps, all, p)
    ensures Once(steps[1..], all, p)
  {
    forall k | 0 <= k < |steps| - 1
      ensures (steps[1..][k].Upload? ==> steps[1..][k].objects <= all) && steps[1..][k] != Archive(p)
    {
      assert steps[1..][k] == steps[k + 1];
    }
  }

  lemma {:induction false} LostStaysLost(forms: Forms, h: Held, steps: seq<Step>, all: set<string>, p: string)
    requires p !in h.wal && Once(steps, all, p)
    ensures p !in Run(forms, h, steps).wal
    decreases |steps|
  {
    if steps != [] {
      assert steps[0] != Archive(p);
      ShiftOnce(steps, all, p);
      LostStaysLost(forms, Do(forms, h, steps[0]), steps[1..], all, p);
    }
  }

  /** Over every run, a segment once archived is there at the end exactly where every pass kept no base
      backup, or one that needs it: whether or not the one that will need it is uploaded yet. */
  lemma {:induction false} SegmentStaysExactly(forms: Forms, h: Held, steps: seq<Step>, all: set<string>, p: string)
    requires Rise(forms.backup, all) && h.names <= all && Once(steps, all, p)
    requires p in h.wal && forms.segment(p).Some?
    ensures p in Run(forms, h, steps).wal <==> CoveredThroughout(forms, h, steps, p)
    decreases |steps|
  {
    if steps != [] {
      assert (steps[0].Upload? ==> steps[0].objects <= all) && steps[0] != Archive(p);
      var next := Do(forms, h, steps[0]);
      ShiftOnce(steps, all, p);
      if steps[0].Pass? && steps[0].days >= 0 {
        RiseOfFewer(forms.backup, all, next.names);
        PassLeavesExactly(forms, next.names, h.wal, p);
      }
      if p in next.wal {
        SegmentStaysExactly(forms, next, steps[1..], all, p);
      } else {
        LostStaysLost(forms, next, steps[1..], all, p);
      }
    }
  }

  /** Every pass keeps a base backup of the cluster at least as old as this one. */
  ghost predicate OlderKept(forms: Forms, h: Held, steps: seq<Step>, n: string)
    requires IsBase(forms.backup, n)
    decreases |steps|
  {
    steps != [] ==>
      && (steps[0].Pass? && steps[0].days >= 0 ==>
            exists m :: m in Do(forms, h, steps[0]).names && HasBase(forms.backup, m, FirstOf(forms.backup, n).cluster)
                        && forms.backup(m).value.at <= forms.backup(n).value.at)
      && OlderKept(forms, Do(forms, h, steps[0]), steps[1..], n)
  }

  lemma OlderNeeds(forms: Forms, all: set<string>, m: string, n: string, p: string)
    requires Rise(forms.backup, all) && m in all && n in all && NeedsAt(forms, n, p)
    requires HasBase(forms.backup, m, forms.segment(p).value.cluster) &&
             forms.backup(m).value.at <= forms.backup(n).value.at
    ensures NeedsAt(forms, m, p)
  {
    assert m in Sorted(all) && n in Sorted(all);
  }

  lemma {:induction false} OlderCovers(forms: Forms, h: Held, steps: seq<Step>, all: set<string>, n: string, p: string)
    requires Rise(forms.backup, all) && h.names <= all && Once(steps, all, p)
    requires n in all && IsBase(forms.backup, n) && NeedsAt(forms, n, p) && OlderKept(forms, h, steps, n)
    ensures CoveredThroughout(forms, h, steps, p)
    decreases |steps|
  {
    if steps != [] {
      var next := Do(forms, h, steps[0]);
      assert (steps[0].Upload? ==> steps[0].objects <= all) && steps[0] != Archive(p);
      ShiftOnce(steps, all, p);
      if steps[0].Pass? && steps[0].days >= 0 {
        var m :| m in next.names && HasBase(forms.backup, m, FirstOf(forms.backup, n).cluster)
          && forms.backup(m).value.at <= forms.backup(n).value.at;
        OlderNeeds(forms, all, m, n, p);
      }
      OlderCovers(forms, next, steps[1..], all, n, p);
    }
  }

  /** A base backup uploaded later finds the segments it needs that were archived before it, where every
      pass in between kept an older base backup of its cluster. */
  lemma LaterBaseFindsSegments(forms: Forms, h: Held, steps: seq<Step>, all: set<string>, n: string, p: string)
    requires Rise(forms.backup, all) && h.names <= all && Once(steps, all, p)
    requires n in all && IsBase(forms.backup, n) && NeedsAt(forms, n, p) && OlderKept(forms, h, steps, n)
    requires p in h.wal
    ensures p in Run(forms, h, steps + [Upload({n})]).wal && n in Run(forms, h, steps + [Upload({n})]).names
  {
    OlderCovers(forms, h, steps, all, n, p);
    SegmentStaysExactly(forms, h, steps, all, p);
    RunLast(forms, h, steps, Upload({n}));
  }

  lemma {:induction false} RunLast(forms: Forms, h: Held, steps: seq<Step>, s: Step)
    ensures Run(forms, h, steps + [s]) == Do(forms, Run(forms, h, steps), s)
    decreases |steps|
  {
    if steps == [] {
      assert [s][1..] == [] && steps + [s] == [s];
    } else {
      assert (steps + [s])[1..] == steps[1..] + [s];
      RunLast(forms, Do(forms, h, steps[0]), steps[1..], s);
    }
  }

  lemma OnlyBaseKept(forms: Forms, m: string, p: string, now: int, days: int)
    requires IsBase(forms.backup, m) && forms.segment(p).Some? && !NeedsAt(forms, m, p) && days >= 0
    ensures AfterPass(forms, Held({m}, {p}, {}), now, days) == Held({m}, {}, {})
  {
    OnlyBase(forms, m);
    PassLeavesExactly(forms, {m}, {p}, p);
    assert Stale(forms.backup, {m}, now - days * DAY) == {};
  }

  lemma RunThree(forms: Forms, h: Held, a: Step, b: Step, c: Step)
    ensures Run(forms, h, [a, b, c]) == Do(forms, Do(forms, Do(forms, h, a), b), c)
  {
    var none: seq<Step> := [];
    RunLast(forms, h, [a, b], c);
    RunLast(forms, h, [a], b);
    RunLast(forms, h, none, a);
    assert [a] + [b] == [a, b] && [a, b] + [c] == [a, b, c] && none + [a] == [a];
  }

  /** A segment archived before the first base backup of its cluster, with another cluster's kept: a pass
      deletes it, and the base backup uploaded then lacks a segment it needs. */
  lemma ArchivedTooEarly(forms: Forms, m: string, n: string, p: string, now: int, days: int)
    requires IsBase(forms.backup, m) && IsBase(forms.backup, n) && NeedsAt(forms, n, p) && days >= 0
    requires FirstOf(forms.backup, m).cluster != FirstOf(forms.backup, n).cluster
    ensures Run(forms, Held({m}, {}, {}), [Archive(p), Pass(now, days), Upload({n})]) == Held({m, n}, {}, {})
  {
    RunThree(forms, Held({m}, {}, {}), Archive(p), Pass(now, days), Upload({n}));
    OnlyBaseKept(forms, m, p, now, days);
    assert {m} + {n} == {m, n};
  }

  lemma OnlyBase(forms: Forms, m: string)
    requires IsBase(forms.backup, m)
    ensures OldestFirst(forms.backup, Sorted({m}))
  {
    RiseMeansFirst(forms.backup, Sorted({m}));
  }
}
