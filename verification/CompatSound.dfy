/** What the classifier's silence says of each keyword of two nodes it compared: no breaking finding,
    and none of the kinds it misjudges. */
module CompatSound {
  import opened Text
  import opened Json
  import opened Compat
  import opened Schema

  predicate Strings(j: Json) {
    j.Arr? && forall x | x in j.a :: x.Str?
  }

  /** A schema of listed keywords, each with a value of its kind, a `const` that is not null, and a
      `contains` that is not `true`. */
  predicate WellFormed(kind: Reading, s: Json)
    decreases s, 1
  {
    match s
    case Bool(_) => true
    case Obj(m) => forall k | k in m :: Formed(kind, s, k)
    case _ => false
  }

  predicate Formed(kind: Reading, s: Json, k: string)
    requires s.Obj? && k in s.m
    decreases s, 0
  {
    var x := s.m[k];
    && !kind(k).Unknown? && k != "$dynamicRef"
    && (kind(k).Sub() ==> WellFormed(kind, x))
    && match kind(k)
       case Type => x.Str? || Strings(x)
       case Enum => x.Arr?
       case Const => !x.Null?
       case Required => Strings(x)
       case DependentRequired => x.Obj? && forall n | n in x.m :: Strings(x.m[n])
       case Properties => x.Obj? && forall n | n in x.m :: WellFormed(kind, x.m[n])
       case Definitions => x.Obj? && forall n | n in x.m :: WellFormed(kind, x.m[n])
       case If => WellFormed(kind, x)
       case Not => WellFormed(kind, x)
       case Contains => x != Bool(true)
       case PrefixItems => x.Arr? && forall i | 0 <= i < |x.a| :: WellFormed(kind, x.a[i])
       case AllOf => x.Arr? && forall i | 0 <= i < |x.a| :: WellFormed(kind, x.a[i])
       case AnyOf => x.Arr? && forall i | 0 <= i < |x.a| :: WellFormed(kind, x.a[i])
       case OneOf => x.Arr? && forall i | 0 <= i < |x.a| :: WellFormed(kind, x.a[i])
       case Bound(_, _) => x.Num?
       case Constraint => x.Str? || x.Num?
       case Reference => x.Str?
       case UniqueItems => x.Bool?
       case _ => true
  }

  /** How many items match is asked for. */
  predicate Counts(m: map<string, Json>) { "minContains" in m || "maxContains" in m }

  /** Wherever the classifier compares two values: where it finds them equal, no boolean meets a
      number; where it does not, a keyword that counts is the same, and so is a node that speaks of
      what it leaves unevaluated. */
  predicate Steady(kind: Reading, was: Json, now: Json)
    decreases was, 1
  {
    if PyEq(was, now) then !Punned(was, now)
    else was.Obj? && now.Obj? ==> forall k | k in was.m.Keys + now.m.Keys :: SteadyKey(kind, was, now, k)
  }

  predicate SteadyKey(kind: Reading, was: Json, now: Json, k: string)
    requires was.Obj? && now.Obj?
    decreases was, 0
  {
    var before, after := Get(was.m, k), Get(now.m, k);
    && !kind(k).Unevaluated?
    && if PyEq(before, after) then !Punned(before, after)
       else if kind(k).OneOf? then false
       else if kind(k).Bound? then !kind(k).of.MatchCount?
       else if kind(k).Contains? then
         !Counts(was.m) && !Counts(now.m) && (k in was.m && k in now.m ==> Steady(kind, was.m[k], now.m[k]))
       else if kind(k).Named() then
         k in was.m && was.m[k].Obj? ==>
           forall n | n in was.m[k].m && n in Members(after) :: Steady(kind, was.m[k].m[n], Members(after)[n])
       else if kind(k).PrefixItems? then
         k in was.m && was.m[k].Arr? ==>
           forall i | 0 <= i < |was.m[k].a| && i < |Subschemas(after)| ::
             Steady(kind, was.m[k].a[i], Subschemas(after)[i])
       else if kind(k).Combined() then k in was.m && was.m[k].Arr? ==> SteadyBranches(kind, was.m[k], after)
       else if kind(k).Sub() then k in was.m && k in now.m ==> Steady(kind, was.m[k], now.m[k])
       else true
  }

  /** Any two branches, whichever the classifier compares. */
  predicate SteadyBranches(kind: Reading, before: Json, after: Json)
    requires before.Arr?
    decreases before, 2
  {
    forall i, j | 0 <= i < |before.a| && 0 <= j < |Subschemas(after)| ::
      MayCompare(before.a, Subschemas(after), i, j) ==> Steady(kind, before.a[i], Subschemas(after)[j])
  }

  /** The two branches are compared, or one is taken as the other's equal. */
  predicate MayCompare(before: seq<Json>, after: seq<Json>, i: nat, j: nat)
    requires i < |before| && j < |after|
  {
    PyEq(before[i], after[j]) || LeftTogether(before, after, i, j)
  }

  predicate LeftTogether(before: seq<Json>, after: seq<Json>, i: nat, j: nat)
    requires i < |before| && j < |after|
  {
    var rest := Unmatched(Enumerated(before), Enumerated(after));
    exists n | 0 <= n < |rest.0| && n < |rest.1| :: rest.0[n] == (i, before[i]) && rest.1[n] == (j, after[j])
  }

  /** The kinds the classifier calls compatible although a document can be lost by them: a
      property added to a node that does not refuse names it does not list, a positional subschema
      lost where `items` takes its place, and a schema retired that others may refer to. */
  predicate Misjudged(w: What) {
    (w.NameAdded? && !w.closed) || (w.LostSubschema? && w.taken) || w.SchemaRetired?
  }

  ghost predicate Quiet(fs: seq<Finding>) {
    forall f | f in fs :: !f.breaking && !Misjudged(f.what)
  }

  lemma QuietSum(a: seq<Finding>, b: seq<Finding>)
    ensures Quiet(a + b) <==> Quiet(a) && Quiet(b)
  {
    if Quiet(a + b) {
      forall f | f in a ensures !f.breaking && !Misjudged(f.what) { assert f in a + b; }
      forall f | f in b ensures !f.breaking && !Misjudged(f.what) { assert f in a + b; }
    }
  }

  lemma NotQuiet(f: Finding)
    requires f.breaking || Misjudged(f.what)
    ensures !Quiet([f])
  {
    assert f in [f];
  }

  /** One keyword: unchanged, or every finding of it harmless. */
  ghost predicate KeyQuiet(kind: Reading, k: string, was: Json, now: Json)
    requires was.Obj? && now.Obj?
  {
    PyEq(Get(was.m, k), Get(now.m, k)) || exists at :: Quiet(AtKey(kind, k, was, now, at))
  }

  ghost predicate NodeQuiet(kind: Reading, was: Json, now: Json) {
    exists at :: Quiet(Compare(kind, was, now, at))
  }

  lemma {:induction false} OverKeysQuiet(kind: Reading, was: Json, now: Json, keys: seq<string>, at: Pointer)
    requires was.Obj? && now.Obj? && Quiet(OverKeys(kind, was, now, keys, at))
    ensures forall k | k in keys :: KeyQuiet(kind, k, was, now)
  {
    if keys != [] {
      QuietSum(if PyEq(Get(was.m, keys[0]), Get(now.m, keys[0])) then []
        else AtKey(kind, keys[0], was, now, at + [Name(keys[0])]),
               OverKeys(kind, was, now, keys[1..], at));
      OverKeysQuiet(kind, was, now, keys[1..], at);
    }
  }

  /** A quiet comparison is quiet keyword by keyword. */
  lemma CompareQuiet(kind: Reading, was: Json, now: Json, k: string)
    requires was.Obj? && now.Obj? && NodeQuiet(kind, was, now)
    ensures KeyQuiet(kind, k, was, now)
  {
    var at :| Quiet(Compare(kind, was, now, at));
    if PyEq(was, now) {
      PyEqObj(was.m, now.m);
    } else if k in was.m || k in now.m {
      OverKeysQuiet(kind, was, now, Sorted(was.m.Keys + now.m.Keys), at);
    }
  }

  lemma EqualIsQuiet(kind: Reading, was: Json, now: Json)
    requires PyEq(was, now)
    ensures NodeQuiet(kind, was, now)
  {
    assert Quiet(Compare(kind, was, now, []));
  }

  /** Two nodes compared in silence, with nothing the silence does not speak for. */
  ghost predicate Silent(kind: Reading, was: Json, now: Json) {
    NodeQuiet(kind, was, now) && Steady(kind, was, now)
  }

  /** Two nodes of objects, well-formed, compared in silence. */
  ghost predicate Compared(kind: Reading, was: Json, now: Json) {
    was.Obj? && now.Obj? && WellFormed(kind, was) && WellFormed(kind, now) && Silent(kind, was, now)
  }

  lemma EqualIsSilent(kind: Reading, x: Json)
    ensures Silent(kind, x, x)
  {
    EqualIsQuiet(kind, x, x);
    PunnedExactly(x, x);
  }

  /** What a pair of nodes was asked, each of its keywords is. */
  lemma SteadyOf(kind: Reading, was: Json, now: Json, k: string)
    requires was.Obj? && now.Obj? && Steady(kind, was, now) && (k in was.m || k in now.m)
    ensures SteadyKey(kind, was, now, k) || was == now
    ensures PyEq(Get(was.m, k), Get(now.m, k)) ==> Get(was.m, k) == Get(now.m, k)
  {
    if PyEq(was, now) {
      PunnedExactly(was, now);
    } else if PyEq(Get(was.m, k), Get(now.m, k)) {
      PunnedExactly(Get(was.m, k), Get(now.m, k));
    }
  }

  /** A quiet comparison of two well-formed nodes has objects on both sides, or widens. */
  lemma QuietShapes(kind: Reading, was: Json, now: Json)
    requires NodeQuiet(kind, was, now) && WellFormed(kind, was) && WellFormed(kind, now)
    ensures (was.Obj? && now.Obj?) || was == Bool(false) || now == Bool(true)
  {
    var at :| Quiet(Compare(kind, was, now, at));
    if was.Bool? || now.Bool? {
      if was == Bool(true) || now == Bool(false) {
        if !PyEq(was, now) { NotQuiet(Finding(at, true, AdmitsLess)); }
      }
    }
  }

  // --- what each keyword's silence says -----------------------------------------------------------------------

  lemma KeyOf(kind: Reading, was: Json, now: Json, k: string)
    requires Compared(kind, was, now) && (k in was.m || k in now.m)
    ensures KeyQuiet(kind, k, was, now)
    ensures k in was.m ==> Formed(kind, was, k)
    ensures k in now.m ==> Formed(kind, now, k)
    ensures PyEq(Get(was.m, k), Get(now.m, k)) ==> Get(was.m, k) == Get(now.m, k)
  {
    CompareQuiet(kind, was, now, k);
    SteadyOf(kind, was, now, k);
  }

  /** What silence says of a keyword: unchanged, or quiet and steady. */
  ghost predicate KeySilent(kind: Reading, was: Json, now: Json, k: string)
    requires was.Obj? && now.Obj?
  {
    || Get(was.m, k) == Get(now.m, k)
    || (!PyEq(Get(was.m, k), Get(now.m, k)) && SteadyKey(kind, was, now, k) &&
      exists at :: Quiet(AtKey(kind, k, was, now, at)))
  }

  lemma KeyIsSilent(kind: Reading, was: Json, now: Json, k: string)
    requires Compared(kind, was, now)
    ensures KeySilent(kind, was, now, k)
  {
    if k in was.m || k in now.m {
      CompareQuiet(kind, was, now, k);
      SteadyOf(kind, was, now, k);
    }
  }

  lemma KeySetWidens(kind: Reading, was: Json, now: Json, k: string)
    requires was.Obj? && now.Obj? && KeySilent(kind, was, now, k) && (kind(k).Type? || kind(k).Enum?)
    requires k in now.m && !now.m[k].Null?
    ensures k in was.m && Elements(was.m[k]) <= Elements(now.m[k])
  {
    var before, after := Get(was.m, k), now.m[k];
    if before != after {
      var at :| Quiet(AtKey(kind, k, was, now, at));
      var f := SetChange(Admitted(before), Admitted(after), at);
      assert AtKey(kind, k, was, now, at) == f;
      assert f[0] in f;
    }
  }

  lemma SetWidens(kind: Reading, was: Json, now: Json, k: string)
    requires Compared(kind, was, now) && (kind(k).Type? || kind(k).Enum?) && k in now.m
    ensures k in was.m && Elements(was.m[k]) <= Elements(now.m[k])
  {
    KeyOf(kind, was, now, k);
    KeyIsSilent(kind, was, now, k);
    KeySetWidens(kind, was, now, k);
  }

  lemma ConstraintLoud(kind: Reading, was: Json, now: Json, k: string, at: Pointer)
    requires was.Obj? && now.Obj? && (kind(k).Constraint? || kind(k).Const?) && !Get(now.m, k).Null?
    ensures !Quiet(AtKey(kind, k, was, now, at))
  {
    NotQuiet(Finding(at, true, ConstraintSet));
  }

  lemma ConstraintKept(kind: Reading, was: Json, now: Json, k: string)
    requires was.Obj? && now.Obj? && KeySilent(kind, was, now, k) && (kind(k).Constraint? || kind(k).Const?)
    requires k in now.m && !now.m[k].Null?
    ensures k in was.m && was.m[k] == now.m[k]
  {
    if Get(was.m, k) != now.m[k] {
      var at :| Quiet(AtKey(kind, k, was, now, at));
      ConstraintLoud(kind, was, now, k, at);
    }
  }

  lemma KeyUnchanged(kind: Reading, was: Json, now: Json, k: string)
    requires was.Obj? && now.Obj? && KeyQuiet(kind, k, was, now)
    requires kind(k).If? || kind(k).Not? || kind(k).Reference?
    ensures PyEq(Get(was.m, k), Get(now.m, k))
  {
    if !PyEq(Get(was.m, k), Get(now.m, k)) {
      var at :| Quiet(AtKey(kind, k, was, now, at));
      NotQuiet(Finding(at, true, if kind(k).Reference? then IdentityChanged else ConditionChanged));
    }
  }

  lemma Unchanged(kind: Reading, was: Json, now: Json, k: string)
    requires Compared(kind, was, now) && (kind(k).If? || kind(k).Not? || kind(k).Reference?) &&
             (k in was.m || k in now.m)
    ensures Get(was.m, k) == Get(now.m, k)
  {
    KeyOf(kind, was, now, k);
    KeyUnchanged(kind, was, now, k);
  }

  /** A keyword that counts, and one counted, is the same on both sides. */
  lemma SteadyCounts(kind: Reading, was: Json, now: Json, k: string)
    requires was.Obj? && now.Obj? && SteadyKey(kind, was, now, k)
    requires kind(k).OneOf? || (kind(k).Bound? && kind(k).of.MatchCount?)
             || (kind(k).Contains? && (Counts(was.m) || Counts(now.m)))
    ensures PyEq(Get(was.m, k), Get(now.m, k))
  {
  }

  lemma CountedUnchanged(kind: Reading, was: Json, now: Json, k: string)
    requires was.Obj? && now.Obj? && Steady(kind, was, now) && (k in was.m || k in now.m)
    requires kind(k).OneOf? || (kind(k).Bound? && kind(k).of.MatchCount?)
             || (kind(k).Contains? && (Counts(was.m) || Counts(now.m)))
    ensures Get(was.m, k) == Get(now.m, k)
  {
    SteadyOf(kind, was, now, k);
    if was != now { SteadyCounts(kind, was, now, k); }
  }

  /** A node that speaks of what it leaves unevaluated is the same on both sides. */
  lemma UnevaluatedUnchanged(kind: Reading, was: Json, now: Json, k: string)
    requires was.Obj? && now.Obj? && Steady(kind, was, now) && kind(k).Unevaluated? && k in now.m
    ensures was == now
  {
    SteadyOf(kind, was, now, k);
  }

  lemma AtKeyBound(kind: Reading, k: string, was: Json, now: Json, here: Pointer)
    requires was.Obj? && now.Obj? && kind(k).Bound?
    ensures AtKey(kind, k, was, now, here) == BoundChange(kind(k).lower, Get(was.m, k), Get(now.m, k), here)
  {
  }

  lemma BoundLoosens(kind: Reading, was: Json, now: Json, k: string)
    requires Compared(kind, was, now) && kind(k).Bound? && k in now.m
    ensures k in was.m
    ensures if kind(k).lower then Number(now.m[k]) <= Number(was.m[k]) else Number(was.m[k]) <= Number(now.m[k])
  {
    KeyOf(kind, was, now, k);
    var before, after := Get(was.m, k), now.m[k];
    if !PyEq(before, after) {
      var at :| Quiet(AtKey(kind, k, was, now, at));
      AtKeyBound(kind, k, was, now, at);
      var f := BoundChange(kind(k).lower, before, after, at);
      assert f[0] in f;
    }
  }

  lemma UniquenessKept(kind: Reading, was: Json, now: Json, k: string)
    requires Compared(kind, was, now) && kind(k).UniqueItems? && k in now.m && now.m[k] == Bool(true)
    ensures k in was.m && was.m[k] == Bool(true)
  {
    KeyOf(kind, was, now, k);
    if !PyEq(Get(was.m, k), now.m[k]) {
      var at :| Quiet(AtKey(kind, k, was, now, at));
      NotQuiet(Finding(at, true, NowUnique));
    }
  }

  lemma AtKeySub(kind: Reading, k: string, was: Json, now: Json, at: Pointer)
    requires was.Obj? && now.Obj? && kind(k).Sub()
    ensures AtKey(kind, k, was, now, at) == Sub(kind, k, was, now, at)
  {
    match kind(k)
    case Items =>
    case Contains =>
    case PropertyNames =>
    case AdditionalProperties =>
    case Unevaluated(_) =>
    case Then =>
    case Else =>
  }

  lemma TrueNarrows(after: Json, at: Pointer)
    requires (after.Bool? || after.Obj?) && after != Bool(true)
    ensures !Quiet(CompareBool(Bool(true), after, at))
  {
    assert !PyEq(Bool(true), after);
    NotQuiet(Finding(at, true, AdmitsLess));
  }

  lemma KeySubWidens(kind: Reading, was: Json, now: Json, k: string)
    requires was.Obj? && now.Obj? && KeySilent(kind, was, now, k) && kind(k).Sub()
    requires k in now.m && (now.m[k].Bool? || now.m[k].Obj?) && now.m[k] != Bool(true)
    ensures k in was.m && Silent(kind, was.m[k], now.m[k])
  {
    var before, after := Get(was.m, k), now.m[k];
    if before == after {
      EqualIsSilent(kind, before);
    } else {
      var at :| Quiet(AtKey(kind, k, was, now, at));
      AtKeySub(kind, k, was, now, at);
      TrueNarrows(after, at);
      assert !before.Null?;
      assert Quiet(Compare(kind, before, after, at));
      assert k in was.m;
      SteadySub(kind, was, now, k);
    }
  }

  lemma SteadySub(kind: Reading, was: Json, now: Json, k: string)
    requires was.Obj? && now.Obj? && SteadyKey(kind, was, now, k) && kind(k).Sub() && k in was.m && k in now.m
    requires !PyEq(was.m[k], now.m[k])
    ensures Steady(kind, was.m[k], now.m[k])
  {
    match kind(k)
    case Items =>
    case Contains =>
    case PropertyNames =>
    case AdditionalProperties =>
    case Then =>
    case Else =>
  }

  lemma SubWidens(kind: Reading, was: Json, now: Json, k: string)
    requires Compared(kind, was, now) && kind(k).Sub() && k in now.m && now.m[k] != Bool(true)
    ensures k in was.m && Silent(kind, was.m[k], now.m[k])
  {
    KeyOf(kind, was, now, k);
    KeyIsSilent(kind, was, now, k);
    KeySubWidens(kind, was, now, k);
  }

  lemma Loud(s: seq<Finding>)
    requires s != [] && s[0].breaking
    ensures !Quiet(s)
  {
    assert s[0] in s;
  }

  lemma RequirementsQuiet(before: set<string>, after: set<string>, at: Pointer)
    requires Quiet(Requirements(before, after, at))
    ensures after == before
  {
    var added, gone := Sorted(after - before), Sorted(before - after);
    var p := seq(|added|, i requires 0 <= i < |added| => Finding(at, true, NewlyRequired(added[i])));
    var q := seq(|gone|, i requires 0 <= i < |gone| => Finding(at, true, NoLongerRequired(gone[i])));
    assert Requirements(before, after, at) == p + q;
    if added != [] { Loud(p); }
    if gone != [] { Loud(q); }
    QuietSum(p, q);
    forall x ensures x in after <==> x in before {
      assert x in added <==> x in after - before;
      assert x in gone <==> x in before - after;
    }
  }

  lemma RequiredKept(kind: Reading, was: Json, now: Json, k: string)
    requires Compared(kind, was, now) && kind(k).Required? && k in now.m
    ensures Names(Get(was.m, k)) == Names(now.m[k])
  {
    KeyOf(kind, was, now, k);
    var before, after := Get(was.m, k), now.m[k];
    if !PyEq(before, after) {
      var at :| Quiet(AtKey(kind, k, was, now, at));
      RequirementsQuiet(Names(before), Names(after), at);
    }
  }

  lemma {:induction false} DependentsQuiet(before: map<string, Json>, after: map<string, Json>,
          names: seq<string>, at: Pointer)
    requires Quiet(Dependents(before, after, names, at))
    ensures forall n | n in names :: PyEq(Get(before, n), Get(after, n))
  {
    if names != [] {
      var first := if PyEq(Get(before, names[0]), Get(after, names[0])) then []
        else Breaking(at + [Name(names[0])], DependentChanged(names[0]));
      if first != [] { Loud(first); }
      QuietSum(first, Dependents(before, after, names[1..], at));
      DependentsQuiet(before, after, names[1..], at);
    }
  }

  lemma AtKeyDependents(kind: Reading, k: string, was: Json, now: Json, at: Pointer)
    requires was.Obj? && now.Obj? && kind(k).DependentRequired?
    ensures var before, after := Get(was.m, k), Get(now.m, k);
            AtKey(kind, k, was, now, at) == Dependents(Members(before), Members(after), Listed(before, after), at)
  {
  }

  lemma KeyDependents(kind: Reading, was: Json, now: Json, k: string, n: string)
    requires was.Obj? && now.Obj? && KeyQuiet(kind, k, was, now) && kind(k).DependentRequired?
    requires n in Members(Get(now.m, k)) && (k in was.m ==> was.m[k].Obj?)
    ensures PyEq(Get(Members(Get(was.m, k)), n), Members(Get(now.m, k))[n])
  {
    var before, after := Get(was.m, k), Get(now.m, k);
    if PyEq(before, after) {
      PyEqObj(before.m, after.m);
    } else {
      var at :| Quiet(AtKey(kind, k, was, now, at));
      AtKeyDependents(kind, k, was, now, at);
      AllDependents(before, after, at, n);
    }
  }

  lemma AllDependents(before: Json, after: Json, at: Pointer, n: string)
    requires Quiet(Dependents(Members(before), Members(after), Listed(before, after), at)) && n in Members(after)
    ensures PyEq(Get(Members(before), n), Members(after)[n])
  {
    DependentsQuiet(Members(before), Members(after), Listed(before, after), at);
    assert n in Listed(before, after);
  }

  lemma DependentKept(kind: Reading, was: Json, now: Json, k: string, n: string)
    requires Compared(kind, was, now) && kind(k).DependentRequired? && k in now.m && n in Members(now.m[k])
    ensures n in Members(Get(was.m, k)) && Members(Get(was.m, k))[n] == Members(now.m[k])[n]
  {
    KeyOf(kind, was, now, k);
    KeyDependents(kind, was, now, k, n);
    var x, y := Get(Members(Get(was.m, k)), n), Members(now.m[k])[n];
    StringsUnpunned(x, y);
    PunnedExactly(x, y);
  }

  lemma StringsUnpunned(x: Json, y: Json)
    requires Strings(y)
    ensures !Punned(x, y)
  {
    if x.Arr? {
      forall i | 0 <= i < |x.a| && i < |y.a| ensures !Punned(x.a[i], y.a[i]) { assert y.a[i] in y.a; }
    }
  }

  lemma {:induction false} NamedQuiet(kind: Reading, k: string, was: Json, now: Json, names: seq<string>, at: Pointer)
    requires was.Obj? && now.Obj? && Quiet(Named(kind, k, was, now, names, at))
    ensures forall n | n in names :: Quiet(AtName(kind, k, was, now, n, at + [Name(n)]))
  {
    if names != [] {
      QuietSum(AtName(kind, k, was, now, names[0], at + [Name(names[0])]), Named(kind, k, was, now, names[1..], at));
      NamedQuiet(kind, k, was, now, names[1..], at);
    }
  }

  lemma AtNameQuiet(kind: Reading, k: string, was: Json, now: Json, n: string, at: Pointer)
    requires was.Obj? && now.Obj? && Quiet(AtName(kind, k, was, now, n, at))
    requires n in Members(Get(was.m, k)) && n in Members(Get(now.m, k)) ==>
      Steady(kind, Members(Get(was.m, k))[n], Members(Get(now.m, k))[n])
    ensures NameKept(kind, k, was, now, n)
  {
    var before, after := Members(Get(was.m, k)), Members(Get(now.m, k));
    if n !in after {
      NotQuiet(Finding(at, true, NameRemoved(n)));
    } else if n !in before {
      var f := Finding(at, false,
        NameAdded(n, !kind(k).Properties? || Get(was.m, "additionalProperties") == Bool(false)));
      assert AtName(kind, k, was, now, n, at) == [f] && f in [f];
    } else {
      assert Quiet(Compare(kind, before[n], after[n], at));
    }
  }

  /** A name listed on either side is on the new one, compared where it was on the old, and added
      among properties only where the old node refuses names it does not list. */
  ghost predicate NameKept(kind: Reading, k: string, was: Json, now: Json, n: string)
    requires was.Obj? && now.Obj?
  {
    var before, after := Members(Get(was.m, k)), Members(Get(now.m, k));
    && n in after
    && (n in before ==> Silent(kind, before[n], after[n]))
    && (n !in before && kind(k).Properties? ==> Get(was.m, "additionalProperties") == Bool(false))
  }

  lemma SteadyName(kind: Reading, was: Json, now: Json, k: string, n: string)
    requires was.Obj? && now.Obj? && SteadyKey(kind, was, now, k) && kind(k).Named()
    requires !PyEq(Get(was.m, k), Get(now.m, k))
    requires n in Members(Get(was.m, k)) && n in Members(Get(now.m, k))
    ensures Steady(kind, Members(Get(was.m, k))[n], Members(Get(now.m, k))[n])
  {
  }

  lemma AtKeyNamed(kind: Reading, k: string, was: Json, now: Json, at: Pointer)
    requires was.Obj? && now.Obj? && kind(k).Named()
    ensures AtKey(kind, k, was, now, at) == Named(kind, k, was, now, Listed(Get(was.m, k), Get(now.m, k)), at)
  {
    match kind(k)
    case Properties =>
    case Definitions =>
  }

  lemma NameIsQuiet(kind: Reading, was: Json, now: Json, k: string, n: string, at: Pointer)
    requires was.Obj? && now.Obj? && Quiet(Named(kind, k, was, now, Listed(Get(was.m, k), Get(now.m, k)), at))
    requires n in Members(Get(was.m, k)) || n in Members(Get(now.m, k))
    ensures Quiet(AtName(kind, k, was, now, n, at + [Name(n)]))
  {
    NamedQuiet(kind, k, was, now, Listed(Get(was.m, k), Get(now.m, k)), at);
    assert n in Listed(Get(was.m, k), Get(now.m, k));
  }

  lemma ListedNameKept(kind: Reading, was: Json, now: Json, k: string, n: string, at: Pointer)
    requires was.Obj? && now.Obj? && kind(k).Named() && Quiet(AtName(kind, k, was, now, n, at))
    requires SteadyKey(kind, was, now, k) && !PyEq(Get(was.m, k), Get(now.m, k))
    ensures NameKept(kind, k, was, now, n)
  {
    if n in Members(Get(was.m, k)) && n in Members(Get(now.m, k)) { SteadyName(kind, was, now, k, n); }
    AtNameQuiet(kind, k, was, now, n, at);
  }

  lemma NamesKept(kind: Reading, was: Json, now: Json, k: string, n: string)
    requires was.Obj? && now.Obj? && KeySilent(kind, was, now, k) && kind(k).Named()
    requires n in Members(Get(was.m, k)) || n in Members(Get(now.m, k))
    ensures NameKept(kind, k, was, now, n)
  {
    if Get(was.m, k) == Get(now.m, k) {
      EqualIsSilent(kind, Members(Get(now.m, k))[n]);
    } else {
      var at :| Quiet(AtKey(kind, k, was, now, at));
      AtKeyNamed(kind, k, was, now, at);
      NameIsQuiet(kind, was, now, k, n, at);
      ListedNameKept(kind, was, now, k, n, at + [Name(n)]);
    }
  }

  // --- combinations ---------------------------------------------------------------------------------------------

  lemma {:induction false} PairedQuiet(kind: Reading, k: string, was: Json, now: Json, olds: seq<(nat, Json)>,
          news: seq<(nat, Json)>, at: Pointer)
    requires was.Obj? && now.Obj?
    requires forall p | p in olds :: p.1 in Subschemas(Get(was.m, k))
    requires Quiet(Paired(kind, k, was, now, olds, news, at))
    ensures forall i | 0 <= i < |olds| && i < |news| :: NodeQuiet(kind, olds[i].1, news[i].1)
    ensures |olds| < |news| ==> !kind(k).Narrowing()
    ensures |news| < |olds| ==> kind(k).Narrowing() && (kind(k).PrefixItems? ==> Get(now.m, "items").Null?)
    decreases |olds| + |news|
  {
    if olds == [] && news == [] {
    } else if news == [] {
      var f := Finding(at + [Index(olds[0].0)], !kind(k).Narrowing(),
        LostSubschema(kind(k).PrefixItems? && !Get(now.m, "items").Null?));
      QuietSum([f], Paired(kind, k, was, now, olds[1..], [], at));
      assert f in [f];
    } else if olds == [] {
      var f := Finding(at + [Index(news[0].0)], kind(k).Narrowing(), GainedSubschema);
      QuietSum([f], Paired(kind, k, was, now, [], news[1..], at));
      assert f in [f];
    } else {
      assert olds[0].1 in Subschemas(Get(was.m, k));
      QuietSum(Compare(kind, olds[0].1, news[0].1, at + [Index(news[0].0)]),
        Paired(kind, k, was, now, olds[1..], news[1..], at));
      assert NodeQuiet(kind, olds[0].1, news[0].1);
      PairedQuiet(kind, k, was, now, olds[1..], news[1..], at);
      forall i | 0 <= i < |olds| && i < |news| ensures NodeQuiet(kind, olds[i].1, news[i].1) {
        if i > 0 {
          assert olds[1..][i - 1] == olds[i] && news[1..][i - 1] == news[i];
        }
      }
    }
  }

  /** A subschema that is not left over found its equal on the other side. */
  lemma {:induction false} UnmatchedLeft(olds: seq<(nat, Json)>, news: seq<(nat, Json)>)
    ensures forall o | o in olds :: o in Unmatched(olds, news).0 || exists p :: p in news && PyEq(o.1, p.1)
    ensures forall p | p in news :: p in Unmatched(olds, news).1 || exists o :: o in olds && PyEq(o.1, p.1)
  {
    if olds != [] {
      var first := FirstEqual(olds[0].1, news);
      if first.Some? {
        var rest := Without(news, first.value);
        UnmatchedLeft(olds[1..], rest);
        assert forall p | p in rest :: p in news;
        assert news[first.value] in news;
        forall j | 0 <= j < |news|
          ensures news[j] in Unmatched(olds, news).1 || exists o :: o in olds && PyEq(o.1, news[j].1)
        {
          if j == first.value {
            assert olds[0] in olds && PyEq(olds[0].1, news[j].1);
          } else {
            InRest(news, first.value, j);
            if news[j] !in Unmatched(olds[1..], rest).1 {
              var o :| o in olds[1..] && PyEq(o.1, news[j].1);
              assert o in olds;
            }
          }
        }
      } else {
        UnmatchedLeft(olds[1..], news);
      }
    }
  }

  lemma InRest(news: seq<(nat, Json)>, i: nat, j: nat)
    requires i < |news| && j < |news| && i != j
    ensures news[j] in Without(news, i)
  {
    if j < i {
      assert Without(news, i)[j] == news[j];
    } else {
      assert Without(news, i)[j - 1] == news[j];
    }
  }

  lemma PrefixKept(kind: Reading, was: Json, now: Json, k: string)
    requires Compared(kind, was, now) && kind(k).PrefixItems?
    ensures var before, after := Subschemas(Get(was.m, k)), Subschemas(Get(now.m, k));
            && |after| <= |before|
            && (|after| < |before| ==> Get(now.m, "items").Null?)
            && forall i | 0 <= i < |after| :: Silent(kind, before[i], after[i])
  {
    KeyIsSilent(kind, was, now, k);
    var before, after := Get(was.m, k), Get(now.m, k);
    if before == after {
      forall i | 0 <= i < |Subschemas(after)| ensures Silent(kind, Subschemas(before)[i], Subschemas(after)[i]) {
        EqualIsSilent(kind, Subschemas(after)[i]);
      }
    } else {
      var at :| Quiet(AtKey(kind, k, was, now, at));
      ListQuiet(kind, was, now, k, at);
      SteadyList(kind, was, now, k);
    }
  }

  lemma SteadyList(kind: Reading, was: Json, now: Json, k: string)
    requires was.Obj? && now.Obj? && SteadyKey(kind, was, now, k) && kind(k).PrefixItems?
    requires !PyEq(Get(was.m, k), Get(now.m, k))
    ensures var before, after := Subschemas(Get(was.m, k)), Subschemas(Get(now.m, k));
            forall i | 0 <= i < |before| && i < |after| :: Steady(kind, before[i], after[i])
  {
  }

  lemma ListQuiet(kind: Reading, was: Json, now: Json, k: string, at: Pointer)
    requires was.Obj? && now.Obj? && kind(k).PrefixItems? && Quiet(AtKey(kind, k, was, now, at))
    ensures var before, after := Subschemas(Get(was.m, k)), Subschemas(Get(now.m, k));
            && |after| <= |before|
            && (|after| < |before| ==> Get(now.m, "items").Null?)
            && forall i | 0 <= i < |after| :: NodeQuiet(kind, before[i], after[i])
  {
    var before, after := Subschemas(Get(was.m, k)), Subschemas(Get(now.m, k));
    var olds, news := Enumerated(before), Enumerated(after);
    assert AtKey(kind, k, was, now, at) == Paired(kind, k, was, now, olds, news, at);
    PairedQuiet(kind, k, was, now, olds, news, at);
    forall i | 0 <= i < |after| ensures NodeQuiet(kind, before[i], after[i]) {
      assert olds[i].1 == before[i] && news[i].1 == after[i];
    }
  }

  /** The classifier sets the one branch against the other, in silence. */
  ghost predicate Faces(kind: Reading, before: seq<Json>, after: seq<Json>, i: nat, j: nat) {
    i < |before| && j < |after| && NodeQuiet(kind, before[i], after[j]) && MayCompare(before, after, i, j)
  }

  ghost predicate SomeOldFaces(kind: Reading, before: seq<Json>, after: seq<Json>, j: nat) {
    exists i :: Faces(kind, before, after, i, j)
  }

  ghost predicate SomeNewFaces(kind: Reading, before: seq<Json>, after: seq<Json>, i: nat) {
    exists j :: Faces(kind, before, after, i, j)
  }

  /** With nothing loud in a combination, each side of a pair finds the other. */
  lemma CombinationQuiet(kind: Reading, k: string, was: Json, now: Json, at: Pointer)
    requires was.Obj? && now.Obj? && Quiet(Combination(kind, k, was, now, at))
    requires kind(k).AllOf? || (kind(k).AnyOf? && k in now.m && !now.m[k].Null?)
    ensures var before, after := Subschemas(Get(was.m, k)), Subschemas(Get(now.m, k));
            && (kind(k).AllOf? ==> forall j: nat | j < |after| :: SomeOldFaces(kind, before, after, j))
            && (kind(k).AnyOf? ==> forall i: nat | i < |before| :: SomeNewFaces(kind, before, after, i))
  {
    if kind(k).AnyOf? && Get(was.m, k).Null? {
      NotQuiet(Finding(at, true, AlternativesAdded));
    } else {
      var before, after := Subschemas(Get(was.m, k)), Subschemas(Get(now.m, k));
      var rest := Unmatched(Enumerated(before), Enumerated(after));
      PairedQuiet(kind, k, was, now, rest.0, rest.1, at);
      if kind(k).AllOf? {
        forall j: nat | j < |after| ensures SomeOldFaces(kind, before, after, j) { CoveredNew(kind, before, after, j); }
      } else {
        forall i: nat | i < |before|
          ensures SomeNewFaces(kind, before, after, i)
        {
          CoveredOld(kind, before, after, i);
        }
      }
    }
  }

  lemma CoveredNew(kind: Reading, before: seq<Json>, after: seq<Json>, j: nat)
    requires j < |after|
    requires var rest := Unmatched(Enumerated(before), Enumerated(after));
             |rest.1| <= |rest.0| && forall n | 0 <= n < |rest.1| :: NodeQuiet(kind, rest.0[n].1, rest.1[n].1)
    ensures SomeOldFaces(kind, before, after, j)
  {
    var olds, news := Enumerated(before), Enumerated(after);
    var rest := Unmatched(olds, news);
    UnmatchedLeft(olds, news);
    assert news[j] in news;
    if news[j] in rest.1 {
      var n :| 0 <= n < |rest.1| && rest.1[n] == news[j];
      assert rest.0[n] in olds;
      var i :| 0 <= i < |olds| && olds[i] == rest.0[n];
      assert LeftTogether(before, after, i, j);
      assert Faces(kind, before, after, i, j);
    } else {
      var o :| o in olds && PyEq(o.1, news[j].1);
      var i :| 0 <= i < |olds| && olds[i] == o;
      EqualIsQuiet(kind, before[i], after[j]);
      assert Faces(kind, before, after, i, j);
    }
  }

  lemma CoveredOld(kind: Reading, before: seq<Json>, after: seq<Json>, i: nat)
    requires i < |before|
    requires var rest := Unmatched(Enumerated(before), Enumerated(after));
             |rest.0| <= |rest.1| && forall n | 0 <= n < |rest.0| :: NodeQuiet(kind, rest.0[n].1, rest.1[n].1)
    ensures SomeNewFaces(kind, before, after, i)
  {
    var olds, news := Enumerated(before), Enumerated(after);
    var rest := Unmatched(olds, news);
    UnmatchedLeft(olds, news);
    assert olds[i] in olds;
    if olds[i] in rest.0 {
      var n :| 0 <= n < |rest.0| && rest.0[n] == olds[i];
      assert rest.1[n] in news;
      var j :| 0 <= j < |news| && news[j] == rest.1[n];
      assert LeftTogether(before, after, i, j);
      assert Faces(kind, before, after, i, j);
    } else {
      var p :| p in news && PyEq(olds[i].1, p.1);
      var j :| 0 <= j < |news| && news[j] == p;
      EqualIsQuiet(kind, before[i], after[j]);
      assert Faces(kind, before, after, i, j);
    }
  }

  lemma SteadyCombination(kind: Reading, was: Json, now: Json, k: string)
    requires was.Obj? && now.Obj? && SteadyKey(kind, was, now, k) && (kind(k).AllOf? || kind(k).AnyOf?)
    requires !PyEq(Get(was.m, k), Get(now.m, k)) && k in was.m && was.m[k].Arr?
    ensures SteadyBranches(kind, was.m[k], Get(now.m, k))
  {
  }

  lemma SomeOld(kind: Reading, was: Json, now: Json, k: string, j: nat) returns (i: nat)
    requires was.Obj? && now.Obj? && kind(k).AllOf? && j < |Subschemas(Get(now.m, k))|
    requires exists at :: Quiet(AtKey(kind, k, was, now, at))
    ensures Faces(kind, Subschemas(Get(was.m, k)), Subschemas(Get(now.m, k)), i, j)
  {
    var at :| Quiet(AtKey(kind, k, was, now, at));
    assert AtKey(kind, k, was, now, at) == Combination(kind, k, was, now, at);
    CombinationQuiet(kind, k, was, now, at);
    assert SomeOldFaces(kind, Subschemas(Get(was.m, k)), Subschemas(Get(now.m, k)), j);
    i :| Faces(kind, Subschemas(Get(was.m, k)), Subschemas(Get(now.m, k)), i, j);
  }

  lemma SomeNew(kind: Reading, was: Json, now: Json, k: string, i: nat) returns (j: nat)
    requires was.Obj? && now.Obj? && kind(k).AnyOf? && k in now.m && !now.m[k].Null? && i < |Subschemas(Get(was.m, k))|
    requires exists at :: Quiet(AtKey(kind, k, was, now, at))
    ensures Faces(kind, Subschemas(Get(was.m, k)), Subschemas(Get(now.m, k)), i, j)
  {
    var at :| Quiet(AtKey(kind, k, was, now, at));
    assert AtKey(kind, k, was, now, at) == Combination(kind, k, was, now, at);
    CombinationQuiet(kind, k, was, now, at);
    assert SomeNewFaces(kind, Subschemas(Get(was.m, k)), Subschemas(Get(now.m, k)), i);
    j :| Faces(kind, Subschemas(Get(was.m, k)), Subschemas(Get(now.m, k)), i, j);
  }

  /** Every new branch of `allOf` has an old one at least as narrow. */
  lemma AllOfCovered(kind: Reading, was: Json, now: Json, k: string, j: nat) returns (i: nat)
    requires was.Obj? && now.Obj? && KeySilent(kind, was, now, k) && kind(k).AllOf? && j < |Subschemas(Get(now.m, k))|
    ensures i < |Subschemas(Get(was.m, k))| && Silent(kind, Subschemas(Get(was.m, k))[i], Subschemas(Get(now.m, k))[j])
  {
    if Get(was.m, k) == Get(now.m, k) {
      i := j;
      EqualIsSilent(kind, Subschemas(Get(now.m, k))[j]);
    } else {
      i := SomeOld(kind, was, now, k, j);
      SteadyCombination(kind, was, now, k);
    }
  }

  /** Every old branch of `anyOf` has a new one at least as wide. */
  lemma AnyOfCovered(kind: Reading, was: Json, now: Json, k: string, i: nat) returns (j: nat)
    requires was.Obj? && now.Obj? && KeySilent(kind, was, now, k) && kind(k).AnyOf?
    requires k in now.m && !now.m[k].Null? && i < |Subschemas(Get(was.m, k))|
    ensures j < |Subschemas(now.m[k])| && Silent(kind, Subschemas(Get(was.m, k))[i], Subschemas(now.m[k])[j])
  {
    if Get(was.m, k) == now.m[k] {
      j := i;
      EqualIsSilent(kind, Subschemas(now.m[k])[i]);
    } else {
      j := SomeNew(kind, was, now, k, i);
      SteadyCombination(kind, was, now, k);
    }
  }

  lemma AlternativesLoud(kind: Reading, was: Json, now: Json, k: string, at: Pointer)
    requires was.Obj? && now.Obj? && kind(k).AnyOf? && Get(was.m, k).Null?
    ensures !Quiet(AtKey(kind, k, was, now, at))
  {
    NotQuiet(Finding(at, true, AlternativesAdded));
  }

  /** An `anyOf` compared in silence was there before. */
  lemma AnyOfWasThere(kind: Reading, was: Json, now: Json, k: string)
    requires was.Obj? && now.Obj? && KeySilent(kind, was, now, k) && kind(k).AnyOf? && k in now.m && !now.m[k].Null?
    ensures k in was.m
  {
    if Get(was.m, k) != now.m[k] && k !in was.m {
      var at :| Quiet(AtKey(kind, k, was, now, at));
      AlternativesLoud(kind, was, now, k, at);
    }
  }
}
