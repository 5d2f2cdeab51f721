/** Where findings stand: each at the member it was found at, or within it, and nowhere else. */
module Pointers {
  import opened Text
  import opened Json
  import opened Compat
  import opened CompatSound
  import opened CompatLimits

  /** The finding stands at the place, or within it. */
  predicate Under(f: Finding, p: Pointer) { p <= f.at }

  // --- every finding stands where it was found ----------------------------------------------------------------------

  ghost predicate AllUnder(fs: seq<Finding>, p: Pointer) { forall f | f in fs :: Under(f, p) }

  lemma {:induction false} CompareUnder(kind: Reading, was: Json, now: Json, at: Pointer)
    ensures AllUnder(Compare(kind, was, now, at), at)
    decreases was, 4, 0
  {
    if !was.Bool? && !now.Bool? && !PyEq(was, now) && was.Obj? && now.Obj? {
      OverKeysUnder(kind, was, now, Sorted(was.m.Keys + now.m.Keys), at);
    }
  }

  lemma {:induction false} OverKeysUnder(kind: Reading, was: Json, now: Json, keys: seq<string>, at: Pointer)
    requires was.Obj? && now.Obj?
    ensures AllUnder(OverKeys(kind, was, now, keys, at), at)
    decreases was, 3, |keys|
  {
    if keys != [] {
      AtKeyUnder(kind, keys[0], was, now, at + [Name(keys[0])]);
      OverKeysUnder(kind, was, now, keys[1..], at);
    }
  }

  lemma {:induction false} DependentsUnder(before: map<string, Json>, after: map<string, Json>, names: seq<string>,
          here: Pointer)
    ensures AllUnder(Dependents(before, after, names, here), here)
  {
    if names != [] { DependentsUnder(before, after, names[1..], here); }
  }

  lemma {:induction false} AtKeyUnder(kind: Reading, key: string, was: Json, now: Json, here: Pointer)
    requires was.Obj? && now.Obj?
    ensures AllUnder(AtKey(kind, key, was, now, here), here)
    decreases was, 2, 0
  {
    var before, after := Get(was.m, key), Get(now.m, key);
    if kind(key).Named() {
      AtKeyNamed(kind, key, was, now, here);
      NamedUnder(kind, key, was, now, Listed(before, after), here);
    } else if kind(key).Sub() {
      AtKeySub(kind, key, was, now, here);
      SubUnder(kind, key, was, now, here);
    } else if kind(key).Combined() {
      AtKeyCombination(kind, key, was, now, here);
      CombinationUnder(kind, key, was, now, here);
    } else if kind(key).PrefixItems? {
      AtKeyPrefix(kind, key, was, now, here);
      PairedUnder(kind, key, was, now, Enumerated(Subschemas(before)), Enumerated(Subschemas(after)), here);
    } else if kind(key).DependentRequired? {
      AtKeyDependents(kind, key, was, now, here);
      DependentsUnder(Members(before), Members(after), Listed(before, after), here);
    } else {
      LeafUnder(kind, key, was, now, here);
    }
  }

  lemma AtKeyCombination(kind: Reading, key: string, was: Json, now: Json, here: Pointer)
    requires was.Obj? && now.Obj? && kind(key).Combined()
    ensures AtKey(kind, key, was, now, here) == Combination(kind, key, was, now, here)
  {
    match kind(key)
    case AllOf =>
    case AnyOf =>
    case OneOf =>
  }

  lemma AtKeySet(kind: Reading, key: string, was: Json, now: Json, here: Pointer)
    requires was.Obj? && now.Obj? && (kind(key).Type? || kind(key).Enum?)
    ensures AtKey(kind, key, was, now, here)
            == SetChange(Admitted(Get(was.m, key)), Admitted(Get(now.m, key)), here)
  {
    match kind(key)
    case Type =>
    case Enum =>
  }

  lemma AtKeyRequired(kind: Reading, key: string, was: Json, now: Json, here: Pointer)
    requires was.Obj? && now.Obj? && kind(key).Required?
    ensures AtKey(kind, key, was, now, here) == Requirements(Names(Get(was.m, key)), Names(Get(now.m, key)), here)
  {
  }

  lemma AtKeyConstraint(kind: Reading, key: string, was: Json, now: Json, here: Pointer)
    requires was.Obj? && now.Obj? && (kind(key).Constraint? || kind(key).Const?)
    ensures AtKey(kind, key, was, now, here)
            == if Get(now.m, key).Null? then Compatible(here, ConstraintRemoved) else Breaking(here, ConstraintSet)
  {
    match kind(key)
    case Constraint =>
    case Const =>
  }

  lemma AtKeyUnique(kind: Reading, key: string, was: Json, now: Json, here: Pointer)
    requires was.Obj? && now.Obj? && kind(key).UniqueItems?
    ensures AtKey(kind, key, was, now, here)
            == if Truthy(Get(now.m, key)) then Breaking(here, NowUnique) else Compatible(here, NoLongerUnique)
  {
  }

  lemma AtKeyAnnotation(kind: Reading, key: string, was: Json, now: Json, here: Pointer)
    requires was.Obj? && now.Obj? && kind(key).Annotation?
    ensures AtKey(kind, key, was, now, here) == Compatible(here, AnnotationChanged)
  {
  }

  /** Keywords any change of which breaks. */
  predicate Fixed(k: Keyword) { k.Identity? || k.Reference? || k.If? || k.Not? || k.Unknown? }

  lemma AtKeyFixed(kind: Reading, key: string, was: Json, now: Json, here: Pointer)
    requires was.Obj? && now.Obj? && Fixed(kind(key))
    ensures exists what :: AtKey(kind, key, was, now, here) == Breaking(here, what)
  {
    match kind(key)
    case Identity => assert AtKey(kind, key, was, now, here) == Breaking(here, IdentityChanged);
    case Reference => assert AtKey(kind, key, was, now, here) == Breaking(here, IdentityChanged);
    case If => assert AtKey(kind, key, was, now, here) == Breaking(here, ConditionChanged);
    case Not => assert AtKey(kind, key, was, now, here) == Breaking(here, ConditionChanged);
    case Unknown => assert AtKey(kind, key, was, now, here) == Breaking(here, Unclassified);
  }

  predicate Leaf(k: Keyword) {
    !k.Named() && !k.Sub() && !k.Combined() && !k.PrefixItems? && !k.DependentRequired?
  }

  lemma LeafUnder(kind: Reading, key: string, was: Json, now: Json, here: Pointer)
    requires was.Obj? && now.Obj? && Leaf(kind(key))
    ensures AllUnder(AtKey(kind, key, was, now, here), here)
  {
    if kind(key).Type? || kind(key).Enum? || kind(key).Required? || kind(key).Bound? {
      OrderedUnder(kind, key, was, now, here);
    } else if kind(key).Constraint? || kind(key).Const? {
      AtKeyConstraint(kind, key, was, now, here);
    } else if kind(key).UniqueItems? {
      AtKeyUnique(kind, key, was, now, here);
    } else if kind(key).Annotation? {
      AtKeyAnnotation(kind, key, was, now, here);
    } else {
      AtKeyFixed(kind, key, was, now, here);
    }
  }

  lemma OrderedUnder(kind: Reading, key: string, was: Json, now: Json, here: Pointer)
    requires was.Obj? && now.Obj?
    requires kind(key).Type? || kind(key).Enum? || kind(key).Required? || kind(key).Bound?
    ensures AllUnder(AtKey(kind, key, was, now, here), here)
  {
    if kind(key).Required? {
      AtKeyRequired(kind, key, was, now, here);
    } else if kind(key).Bound? {
      AtKeyBound(kind, key, was, now, here);
    } else {
      AtKeySet(kind, key, was, now, here);
    }
  }

  lemma {:induction false} SubUnder(kind: Reading, key: string, was: Json, now: Json, here: Pointer)
    requires was.Obj? && now.Obj?
    ensures AllUnder(Sub(kind, key, was, now, here), here)
    decreases was, 1, 0
  {
    if !Get(was.m, key).Null? { CompareUnder(kind, Get(was.m, key), Get(now.m, key), here); }
  }

  lemma {:induction false} NamedUnder(kind: Reading, key: string, was: Json, now: Json, names: seq<string>,
          here: Pointer)
    requires was.Obj? && now.Obj?
    ensures AllUnder(Named(kind, key, was, now, names, here), here)
    decreases was, 1, |names|
  {
    if names != [] {
      AtNameUnder(kind, key, was, now, names[0], here + [Name(names[0])]);
      NamedUnder(kind, key, was, now, names[1..], here);
    }
  }

  lemma {:induction false} AtNameUnder(kind: Reading, key: string, was: Json, now: Json, name: string, at: Pointer)
    requires was.Obj? && now.Obj?
    ensures AllUnder(AtName(kind, key, was, now, name, at), at)
    decreases was, 1, 0
  {
    if name in Members(Get(was.m, key)) && name in Members(Get(now.m, key)) {
      CompareUnder(kind, Members(Get(was.m, key))[name], Members(Get(now.m, key))[name], at);
    }
  }

  lemma {:induction false} CombinationUnder(kind: Reading, key: string, was: Json, now: Json, here: Pointer)
    requires was.Obj? && now.Obj?
    ensures AllUnder(Combination(kind, key, was, now, here), here)
    decreases was, 1, 1
  {
    var rest := Unmatched(Enumerated(Subschemas(Get(was.m, key))), Enumerated(Subschemas(Get(now.m, key))));
    PairedUnder(kind, key, was, now, rest.0, rest.1, here);
  }

  lemma {:induction false} PairedUnder(kind: Reading, key: string, was: Json, now: Json, olds: seq<(nat, Json)>,
          news: seq<(nat, Json)>, here: Pointer)
    requires was.Obj? && now.Obj? && forall p | p in olds :: p.1 in Subschemas(Get(was.m, key))
    ensures AllUnder(Paired(kind, key, was, now, olds, news, here), here)
    decreases was, 0, |olds| + |news|
  {
    if olds != [] && news == [] {
      PairedUnder(kind, key, was, now, olds[1..], [], here);
    } else if olds == [] && news != [] {
      PairedUnder(kind, key, was, now, [], news[1..], here);
    } else if olds != [] {
      assert olds[0].1 in Subschemas(Get(was.m, key));
      CompareUnder(kind, olds[0].1, news[0].1, here + [Index(news[0].0)]);
      PairedUnder(kind, key, was, now, olds[1..], news[1..], here);
    }
  }

  // --- one member of two objects ------------------------------------------------------------------------------------

  /** The member differs, to Python: absent and null are the same. */
  predicate Differs(was: Json, now: Json, k: string)
    requires was.Obj? && now.Obj?
  {
    !PyEq(Get(was.m, k), Get(now.m, k))
  }

  lemma {:induction false} OverKeysAt(kind: Reading, was: Json, now: Json, keys: seq<string>, at: Pointer, k: string,
          f: Finding)
    requires was.Obj? && now.Obj? && Ascending(keys) && Differs(was, now, k)
    ensures f in OverKeys(kind, was, now, keys, at) && Under(f, at + [Name(k)])
            <==> k in keys && f in AtKey(kind, k, was, now, at + [Name(k)])
    decreases |keys|
  {
    if keys != [] {
      AtKeyUnder(kind, keys[0], was, now, at + [Name(keys[0])]);
      AtKeyUnder(kind, k, was, now, at + [Name(k)]);
      OverKeysAt(kind, was, now, keys[1..], at, k, f);
      if keys[0] == k { HeadOnce(keys); }
      if Under(f, at + [Name(keys[0])]) && Under(f, at + [Name(k)]) { SameMember(f, at, keys[0], k); }
    }
  }

  lemma HeadOnce(keys: seq<string>)
    requires keys != [] && Ascending(keys)
    ensures keys[0] !in keys[1..]
  {
    forall i | 0 <= i < |keys| - 1 ensures keys[1..][i] != keys[0] { assert keys[0] != keys[i + 1]; }
  }

  lemma SameMember(f: Finding, at: Pointer, j: string, k: string)
    requires Under(f, at + [Name(j)]) && Under(f, at + [Name(k)])
    ensures j == k
  {
    assert f.at[|at|] == (at + [Name(j)])[|at|] == (at + [Name(k)])[|at|];
  }

  /** What is reported of a member that differs is what is found at it, whatever else the objects hold. */
  lemma FoundAtKey(kind: Reading, was: Json, now: Json, at: Pointer, k: string, f: Finding)
    requires was.Obj? && now.Obj? && Differs(was, now, k)
    ensures f in Compare(kind, was, now, at) && Under(f, at + [Name(k)])
            <==> f in AtKey(kind, k, was, now, at + [Name(k)])
  {
    PyEqObj(was.m, now.m);
    assert k in was.m || k in now.m;
    OverKeysAt(kind, was, now, Sorted(was.m.Keys + now.m.Keys), at, k, f);
  }
}
