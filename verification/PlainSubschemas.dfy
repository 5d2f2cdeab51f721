/** The classifier's verdicts on subschemas: named, by themselves, and in lists; and on whole files. */
module PlainSubschemas {
  import opened Text
  import opened Json
  import opened Compat
  import opened CompatSound
  import opened CompatLimits
  import opened CompatCounts
  import opened Pointers
  import opened PlainVerdicts

  // --- named subschemas ---------------------------------------------------------------------------------------------

  lemma {:induction false} NamedAt(kind: Reading, k: string, was: Json, now: Json, names: seq<string>, here: Pointer,
          n: string, f: Finding)
    requires was.Obj? && now.Obj? && Ascending(names)
    ensures f in Named(kind, k, was, now, names, here) && Under(f, here + [Name(n)])
            <==> n in names && f in AtName(kind, k, was, now, n, here + [Name(n)])
    decreases |names|
  {
    if names != [] {
      AtNameUnder(kind, k, was, now, names[0], here + [Name(names[0])]);
      AtNameUnder(kind, k, was, now, n, here + [Name(n)]);
      NamedAt(kind, k, was, now, names[1..], here, n, f);
      if names[0] == n { HeadOnce(names); }
      if Under(f, here + [Name(names[0])]) && Under(f, here + [Name(n)]) { SameMember(f, here, names[0], n); }
    }
  }

  lemma FoundAtName(kind: Reading, was: Json, now: Json, at: Pointer, k: string, n: string, f: Finding)
    requires was.Obj? && now.Obj? && Differs(was, now, k) && kind(k).Named()
    requires n in Members(Get(was.m, k)) || n in Members(Get(now.m, k))
    ensures f in Compare(kind, was, now, at) && Under(f, at + [Name(k)] + [Name(n)])
            <==> f in AtName(kind, k, was, now, n, at + [Name(k)] + [Name(n)])
  {
    var here := at + [Name(k)];
    FoundAtKey(kind, was, now, at, k, f);
    AtKeyNamed(kind, k, was, now, here);
    NamedAt(kind, k, was, now, Listed(Get(was.m, k), Get(now.m, k)), here, n, f);
  }

  /** A property or a definition that is gone: one breaking finding at its name. */
  lemma NameRemovedVerdict(was: Json, now: Json, at: Pointer, k: string, n: string)
    requires was.Obj? && now.Obj? && Differs(was, now, k) && k in {"properties", "$defs", "definitions"}
    requires n in Members(Get(was.m, k)) && n !in Members(Get(now.m, k))
    ensures OneAt(Compare(KeywordOf, was, now, at), at + [Name(k)] + [Name(n)], true)
  {
    NamedKey(k);
    var there := at + [Name(k)] + [Name(n)];
    FoundAtName(KeywordOf, was, now, at, k, n, Finding(there, true, NameRemoved(n)));
    forall f | f in Compare(KeywordOf, was, now, at) && Under(f, there)
      ensures f == Finding(there, true, NameRemoved(n))
    {
      FoundAtName(KeywordOf, was, now, at, k, n, f);
    }
  }

  /** One that is new: one compatible finding at its name. */
  lemma NameAddedVerdict(was: Json, now: Json, at: Pointer, k: string, n: string)
    requires was.Obj? && now.Obj? && Differs(was, now, k) && k in {"properties", "$defs", "definitions"}
    requires n !in Members(Get(was.m, k)) && n in Members(Get(now.m, k))
    ensures OneAt(Compare(KeywordOf, was, now, at), at + [Name(k)] + [Name(n)], false)
  {
    NamedKey(k);
    var there := at + [Name(k)] + [Name(n)];
    var closed := !KeywordOf(k).Properties? || Get(was.m, "additionalProperties") == Bool(false);
    FoundAtName(KeywordOf, was, now, at, k, n, Finding(there, false, NameAdded(n, closed)));
    forall f | f in Compare(KeywordOf, was, now, at) && Under(f, there)
      ensures f == Finding(there, false, NameAdded(n, closed))
    {
      FoundAtName(KeywordOf, was, now, at, k, n, f);
    }
  }

  /** One on both sides: what is reported there is the comparison of the two. */
  lemma NameKeptVerdict(was: Json, now: Json, at: Pointer, k: string, n: string, f: Finding)
    requires was.Obj? && now.Obj? && Differs(was, now, k) && k in {"properties", "$defs", "definitions"}
    requires n in Members(Get(was.m, k)) && n in Members(Get(now.m, k))
    ensures var there := at + [Name(k)] + [Name(n)];
            f in Compare(KeywordOf, was, now, at) && Under(f, there) <==>
              f in Compare(KeywordOf, was.m[k].m[n], now.m[k].m[n], there)
  {
    NamedKey(k);
    FoundAtName(KeywordOf, was, now, at, k, n, f);
  }

  // --- subschemas by themselves -------------------------------------------------------------------------------------

  /** One that is absent admits everything. */
  function OrTrue(m: map<string, Json>, k: string): Json { if k !in m || m[k].Null? then Bool(true) else m[k] }

  lemma SubIsCompare(kind: Reading, k: string, was: Json, now: Json, here: Pointer)
    requires was.Obj? && now.Obj? && Differs(was, now, k)
    ensures Sub(kind, k, was, now, here) == Compare(kind, OrTrue(was.m, k), OrTrue(now.m, k), here)
  {
  }

  /** What is reported of it is the comparison of the two, `true` standing for one that is absent. */
  lemma SubschemaVerdict(was: Json, now: Json, at: Pointer, k: string, f: Finding)
    requires was.Obj? && now.Obj? && Differs(was, now, k)
    requires k in {"items", "contains", "propertyNames", "additionalProperties", "unevaluatedProperties",
                   "unevaluatedItems", "then", "else"}
    ensures f in Compare(KeywordOf, was, now, at) && Under(f, at + [Name(k)])
            <==> f in Compare(KeywordOf, OrTrue(was.m, k), OrTrue(now.m, k), at + [Name(k)])
  {
    SubKey(k);
    FoundAtKey(KeywordOf, was, now, at, k, f);
    AtKeySub(KeywordOf, k, was, now, at + [Name(k)]);
    SubIsCompare(KeywordOf, k, was, now, at + [Name(k)]);
  }

  /** Of two schemas that are not equal, one of them a boolean: one finding, breaking exactly where everything was
      admitted, or nothing is now. */
  lemma BooleanVerdict(was: Json, now: Json, at: Pointer)
    requires !PyEq(was, now) && (was.Bool? || now.Bool?)
    ensures OneAt(Compare(KeywordOf, was, now, at), at, was == Bool(true) || now == Bool(false))
  {
    var less := was == Bool(true) || now == Bool(false);
    assert Compare(KeywordOf, was, now, at) == [Finding(at, less, if less then AdmitsLess else AdmitsMore)];
  }

  /** What is no schema on one side breaks. */
  lemma NoSchemaVerdict(was: Json, now: Json, at: Pointer)
    requires !PyEq(was, now) && !was.Bool? && !now.Bool? && !(was.Obj? && now.Obj?)
    ensures OneAt(Compare(KeywordOf, was, now, at), at, true)
  {
    assert Compare(KeywordOf, was, now, at) == [Finding(at, true, NotASchema)];
  }

  // --- lists --------------------------------------------------------------------------------------------------------

  /** Alternatives where there were none break; none where there were some do not. */
  lemma AlternativesVerdict(was: Json, now: Json, at: Pointer, k: string)
    requires was.Obj? && now.Obj? && Differs(was, now, k) && k in {"anyOf", "oneOf"}
    requires Absent(was.m, k) || Absent(now.m, k)
    ensures OneAt(Compare(KeywordOf, was, now, at), at + [Name(k)], Absent(was.m, k))
  {
    CombinedKeys();
    AtKeyCombination(KeywordOf, k, was, now, at + [Name(k)]);
    var added := Absent(was.m, k);
    ReportedAt(KeywordOf, was, now, at, k,
      Finding(at + [Name(k)], added, if added then AlternativesAdded else AlternativesRemoved));
  }

  lemma {:induction false} PairedGained(kind: Reading, k: string, was: Json, now: Json, news: seq<(nat, Json)>,
          here: Pointer, f: Finding)
    requires was.Obj? && now.Obj?
    ensures f in Paired(kind, k, was, now, [], news, here) <==>
            exists i :: 0 <= i < |news| && f == Finding(here + [Index(news[i].0)], kind(k).Narrowing(), GainedSubschema)
    decreases |news|
  {
    if news != [] {
      PairedGained(kind, k, was, now, news[1..], here, f);
      if i :| 0 <= i < |news| && f == Finding(here + [Index(news[i].0)], kind(k).Narrowing(), GainedSubschema) {
        if i > 0 { assert news[1..][i - 1] == news[i]; }
      }
    }
  }

  lemma {:induction false} PairedLost(kind: Reading, k: string, was: Json, now: Json, olds: seq<(nat, Json)>,
          here: Pointer, f: Finding)
    requires was.Obj? && now.Obj? && forall p | p in olds :: p.1 in Subschemas(Get(was.m, k))
    ensures var taken := kind(k).PrefixItems? && !Get(now.m, "items").Null?;
            f in Paired(kind, k, was, now, olds, [], here) <==>
            exists i :: 0 <= i < |olds| &&
              f == Finding(here + [Index(olds[i].0)], !kind(k).Narrowing(), LostSubschema(taken))
    decreases |olds|
  {
    if olds != [] {
      PairedLost(kind, k, was, now, olds[1..], here, f);
      var taken := kind(k).PrefixItems? && !Get(now.m, "items").Null?;
      if i :| 0 <= i < |olds| && f == Finding(here + [Index(olds[i].0)], !kind(k).Narrowing(), LostSubschema(taken)) {
        if i > 0 { assert olds[1..][i - 1] == olds[i]; }
      }
    }
  }

  /** What stands first on both sides is compared in place; what is left over is gained or lost. */
  lemma {:induction false} PairedSameFirst(kind: Reading, k: string, was: Json, now: Json, same: seq<(nat, Json)>,
          olds: seq<(nat, Json)>, news: seq<(nat, Json)>, here: Pointer)
    requires was.Obj? && now.Obj? && forall p | p in same + olds :: p.1 in Subschemas(Get(was.m, k))
    requires forall p | p in olds :: p.1 in Subschemas(Get(was.m, k))
    ensures Paired(kind, k, was, now, same + olds, same + news, here) == Paired(kind, k, was, now, olds, news, here)
    decreases |same|
  {
    if same == [] {
      assert same + olds == olds && same + news == news;
    } else {
      assert (same + olds)[0] == same[0] && (same + olds)[1..] == same[1..] + olds;
      assert (same + news)[0] == same[0] && (same + news)[1..] == same[1..] + news;
      assert same[0] in same + olds;
      NoFinding(kind, same[0].1, here + [Index(same[0].0)]);
      PairedSameFirst(kind, k, was, now, same[1..], olds, news, here);
    }
  }

  /** The items of a list from one place on, each with its place. */
  function From(s: seq<Json>, i: nat): seq<(nat, Json)>
    requires i <= |s|
  {
    Enumerated(s)[i..]
  }

  lemma SplitAt(s: seq<Json>, more: seq<Json>)
    ensures Enumerated(s + more) == Enumerated(s) + From(s + more, |s|)
  {
  }

  /** Where every new branch stands first among the equal old ones, what follows them is left. */
  lemma {:induction false} UnmatchedOld(same: seq<(nat, Json)>, rest: seq<(nat, Json)>)
    ensures Unmatched(same + rest, same) == (rest, [])
  {
    if same == [] {
      assert same + rest == rest;
      NothingMatches(rest);
    } else {
      assert (same + rest)[0] == same[0] && (same + rest)[1..] == same[1..] + rest;
      assert Without(same, 0) == same[1..];
      UnmatchedOld(same[1..], rest);
    }
  }

  lemma {:induction false} NothingMatches(rest: seq<(nat, Json)>)
    ensures Unmatched(rest, []) == (rest, [])
  {
    if rest != [] {
      NothingMatches(rest[1..]);
      assert [rest[0]] + rest[1..] == rest;
    }
  }

  /** What the classifier finds of a list with more at its end. */
  lemma GainedIs(kind: Reading, was: Json, now: Json, k: string, s: seq<Json>, more: seq<Json>, here: Pointer)
    requires was.Obj? && now.Obj? && k in was.m && k in now.m && was.m[k] == Arr(s) && now.m[k] == Arr(s + more)
    requires kind(k).Combined() || kind(k).PrefixItems?
    ensures AtKey(kind, k, was, now, here) == Paired(kind, k, was, now, [], From(s + more, |s|), here)
  {
    SplitAt(s, more);
    if kind(k).PrefixItems? {
      AtKeyPrefix(kind, k, was, now, here);
      assert Enumerated(s) + [] == Enumerated(s);
      PairedSameFirst(kind, k, was, now, Enumerated(s), [], From(s + more, |s|), here);
    } else {
      AtKeyCombination(kind, k, was, now, here);
      UnmatchedPrefix(Enumerated(s), From(s + more, |s|));
    }
  }

  lemma LostIs(kind: Reading, was: Json, now: Json, k: string, s: seq<Json>, more: seq<Json>, here: Pointer)
    requires was.Obj? && now.Obj? && k in was.m && k in now.m && was.m[k] == Arr(s + more) && now.m[k] == Arr(s)
    requires kind(k).Combined() || kind(k).PrefixItems?
    ensures AtKey(kind, k, was, now, here) == Paired(kind, k, was, now, From(s + more, |s|), [], here)
  {
    SplitAt(s, more);
    if kind(k).PrefixItems? {
      AtKeyPrefix(kind, k, was, now, here);
      assert Enumerated(s) + [] == Enumerated(s);
      PairedSameFirst(kind, k, was, now, Enumerated(s), From(s + more, |s|), [], here);
    } else {
      AtKeyCombination(kind, k, was, now, here);
      UnmatchedOld(Enumerated(s), From(s + more, |s|));
    }
  }

  /** More subschemas at the end: one finding at the place of each, which breaks in a list every one of which
      constrains, and not where every one admits. */
  lemma GainedVerdict(was: Json, now: Json, at: Pointer, k: string, s: seq<Json>, more: seq<Json>, f: Finding)
    requires was.Obj? && now.Obj? && Differs(was, now, k) && k in {"allOf", "prefixItems", "anyOf", "oneOf"}
    requires k in was.m && k in now.m && was.m[k] == Arr(s) && now.m[k] == Arr(s + more)
    ensures f in Compare(KeywordOf, was, now, at) && Under(f, at + [Name(k)]) <==>
            exists i :: |s| <= i < |s + more|
                        && f == Finding(at + [Name(k)] + [Index(i)], k == "allOf" || k == "prefixItems",
                                        GainedSubschema)
  {
    CombinedKeys();
    var here := at + [Name(k)];
    FoundAtKey(KeywordOf, was, now, at, k, f);
    GainedIs(KeywordOf, was, now, k, s, more, here);
    PairedGained(KeywordOf, k, was, now, From(s + more, |s|), here, f);
    if i :| |s| <= i < |s + more| && f == Finding(here + [Index(i)], KeywordOf(k).Narrowing(), GainedSubschema) {
      assert From(s + more, |s|)[i - |s|].0 == i;
    }
  }

  /** Fewer of them: the other way round. */
  lemma LostVerdict(was: Json, now: Json, at: Pointer, k: string, s: seq<Json>, more: seq<Json>, f: Finding)
    requires was.Obj? && now.Obj? && Differs(was, now, k) && k in {"allOf", "prefixItems", "anyOf", "oneOf"}
    requires k in was.m && k in now.m && was.m[k] == Arr(s + more) && now.m[k] == Arr(s)
    ensures f in Compare(KeywordOf, was, now, at) && Under(f, at + [Name(k)]) <==>
            exists i :: |s| <= i < |s + more|
                        && f == Finding(at + [Name(k)] + [Index(i)], k == "anyOf" || k == "oneOf",
                                        LostSubschema(k == "prefixItems" && !Absent(now.m, "items")))
  {
    CombinedKeys();
    var here := at + [Name(k)];
    FoundAtKey(KeywordOf, was, now, at, k, f);
    LostIs(KeywordOf, was, now, k, s, more, here);
    PairedLost(KeywordOf, k, was, now, From(s + more, |s|), here, f);
    var what := LostSubschema(k == "prefixItems" && !Absent(now.m, "items"));
    if i :| |s| <= i < |s + more| && f == Finding(here + [Index(i)], k == "anyOf" || k == "oneOf", what) {
      assert From(s + more, |s|)[i - |s|].0 == i;
    }
  }

  // --- files --------------------------------------------------------------------------------------------------------

  lemma AtPathUnder(kind: Reading, parts: string -> Parts, baseline: map<string, Json>, current: map<string, Json>,
          path: string)
    ensures AllUnder(AtPath(kind, parts, baseline, current, path), [Name(path)])
  {
    if path in baseline && path in current { CompareUnder(kind, baseline[path], current[path], [Name(path)]); }
  }

  lemma {:induction false} ClassifyAt(kind: Reading, parts: string -> Parts, baseline: map<string, Json>,
          current: map<string, Json>, paths: seq<string>, path: string, f: Finding)
    ensures f in Classify(kind, parts, baseline, current, paths) && Under(f, [Name(path)])
            <==> path in paths && f in AtPath(kind, parts, baseline, current, path)
    decreases |paths|
  {
    if paths != [] {
      AtPathUnder(kind, parts, baseline, current, paths[0]);
      AtPathUnder(kind, parts, baseline, current, path);
      ClassifyAt(kind, parts, baseline, current, paths[1..], path, f);
      if Under(f, [Name(paths[0])]) && Under(f, [Name(path)]) { assert f.at[0] == Name(paths[0]) == Name(path); }
    }
  }

  lemma FoundAtPath(parts: string -> Parts, baseline: map<string, Json>, current: map<string, Json>, path: string,
          f: Finding)
    requires path in baseline || path in current
    ensures f in Changes(KeywordOf, parts, baseline, current) && Under(f, [Name(path)])
            <==> f in AtPath(KeywordOf, parts, baseline, current, path)
  {
    ClassifyAt(KeywordOf, parts, baseline, current, Sorted(baseline.Keys + current.Keys), path, f);
  }

  lemma SucceededExactly(parts: string -> Parts, path: string, paths: set<string>)
    ensures !Succeeded(parts, path, paths) <==>
              forall other | other in paths && parts(other).family == parts(path).family
                             && parts(other).name == parts(path).name ::
                parts(other).major <= parts(path).major
  {
  }

  lemma OneSidedVerdict(parts: string -> Parts, baseline: map<string, Json>, current: map<string, Json>, path: string)
    requires (path in baseline) != (path in current)
    ensures OneAt(Changes(KeywordOf, parts, baseline, current), [Name(path)],
                  path in baseline && !Succeeded(parts, path, current.Keys))
  {
    var breaks := path in baseline && !Succeeded(parts, path, current.Keys);
    var what := if path in current then SchemaAdded else if breaks then SchemaRemoved else SchemaRetired;
    FoundAtPath(parts, baseline, current, path, Finding([Name(path)], breaks, what));
    forall f | f in Changes(KeywordOf, parts, baseline, current) && Under(f, [Name(path)])
      ensures f == Finding([Name(path)], breaks, what)
    {
      FoundAtPath(parts, baseline, current, path, f);
    }
  }

  /** A file on one side only: one finding. A new one is compatible; one that is gone breaks, unless a file of the
      same family and name, with a higher major version, stands among the current ones. */
  lemma FileVerdict(parts: string -> Parts, baseline: map<string, Json>, current: map<string, Json>, path: string)
    requires (path in baseline) != (path in current)
    ensures OneAt(Changes(KeywordOf, parts, baseline, current), [Name(path)],
                  path in baseline
                  && forall other | other in current.Keys && parts(other).family == parts(path).family
                                    && parts(other).name == parts(path).name ::
                       parts(other).major <= parts(path).major)
  {
    OneSidedVerdict(parts, baseline, current, path);
    SucceededExactly(parts, path, current.Keys);
  }

  /** A file on both sides: what is reported is the comparison of the two. */
  lemma FileKeptVerdict(parts: string -> Parts, baseline: map<string, Json>, current: map<string, Json>, path: string,
          f: Finding)
    requires path in baseline && path in current
    ensures f in Changes(KeywordOf, parts, baseline, current) && Under(f, [Name(path)])
            <==> f in Compare(KeywordOf, baseline[path], current[path], [Name(path)])
  {
    FoundAtPath(parts, baseline, current, path, f);
  }
}
