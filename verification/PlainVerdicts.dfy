/** The classifier's verdicts, keyword by keyword and by the keywords' own names, on any two objects whatever
    else in them changed. */
module PlainVerdicts {
  import opened Text
  import opened Json
  import opened Compat
  import opened CompatSound
  import opened CompatLimits
  import opened CompatCounts
  import opened Pointers

  /** All that is reported there is one finding. */
  ghost predicate OneAt(fs: seq<Finding>, p: Pointer, breaking: bool) {
    && (exists f :: f in fs && f.at == p && f.breaking == breaking)
    && forall f | f in fs && Under(f, p) :: f.at == p && f.breaking == breaking
  }

  /** What the member holds, absent or null alike. */
  predicate Absent(m: map<string, Json>, k: string) { k !in m || m[k].Null? }

  lemma ReportedAt(kind: Reading, was: Json, now: Json, at: Pointer, k: string, f: Finding)
    requires was.Obj? && now.Obj? && Differs(was, now, k)
    requires AtKey(kind, k, was, now, at + [Name(k)]) == [f] && f.at == at + [Name(k)]
    ensures OneAt(Compare(kind, was, now, at), at + [Name(k)], f.breaking)
  {
    FoundAtKey(kind, was, now, at, k, f);
    forall g | g in Compare(kind, was, now, at) && Under(g, at + [Name(k)]) ensures g == f {
      FoundAtKey(kind, was, now, at, k, g);
    }
  }

  // --- by name -------------------------------------------------------------------------------------------------------

  lemma AnnotationKey(k: string)
    requires k in {"title", "description", "$comment", "examples", "default", "deprecated", "readOnly", "writeOnly"}
    ensures KeywordOf(k).Annotation?
  {
  }

  lemma IdentityKey(k: string)
    requires k in {"$id", "$schema", "$anchor", "$dynamicAnchor", "$ref", "$dynamicRef", "if", "not"}
    ensures Fixed(KeywordOf(k))
  {
  }

  const LISTED: set<string> :=
    {"title", "description", "$comment", "examples", "default", "deprecated", "readOnly", "writeOnly",
     "$id", "$schema", "$anchor", "$dynamicAnchor", "$ref", "$dynamicRef",
     "minimum", "exclusiveMinimum", "minLength", "minItems", "minProperties", "minContains",
     "maximum", "exclusiveMaximum", "maxLength", "maxItems", "maxProperties", "maxContains",
     "pattern", "format", "multipleOf", "contentEncoding", "const",
     "items", "contains", "propertyNames", "additionalProperties", "unevaluatedProperties", "unevaluatedItems",
     "then", "else", "properties", "$defs", "definitions", "if", "not",
     "type", "enum", "required", "dependentRequired", "prefixItems", "allOf", "anyOf", "oneOf", "uniqueItems"}

  lemma UnlistedKey(k: string)
    requires k !in LISTED
    ensures KeywordOf(k).Unknown?
  {
  }

  lemma ConstraintKey(k: string)
    requires k in {"pattern", "format", "multipleOf", "contentEncoding", "const"}
    ensures KeywordOf(k).Constraint? || KeywordOf(k).Const?
  {
  }

  lemma LowerKey(k: string)
    requires k in {"minimum", "exclusiveMinimum", "minLength", "minItems", "minProperties", "minContains"}
    ensures KeywordOf(k).Bound? && KeywordOf(k).lower
  {
  }

  lemma UpperKey(k: string)
    requires k in {"maximum", "exclusiveMaximum", "maxLength", "maxItems", "maxProperties", "maxContains"}
    ensures KeywordOf(k).Bound? && !KeywordOf(k).lower
  {
  }

  lemma SubKey(k: string)
    requires k in {"items", "contains", "propertyNames", "additionalProperties", "unevaluatedProperties",
                   "unevaluatedItems", "then", "else"}
    ensures KeywordOf(k).Sub()
  {
  }

  lemma SetKeys()
    ensures KeywordOf("type").Type? && KeywordOf("enum").Enum? && KeywordOf("uniqueItems").UniqueItems?
  {
  }

  lemma RequiredKeys()
    ensures KeywordOf("required").Required? && KeywordOf("dependentRequired").DependentRequired?
  {
  }

  lemma NamedKey(k: string)
    requires k in {"properties", "$defs", "definitions"}
    ensures KeywordOf(k).Named()
    ensures KeywordOf(k).Properties? <==> k == "properties"
  {
  }

  lemma CombinedKeys()
    ensures KeywordOf("allOf").AllOf? && KeywordOf("anyOf").AnyOf? && KeywordOf("oneOf").OneOf?
    ensures KeywordOf("prefixItems").PrefixItems?
  {
  }

  // --- keywords whose every change is of one kind -------------------------------------------------------------------

  /** A keyword that describes: one compatible finding, and nothing else. */
  lemma AnnotationVerdict(was: Json, now: Json, at: Pointer, k: string)
    requires was.Obj? && now.Obj? && Differs(was, now, k)
    requires k in {"title", "description", "$comment", "examples", "default", "deprecated", "readOnly", "writeOnly"}
    ensures OneAt(Compare(KeywordOf, was, now, at), at + [Name(k)], false)
  {
    AnnotationKey(k);
    AtKeyAnnotation(KeywordOf, k, was, now, at + [Name(k)]);
    ReportedAt(KeywordOf, was, now, at, k, Finding(at + [Name(k)], false, AnnotationChanged));
  }

  lemma FixedVerdict(was: Json, now: Json, at: Pointer, k: string)
    requires was.Obj? && now.Obj? && Differs(was, now, k) && Fixed(KeywordOf(k))
    ensures OneAt(Compare(KeywordOf, was, now, at), at + [Name(k)], true)
  {
    AtKeyFixed(KeywordOf, k, was, now, at + [Name(k)]);
    var what :| AtKey(KeywordOf, k, was, now, at + [Name(k)]) == Breaking(at + [Name(k)], what);
    ReportedAt(KeywordOf, was, now, at, k, Finding(at + [Name(k)], true, what));
  }

  /** A keyword that names, or a condition: one breaking finding. */
  lemma IdentityVerdict(was: Json, now: Json, at: Pointer, k: string)
    requires was.Obj? && now.Obj? && Differs(was, now, k)
    requires k in {"$id", "$schema", "$anchor", "$dynamicAnchor", "$ref", "$dynamicRef", "if", "not"}
    ensures OneAt(Compare(KeywordOf, was, now, at), at + [Name(k)], true)
  {
    IdentityKey(k);
    FixedVerdict(was, now, at, k);
  }

  /** A keyword that is not listed: one breaking finding. */
  lemma UnlistedVerdict(was: Json, now: Json, at: Pointer, k: string)
    requires was.Obj? && now.Obj? && Differs(was, now, k) && k !in LISTED
    ensures OneAt(Compare(KeywordOf, was, now, at), at + [Name(k)], true)
  {
    UnlistedKey(k);
    FixedVerdict(was, now, at, k);
  }

  // --- constraints --------------------------------------------------------------------------------------------------

  /** Breaking exactly where it is added or changed: removed, or set to null, it is compatible. */
  lemma ConstraintVerdict(was: Json, now: Json, at: Pointer, k: string)
    requires was.Obj? && now.Obj? && Differs(was, now, k)
    requires k in {"pattern", "format", "multipleOf", "contentEncoding", "const"}
    ensures OneAt(Compare(KeywordOf, was, now, at), at + [Name(k)], !Absent(now.m, k))
  {
    ConstraintKey(k);
    AtKeyConstraint(KeywordOf, k, was, now, at + [Name(k)]);
    ReportedAt(KeywordOf, was, now, at, k,
      Finding(at + [Name(k)], !Absent(now.m, k), if Absent(now.m, k) then ConstraintRemoved else ConstraintSet));
  }

  lemma TruthyExactly(j: Json)
    ensures Truthy(j) <==> j !in {Null, Bool(false), Num(0.0), Str(""), Arr([]), Obj(map[])}
  {
  }

  lemma UniqueVerdict(was: Json, now: Json, at: Pointer, k: string)
    requires was.Obj? && now.Obj? && Differs(was, now, k) && KeywordOf(k).UniqueItems?
    ensures OneAt(Compare(KeywordOf, was, now, at), at + [Name(k)], Truthy(Get(now.m, k)))
  {
    var holds := Truthy(Get(now.m, k));
    AtKeyUnique(KeywordOf, k, was, now, at + [Name(k)]);
    ReportedAt(KeywordOf, was, now, at, k, Finding(at + [Name(k)], holds, if holds then NowUnique else NoLongerUnique));
  }

  /** Breaking exactly where it is set to something: `false`, zero and what is empty are as good as removed. */
  lemma UniqueItemsVerdict(was: Json, now: Json, at: Pointer, k: string)
    requires was.Obj? && now.Obj? && Differs(was, now, k) && k == "uniqueItems"
    ensures OneAt(Compare(KeywordOf, was, now, at), at + [Name(k)],
                  k in now.m && now.m[k] !in {Null, Bool(false), Num(0.0), Str(""), Arr([]), Obj(map[])})
  {
    SetKeys();
    UniqueVerdict(was, now, at, k);
    TruthyExactly(Get(now.m, k));
  }

  /** A number a value must reach: breaking exactly where it is added or raised. */
  lemma LowerVerdict(was: Json, now: Json, at: Pointer, k: string)
    requires was.Obj? && now.Obj? && Differs(was, now, k)
    requires k in {"minimum", "exclusiveMinimum", "minLength", "minItems", "minProperties", "minContains"}
    requires (Absent(was.m, k) || was.m[k].Num?) && (Absent(now.m, k) || now.m[k].Num?)
    ensures OneAt(Compare(KeywordOf, was, now, at), at + [Name(k)],
                  !Absent(now.m, k) && (Absent(was.m, k) || was.m[k].n < now.m[k].n))
  {
    LowerKey(k);
    BoundVerdict(was, now, at, k);
  }

  /** A number a value must stay under: breaking exactly where it is added or lowered. */
  lemma UpperVerdict(was: Json, now: Json, at: Pointer, k: string)
    requires was.Obj? && now.Obj? && Differs(was, now, k)
    requires k in {"maximum", "exclusiveMaximum", "maxLength", "maxItems", "maxProperties", "maxContains"}
    requires (Absent(was.m, k) || was.m[k].Num?) && (Absent(now.m, k) || now.m[k].Num?)
    ensures OneAt(Compare(KeywordOf, was, now, at), at + [Name(k)],
                  !Absent(now.m, k) && (Absent(was.m, k) || now.m[k].n < was.m[k].n))
  {
    UpperKey(k);
    BoundVerdict(was, now, at, k);
  }

  lemma BoundVerdict(was: Json, now: Json, at: Pointer, k: string)
    requires was.Obj? && now.Obj? && Differs(was, now, k) && KeywordOf(k).Bound?
    requires (Absent(was.m, k) || was.m[k].Num?) && (Absent(now.m, k) || now.m[k].Num?)
    ensures OneAt(Compare(KeywordOf, was, now, at), at + [Name(k)],
                  !Absent(now.m, k) && (Absent(was.m, k)
                    || if KeywordOf(k).lower then was.m[k].n < now.m[k].n else now.m[k].n < was.m[k].n))
  {
    var here := at + [Name(k)];
    AtKeyBound(KeywordOf, k, was, now, here);
    ReportedAt(KeywordOf, was, now, at, k, BoundChange(KeywordOf(k).lower, Get(was.m, k), Get(now.m, k), here)[0]);
  }

  // --- sets ---------------------------------------------------------------------------------------------------------

  /** The values named, one by itself or in a list. */
  function Values(j: Json): set<Json> { if j.Arr? then set i | 0 <= i < |j.a| :: j.a[i] else {j} }

  /** Compatible exactly where it is removed, or all that was admitted still is, and more. */
  lemma SetVerdict(was: Json, now: Json, at: Pointer, k: string)
    requires was.Obj? && now.Obj? && Differs(was, now, k) && k in {"type", "enum"}
    ensures OneAt(Compare(KeywordOf, was, now, at), at + [Name(k)],
                  !Absent(now.m, k) && (Absent(was.m, k) || !(Values(was.m[k]) < Values(now.m[k]))))
  {
    SetKeys();
    var here := at + [Name(k)];
    AtKeySet(KeywordOf, k, was, now, here);
    ReportedAt(KeywordOf, was, now, at, k, SetChange(Admitted(Get(was.m, k)), Admitted(Get(now.m, k)), here)[0]);
    if !Absent(was.m, k) { ValuesAre(was.m[k]); }
    if !Absent(now.m, k) { ValuesAre(now.m[k]); }
  }

  lemma ValuesAre(j: Json)
    ensures Values(j) == Elements(j)
  {
  }

  // --- requirements -------------------------------------------------------------------------------------------------

  predicate Listing(m: map<string, Json>, k: string, n: string) { k in m && m[k].Arr? && Str(n) in m[k].a }

  /** Every finding breaks, and there is one exactly where some property is required on one side only. */
  lemma RequiredVerdict(was: Json, now: Json, at: Pointer)
    requires was.Obj? && now.Obj? && Differs(was, now, "required")
    ensures forall f | f in Compare(KeywordOf, was, now, at) && Under(f, at + [Name("required")]) :: f.breaking
    ensures (exists f :: f in Compare(KeywordOf, was, now, at) && Under(f, at + [Name("required")]))
            <==> exists n :: Listing(was.m, "required", n) != Listing(now.m, "required", n)
  {
    RequiredKeys();
    var here := at + [Name("required")];
    var before, after := Names(Get(was.m, "required")), Names(Get(now.m, "required"));
    AtKeyRequired(KeywordOf, "required", was, now, here);
    RequirementsExactly(before, after, here);
    NamesAre(was.m, "required");
    NamesAre(now.m, "required");
    forall f
      ensures f in Compare(KeywordOf, was, now, at) && Under(f, here) <==> f in Requirements(before, after, here)
    {
      FoundAtKey(KeywordOf, was, now, at, "required", f);
    }
    if n :| Listing(was.m, "required", n) != Listing(now.m, "required", n) {
      assert (n in before) != (n in after);
    }
  }

  lemma NamesAre(m: map<string, Json>, k: string)
    ensures forall n :: n in Names(Get(m, k)) <==> Listing(m, k, n)
  {
  }

  lemma RequirementsExactly(before: set<string>, after: set<string>, here: Pointer)
    ensures forall f | f in Requirements(before, after, here) :: f.breaking && f.at == here
    ensures Requirements(before, after, here) == [] <==> before == after
    ensures before != after ==> Requirements(before, after, here)[0] in Requirements(before, after, here)
  {
    if before != after {
      if before - after == {} { assert after - before != {}; }
    }
  }

  lemma DependentsExactly(before: map<string, Json>, after: map<string, Json>, names: seq<string>, here: Pointer,
          f: Finding)
    ensures f in Dependents(before, after, names, here) <==>
            exists n :: n in names && !PyEq(Get(before, n), Get(after, n))
                        && f == Finding(here + [Name(n)], true, DependentChanged(n))
  {
  }

  /** Every finding breaks, and there is one exactly at each name whose list differs. */
  lemma DependentRequiredVerdict(was: Json, now: Json, at: Pointer, k: string)
    requires was.Obj? && now.Obj? && Differs(was, now, k) && k == "dependentRequired"
    ensures forall f | f in Compare(KeywordOf, was, now, at) && Under(f, at + [Name(k)]) :: f.breaking
    ensures forall n ::
              (exists f :: f in Compare(KeywordOf, was, now, at) && f.at == at + [Name(k)] + [Name(n)])
              <==> !PyEq(Get(Members(Get(was.m, k)), n), Get(Members(Get(now.m, k)), n))
  {
    RequiredKeys();
    var here := at + [Name(k)];
    var before, after := Get(was.m, k), Get(now.m, k);
    AtKeyDependents(KeywordOf, k, was, now, here);
    forall f
      ensures f in Compare(KeywordOf, was, now, at) && Under(f, here)
              <==> f in Dependents(Members(before), Members(after), Listed(before, after), here)
    {
      FoundAtKey(KeywordOf, was, now, at, k, f);
    }
    forall f | f in Dependents(Members(before), Members(after), Listed(before, after), here) ensures f.breaking {
      DependentsExactly(Members(before), Members(after), Listed(before, after), here, f);
    }
    forall n
      ensures (exists f :: f in Compare(KeywordOf, was, now, at) && f.at == here + [Name(n)])
              <==> !PyEq(Get(Members(before), n), Get(Members(after), n))
    {
      DependentAt(was, now, at, k, n);
    }
  }

  lemma DependentAt(was: Json, now: Json, at: Pointer, k: string, n: string)
    requires was.Obj? && now.Obj? && Differs(was, now, k) && KeywordOf(k).DependentRequired?
    ensures (exists f :: f in Compare(KeywordOf, was, now, at) && f.at == at + [Name(k)] + [Name(n)])
            <==> !PyEq(Get(Members(Get(was.m, k)), n), Get(Members(Get(now.m, k)), n))
  {
    var here := at + [Name(k)];
    var before, after := Get(was.m, k), Get(now.m, k);
    AtKeyDependents(KeywordOf, k, was, now, here);
    var there := Finding(here + [Name(n)], true, DependentChanged(n));
    if !PyEq(Get(Members(before), n), Get(Members(after), n)) {
      assert n in Listed(before, after);
      DependentsExactly(Members(before), Members(after), Listed(before, after), here, there);
      FoundAtKey(KeywordOf, was, now, at, k, there);
    }
    if f :| f in Compare(KeywordOf, was, now, at) && f.at == here + [Name(n)] {
      FoundAtKey(KeywordOf, was, now, at, k, f);
      DependentsExactly(Members(before), Members(after), Listed(before, after), here, f);
      var m :| m in Listed(before, after) && !PyEq(Get(Members(before), m), Get(Members(after), m))
        && f == Finding(here + [Name(m)], true, DependentChanged(m));
      assert f.at[|here|] == Name(m) == Name(n);
    }
  }
}
