/** When one schema means the same in two sets of files: where its references are answered alike. */
module CompatMeaning {
  import opened Text
  import opened Json
  import opened Compat
  import opened Schema

  /** The two read keywords, references and constraints alike, and stand in one file. */
  ghost predicate SameReading(a: Env, b: Env) {
    a.kind == b.kind && a.target == b.target && a.holds == b.holds && a.at == b.at
  }

  function StandingIn(env: Env, file: string): Env { env.(at := file) }

  /** Where every reference anywhere in a value leads, read as standing in the file at hand. */
  function Targets(env: Env, j: Json): set<Target> {
    match j
    case Arr(a) => set i, t | 0 <= i < |a| && t in Targets(env, a[i]) :: t
    case Obj(m) =>
      (set k | k in m && env.kind(k).Reference? && m[k].Str? :: env.target(env.at, m[k].s))
      + (set k, t | k in m && t in Targets(env, m[k]) :: t)
    case _ => {}
  }

  lemma TargetsOfMember(env: Env, j: Json, k: string)
    requires j.Obj? && k in j.m
    ensures Targets(env, j.m[k]) <= Targets(env, j)
    ensures env.kind(k).Reference? && j.m[k].Str? ==> env.target(env.at, j.m[k].s) in Targets(env, j)
  {
  }

  lemma TargetsOfItem(env: Env, j: Json, i: nat)
    requires j.Arr? && i < |j.a|
    ensures Targets(env, j.a[i]) <= Targets(env, j)
  {
  }

  // --- references answered alike ----------------------------------------------------------------------------------

  ghost predicate TargetHolds(env: Env, fuel: nat, t: Target, v: Json) {
    && Find(env.files, t).Some?
    && (if fuel == 0 then env.base else Accepts(StandingIn(env, t.file), fuel - 1, Find(env.files, t).value, v))
  }

  ghost predicate TargetSees(env: Env, fuel: nat, t: Target, v: Json, p: Place)
    requires Within(v, p)
  {
    && fuel > 0 && Find(env.files, t).Some?
    && Sees(StandingIn(env, t.file), fuel - 1, Find(env.files, t).value, v, p)
  }

  /** What the target accepts, and of what it accepts what it says something of. */
  ghost predicate Agrees(a: Env, fa: nat, b: Env, fb: nat, t: Target) {
    && (forall v :: TargetHolds(a, fa, t, v) <==> TargetHolds(b, fb, t, v))
    && (forall v, p | Within(v, p) :: TargetSees(a, fa, t, v, p) <==> TargetSees(b, fb, t, v, p))
  }

  /** Every reference of the schema is answered alike. */
  ghost predicate Alike(a: Env, fa: nat, b: Env, fb: nat, x: Json) {
    SameReading(a, b) && forall t | t in Targets(a, x) :: Agrees(a, fa, b, fb, t)
  }

  lemma AlikeMember(a: Env, fa: nat, b: Env, fb: nat, x: Json, k: string)
    requires Alike(a, fa, b, fb, x) && x.Obj? && k in x.m
    ensures Alike(a, fa, b, fb, x.m[k])
  {
    TargetsOfMember(a, x, k);
  }

  lemma AlikeItem(a: Env, fa: nat, b: Env, fb: nat, x: Json, i: nat)
    requires Alike(a, fa, b, fb, x) && x.Arr? && i < |x.a|
    ensures Alike(a, fa, b, fb, x.a[i])
  {
    TargetsOfItem(a, x, i);
  }

  lemma RefAlike(a: Env, fa: nat, b: Env, fb: nat, x: Json, k: string, v: Json)
    requires Alike(a, fa, b, fb, x) && x.Obj? && k in x.m && a.kind(k).Reference? && x.m[k].Str?
    ensures RefHolds(a, fa, x.m[k], v) <==> RefHolds(b, fb, x.m[k], v)
    ensures forall p | Within(v, p) :: RefSees(a, fa, x.m[k], v, p) <==> RefSees(b, fb, x.m[k], v, p)
  {
    TargetsOfMember(a, x, k);
    var t := a.target(a.at, x.m[k].s);
    assert Agrees(a, fa, b, fb, t);
    assert TargetHolds(a, fa, t, v) <==> TargetHolds(b, fb, t, v);
    forall p | Within(v, p) ensures RefSees(a, fa, x.m[k], v, p) <==> RefSees(b, fb, x.m[k], v, p) {
      assert TargetSees(a, fa, t, v, p) <==> TargetSees(b, fb, t, v, p);
    }
  }

  // --- one schema, one meaning -------------------------------------------------------------------------------------

  /** A schema whose references are answered alike accepts the same values. */
  lemma {:induction false} SameAccepts(a: Env, fa: nat, b: Env, fb: nat, x: Json, v: Json)
    requires Alike(a, fa, b, fb, x)
    ensures Accepts(a, fa, x, v) <==> Accepts(b, fb, x, v)
    decreases x, 6, 0
  {
    if x.Obj? {
      forall k | k in x.m ensures KeywordOk(a, fa, x, k, v) <==> KeywordOk(b, fb, x, k, v) {
        SameKeyword(a, fa, b, fb, x, k, v);
      }
    }
  }

  lemma {:induction false} SameMember(a: Env, fa: nat, b: Env, fb: nat, x: Json, k: string, v: Json)
    requires Alike(a, fa, b, fb, x) && x.Obj? && k in x.m
    ensures Accepts(a, fa, x.m[k], v) <==> Accepts(b, fb, x.m[k], v)
    decreases x, 0, 0
  {
    AlikeMember(a, fa, b, fb, x, k);
    SameAccepts(a, fa, b, fb, x.m[k], v);
  }

  lemma {:induction false} SameBranch(a: Env, fa: nat, b: Env, fb: nat, x: Json, k: string, i: nat, v: Json)
    requires Alike(a, fa, b, fb, x) && x.Obj? && k in x.m && x.m[k].Arr? && i < |x.m[k].a|
    ensures Accepts(a, fa, x.m[k].a[i], v) <==> Accepts(b, fb, x.m[k].a[i], v)
    decreases x, 0, 0
  {
    AlikeMember(a, fa, b, fb, x, k);
    AlikeItem(a, fa, b, fb, x.m[k], i);
    SameAccepts(a, fa, b, fb, x.m[k].a[i], v);
  }

  lemma {:induction false} SameNamed(a: Env, fa: nat, b: Env, fb: nat, x: Json, k: string, n: string, v: Json)
    requires Alike(a, fa, b, fb, x) && x.Obj? && k in x.m && x.m[k].Obj? && n in x.m[k].m
    ensures Accepts(a, fa, x.m[k].m[n], v) <==> Accepts(b, fb, x.m[k].m[n], v)
    decreases x, 0, 0
  {
    AlikeMember(a, fa, b, fb, x, k);
    AlikeMember(a, fa, b, fb, x.m[k], n);
    SameAccepts(a, fa, b, fb, x.m[k].m[n], v);
  }

  lemma {:induction false} SameMatching(a: Env, fa: nat, b: Env, fb: nat, x: Json, k: string, items: seq<Json>)
    requires Alike(a, fa, b, fb, x) && x.Obj? && k in x.m
    ensures Matching(a, fa, x.m[k], items) == Matching(b, fb, x.m[k], items)
    decreases x, 1, |items|
  {
    if items != [] {
      SameMember(a, fa, b, fb, x, k, items[0]);
      SameMatching(a, fa, b, fb, x, k, items[1..]);
    }
  }

  lemma {:induction false} SameKeyword(a: Env, fa: nat, b: Env, fb: nat, x: Json, k: string, v: Json)
    requires Alike(a, fa, b, fb, x) && x.Obj? && k in x.m
    ensures KeywordOk(a, fa, x, k, v) <==> KeywordOk(b, fb, x, k, v)
    decreases x, 5, 0
  {
    match a.kind(k)
    case Properties => SameProperties(a, fa, b, fb, x, k, v);
    case AdditionalProperties => SameParts(a, fa, b, fb, x, k, v);
    case PropertyNames => SameParts(a, fa, b, fb, x, k, v);
    case Items => SameParts(a, fa, b, fb, x, k, v);
    case Not => SameParts(a, fa, b, fb, x, k, v);
    case PrefixItems => SamePrefix(a, fa, b, fb, x, k, v);
    case Contains => SameContains(a, fa, b, fb, x, k, v);
    case If => SameIf(a, fa, b, fb, x, k, v);
    case AllOf => SameBranches(a, fa, b, fb, x, k, v);
    case AnyOf => SameBranches(a, fa, b, fb, x, k, v);
    case OneOf => SameBranches(a, fa, b, fb, x, k, v);
    case Reference => SameReference(a, fa, b, fb, x, k, v);
    case Unevaluated(_) => SameUnevaluated(a, fa, b, fb, x, k, v);
    case _ => SameValue(a, fa, b, fb, x, k, v);
  }

  /** Keywords judged by their own value. */
  predicate Valued(k: Keyword) {
    k.Type? || k.Enum? || k.Const? || k.Required? || k.DependentRequired? || k.Bound? || k.Constraint? || k.UniqueItems?
  }

  /** Keywords that admit every value by themselves. */
  predicate Unvalued(k: Keyword) {
    k.Annotation? || k.Identity? || k.Definitions? || k.Then? || k.Else? || k.Unknown?
  }

  lemma KeywordIsValue(env: Env, fuel: nat, s: Json, k: string, v: Json)
    requires s.Obj? && k in s.m && (Valued(env.kind(k)) || Unvalued(env.kind(k)))
    ensures KeywordOk(env, fuel, s, k, v) <==> ValueOk(env.kind, env.holds, k, s.m[k], v)
    ensures Unvalued(env.kind(k)) ==> KeywordOk(env, fuel, s, k, v)
  {
  }

  lemma SameValue(a: Env, fa: nat, b: Env, fb: nat, x: Json, k: string, v: Json)
    requires a.kind == b.kind && a.holds == b.holds && x.Obj? && k in x.m && (Valued(a.kind(k)) || Unvalued(a.kind(k)))
    ensures KeywordOk(a, fa, x, k, v) <==> KeywordOk(b, fb, x, k, v)
  {
    KeywordIsValue(a, fa, x, k, v);
    KeywordIsValue(b, fb, x, k, v);
  }

  lemma SameReference(a: Env, fa: nat, b: Env, fb: nat, x: Json, k: string, v: Json)
    requires Alike(a, fa, b, fb, x) && x.Obj? && k in x.m && a.kind(k).Reference?
    ensures KeywordOk(a, fa, x, k, v) <==> KeywordOk(b, fb, x, k, v)
  {
    if x.m[k].Str? { RefAlike(a, fa, b, fb, x, k, v); }
  }

  lemma {:induction false} SameProperties(a: Env, fa: nat, b: Env, fb: nat, x: Json, k: string, v: Json)
    requires Alike(a, fa, b, fb, x) && x.Obj? && k in x.m && a.kind(k).Properties?
    ensures KeywordOk(a, fa, x, k, v) <==> KeywordOk(b, fb, x, k, v)
    decreases x, 4, 0
  {
    if v.Obj? && x.m[k].Obj? {
      forall n | n in x.m[k].m && n in v.m
        ensures Accepts(a, fa, x.m[k].m[n], v.m[n]) <==> Accepts(b, fb, x.m[k].m[n], v.m[n])
      {
        SameNamed(a, fa, b, fb, x, k, n, v.m[n]);
      }
    }
  }

  /** Keywords with one schema, asked of the value, of members, of names or of items. */
  lemma {:induction false} SameParts(a: Env, fa: nat, b: Env, fb: nat, x: Json, k: string, v: Json)
    requires Alike(a, fa, b, fb, x) && x.Obj? && k in x.m
    requires a.kind(k).AdditionalProperties? || a.kind(k).PropertyNames? || a.kind(k).Items? || a.kind(k).Not?
    ensures KeywordOk(a, fa, x, k, v) <==> KeywordOk(b, fb, x, k, v)
    decreases x, 4, 0
  {
    forall w ensures Accepts(a, fa, x.m[k], w) <==> Accepts(b, fb, x.m[k], w) { SameMember(a, fa, b, fb, x, k, w); }
  }

  lemma {:induction false} SamePrefix(a: Env, fa: nat, b: Env, fb: nat, x: Json, k: string, v: Json)
    requires Alike(a, fa, b, fb, x) && x.Obj? && k in x.m && a.kind(k).PrefixItems?
    ensures KeywordOk(a, fa, x, k, v) <==> KeywordOk(b, fb, x, k, v)
    decreases x, 4, 0
  {
    if v.Arr? && x.m[k].Arr? {
      forall i | 0 <= i < |x.m[k].a| && i < |v.a|
        ensures Accepts(a, fa, x.m[k].a[i], v.a[i]) <==> Accepts(b, fb, x.m[k].a[i], v.a[i])
      {
        SameBranch(a, fa, b, fb, x, k, i, v.a[i]);
      }
    }
  }

  lemma {:induction false} SameContains(a: Env, fa: nat, b: Env, fb: nat, x: Json, k: string, v: Json)
    requires Alike(a, fa, b, fb, x) && x.Obj? && k in x.m && a.kind(k).Contains?
    ensures KeywordOk(a, fa, x, k, v) <==> KeywordOk(b, fb, x, k, v)
    decreases x, 4, 0
  {
    if v.Arr? {
      SameMatching(a, fa, b, fb, x, k, v.a);
      forall i | 0 <= i < |v.a| ensures Accepts(a, fa, x.m[k], v.a[i]) <==> Accepts(b, fb, x.m[k], v.a[i]) {
        SameMember(a, fa, b, fb, x, k, v.a[i]);
      }
    }
  }

  lemma IfOk(env: Env, fuel: nat, s: Json, k: string, v: Json)
    requires s.Obj? && k in s.m && env.kind(k).If?
    ensures KeywordOk(env, fuel, s, k, v) <==>
            if Accepts(env, fuel, s.m[k], v) then "then" in s.m ==> Accepts(env, fuel, s.m["then"], v)
            else "else" in s.m ==> Accepts(env, fuel, s.m["else"], v)
  {
  }

  /** Exactly one branch accepts. */
  ghost predicate AcceptedOnce(env: Env, fuel: nat, branches: seq<Json>, v: Json) {
    exists i :: 0 <= i < |branches| && Accepts(env, fuel, branches[i], v) && OnlyOne(env, fuel, branches, i, v)
  }

  ghost predicate OnlyOne(env: Env, fuel: nat, branches: seq<Json>, i: nat, v: Json) {
    forall j | 0 <= j < |branches| && j != i :: !Accepts(env, fuel, branches[j], v)
  }

  lemma OneOfOk(env: Env, fuel: nat, s: Json, k: string, v: Json)
    requires s.Obj? && k in s.m && env.kind(k).OneOf? && s.m[k].Arr?
    ensures KeywordOk(env, fuel, s, k, v) <==> AcceptedOnce(env, fuel, s.m[k].a, v)
  {
    var x := s.m[k];
    if AcceptedOnce(env, fuel, x.a, v) {
      var i :| 0 <= i < |x.a| && Accepts(env, fuel, x.a[i], v) && OnlyOne(env, fuel, x.a, i, v);
      assert Accepts(env, fuel, x.a[i], v) && forall j | 0 <= j < |x.a| && j != i :: !Accepts(env, fuel, x.a[j], v);
    } else {
      forall i: nat | i < |x.a| && Accepts(env, fuel, x.a[i], v)
        ensures exists j :: 0 <= j < |x.a| && j != i && Accepts(env, fuel, x.a[j], v)
      {
        assert !OnlyOne(env, fuel, x.a, i, v);
      }
    }
  }

  lemma {:induction false} SameIf(a: Env, fa: nat, b: Env, fb: nat, x: Json, k: string, v: Json)
    requires Alike(a, fa, b, fb, x) && x.Obj? && k in x.m && a.kind(k).If?
    ensures KeywordOk(a, fa, x, k, v) <==> KeywordOk(b, fb, x, k, v)
    decreases x, 4, 0
  {
    SameMember(a, fa, b, fb, x, k, v);
    var outcome := if Accepts(a, fa, x.m[k], v) then "then" else "else";
    if outcome in x.m { SameMember(a, fa, b, fb, x, outcome, v); }
    IfOk(a, fa, x, k, v);
    IfOk(b, fb, x, k, v);
  }

  lemma {:induction false} SameBranches(a: Env, fa: nat, b: Env, fb: nat, x: Json, k: string, v: Json)
    requires Alike(a, fa, b, fb, x) && x.Obj? && k in x.m && a.kind(k).Combined()
    ensures KeywordOk(a, fa, x, k, v) <==> KeywordOk(b, fb, x, k, v)
    decreases x, 4, 0
  {
    if x.m[k].Arr? {
      forall i | 0 <= i < |x.m[k].a| ensures Accepts(a, fa, x.m[k].a[i], v) <==> Accepts(b, fb, x.m[k].a[i], v) {
        SameBranch(a, fa, b, fb, x, k, i, v);
      }
      BranchesDecide(a, fa, b, fb, x, k, v);
    }
  }

  lemma BranchesDecide(a: Env, fa: nat, b: Env, fb: nat, x: Json, k: string, v: Json)
    requires a.kind == b.kind && x.Obj? && k in x.m && a.kind(k).Combined() && x.m[k].Arr?
    requires forall i | 0 <= i < |x.m[k].a| :: Accepts(a, fa, x.m[k].a[i], v) <==> Accepts(b, fb, x.m[k].a[i], v)
    ensures KeywordOk(a, fa, x, k, v) <==> KeywordOk(b, fb, x, k, v)
  {
    match a.kind(k)
    case AllOf =>
    case AnyOf =>
    case OneOf =>
      OneOfOk(a, fa, x, k, v);
      OneOfOk(b, fb, x, k, v);
      OnceAlike(a, fa, b, fb, x.m[k].a, v);
  }

  lemma OnceAlike(a: Env, fa: nat, b: Env, fb: nat, branches: seq<Json>, v: Json)
    requires forall i | 0 <= i < |branches| :: Accepts(a, fa, branches[i], v) <==> Accepts(b, fb, branches[i], v)
    ensures AcceptedOnce(a, fa, branches, v) <==> AcceptedOnce(b, fb, branches, v)
  {
    forall i: nat | i < |branches| ensures OnlyOne(a, fa, branches, i, v) <==> OnlyOne(b, fb, branches, i, v) {}
  }

  // --- what is seen --------------------------------------------------------------------------------------------------

  lemma {:induction false} SameSees(a: Env, fa: nat, b: Env, fb: nat, x: Json, v: Json, p: Place)
    requires Alike(a, fa, b, fb, x) && Within(v, p)
    ensures Sees(a, fa, x, v, p) <==> Sees(b, fb, x, v, p)
    decreases x, 6, 0
  {
    if x.Obj? {
      forall k | k in x.m ensures KeySees(a, fa, x, k, v, p) <==> KeySees(b, fb, x, k, v, p) {
        SameKeySees(a, fa, b, fb, x, k, v, p);
      }
    }
  }

  lemma {:induction false} SameKeySees(a: Env, fa: nat, b: Env, fb: nat, x: Json, k: string, v: Json, p: Place)
    requires Alike(a, fa, b, fb, x) && x.Obj? && k in x.m && Within(v, p)
    ensures KeySees(a, fa, x, k, v, p) <==> KeySees(b, fb, x, k, v, p)
    decreases x, 3, 0
  {
    match a.kind(k)
    case Contains => SameMember(a, fa, b, fb, x, k, Part(v, p));
    case AllOf => SameBranchesSee(a, fa, b, fb, x, k, v, p);
    case AnyOf => SameBranchesSee(a, fa, b, fb, x, k, v, p);
    case OneOf => SameBranchesSee(a, fa, b, fb, x, k, v, p);
    case If => SameIfSees(a, fa, b, fb, x, k, v, p);
    case Reference => if x.m[k].Str? { RefAlike(a, fa, b, fb, x, k, v); }
    case _ =>
  }

  lemma {:induction false} SameBranchesSee(a: Env, fa: nat, b: Env, fb: nat, x: Json, k: string, v: Json, p: Place)
    requires Alike(a, fa, b, fb, x) && x.Obj? && k in x.m && Within(v, p) && a.kind(k).Combined()
    ensures KeySees(a, fa, x, k, v, p) <==> KeySees(b, fb, x, k, v, p)
    decreases x, 2, 0
  {
    if x.m[k].Arr? {
      AlikeMember(a, fa, b, fb, x, k);
      forall i | 0 <= i < |x.m[k].a|
        ensures Accepts(a, fa, x.m[k].a[i], v) <==> Accepts(b, fb, x.m[k].a[i], v)
        ensures Sees(a, fa, x.m[k].a[i], v, p) <==> Sees(b, fb, x.m[k].a[i], v, p)
      {
        AlikeItem(a, fa, b, fb, x.m[k], i);
        SameAccepts(a, fa, b, fb, x.m[k].a[i], v);
        SameSees(a, fa, b, fb, x.m[k].a[i], v, p);
      }
    }
  }

  lemma {:induction false} SameMemberSees(a: Env, fa: nat, b: Env, fb: nat, x: Json, k: string, v: Json, p: Place)
    requires Alike(a, fa, b, fb, x) && x.Obj? && k in x.m && Within(v, p)
    ensures Sees(a, fa, x.m[k], v, p) <==> Sees(b, fb, x.m[k], v, p)
    decreases x, 0, 0
  {
    AlikeMember(a, fa, b, fb, x, k);
    SameSees(a, fa, b, fb, x.m[k], v, p);
  }

  lemma IfSees(env: Env, fuel: nat, s: Json, k: string, v: Json, p: Place)
    requires s.Obj? && k in s.m && env.kind(k).If? && Within(v, p)
    ensures KeySees(env, fuel, s, k, v, p) <==>
            if Accepts(env, fuel, s.m[k], v)
            then Sees(env, fuel, s.m[k], v, p) || ("then" in s.m && Sees(env, fuel, s.m["then"], v, p))
            else "else" in s.m && Sees(env, fuel, s.m["else"], v, p)
  {
  }

  lemma {:induction false} SameIfSees(a: Env, fa: nat, b: Env, fb: nat, x: Json, k: string, v: Json, p: Place)
    requires Alike(a, fa, b, fb, x) && x.Obj? && k in x.m && Within(v, p) && a.kind(k).If?
    ensures KeySees(a, fa, x, k, v, p) <==> KeySees(b, fb, x, k, v, p)
    decreases x, 2, 0
  {
    SameMember(a, fa, b, fb, x, k, v);
    SameMemberSees(a, fa, b, fb, x, k, v, p);
    var outcome := if Accepts(a, fa, x.m[k], v) then "then" else "else";
    if outcome in x.m { SameMemberSees(a, fa, b, fb, x, outcome, v, p); }
    IfSees(a, fa, x, k, v, p);
    IfSees(b, fb, x, k, v, p);
  }

  lemma {:induction false} SameUnevaluated(a: Env, fa: nat, b: Env, fb: nat, x: Json, k: string, v: Json)
    requires Alike(a, fa, b, fb, x) && x.Obj? && k in x.m && a.kind(k).Unevaluated?
    ensures KeywordOk(a, fa, x, k, v) <==> KeywordOk(b, fb, x, k, v)
    decreases x, 4, 0
  {
    forall p | Within(v, p)
      ensures Accepts(a, fa, x.m[k], Part(v, p)) <==> Accepts(b, fb, x.m[k], Part(v, p))
      ensures forall other | other in x.m :: KeySees(a, fa, x, other, v, p) <==> KeySees(b, fb, x, other, v, p)
    {
      SameMember(a, fa, b, fb, x, k, Part(v, p));
      forall other | other in x.m ensures KeySees(a, fa, x, other, v, p) <==> KeySees(b, fb, x, other, v, p) {
        SameKeySees(a, fa, b, fb, x, other, v, p);
      }
    }
  }
}
