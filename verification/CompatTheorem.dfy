/** Soundness of the classifier: what it calls compatible keeps every document, by induction over the
    documents' schemas, keyword by keyword, and through references from file to file. */
module CompatTheorem {
  import opened Text
  import opened Json
  import opened Compat
  import opened Schema
  import opened CompatSound
  import opened CompatMeaning
  import opened References

  /** The files a theorem is about, and the targets among them that did not change. */
  datatype Plan = Plan(scope: set<string>, still: set<Target>)

  /** Two well-formed nodes, compared in silence. */
  ghost predicate Widens(kind: Reading, was: Json, now: Json) {
    WellFormed(kind, was) && WellFormed(kind, now) && Silent(kind, was, now)
  }

  /** Its subschemas decide by what they refuse or by how many accept. */
  predicate Conditioning(k: Keyword, m: map<string, Json>) {
    k.If? || k.Not? || k.OneOf? || (k.Contains? && Counts(m))
  }

  /** Where being wider does not carry over, references lead to what did not change. */
  ghost predicate Settled(env: Env, j: Json, still: set<Target>) {
    match j
    case Arr(a) => forall i | 0 <= i < |a| :: Settled(env, a[i], still)
    case Obj(m) =>
      && (forall k | k in m ::
            Settled(env, m[k], still) && (Conditioning(env.kind(k), m) ==> Targets(env, m[k]) <= still))
      && ((exists k :: k in m && env.kind(k).Unevaluated?) ==> Targets(env, j) <= still)
    case _ => true
  }

  /** Through members of lists by name only: properties and definitions. */
  predicate Proper(kind: Reading, path: seq<string>) {
    path == [] || (|path| >= 2 && kind(path[0]).Named() && Proper(kind, path[2..]))
  }

  /** A reference leads into the scope, and where it led somewhere it still does. */
  ghost predicate Led(a: Env, b: Env, plan: Plan, t: Target) {
    && Proper(a.kind, t.path)
    && (t.file in a.files ==> t.file in plan.scope)
    && (Find(a.files, t).Some? ==> Find(b.files, t).Some?)
  }

  /** What is asked of the references in a schema. */
  ghost predicate Ready(a: Env, b: Env, plan: Plan, s: Json) {
    (forall t | t in Targets(a, s) :: Led(a, b, plan, t)) && Settled(a, s, plan.still)
  }

  ghost predicate Followed(a: Env, b: Env, plan: Plan, f: string) {
    && f in a.files && f in b.files
    && Widens(a.kind, a.files[f], b.files[f])
    && Ready(StandingIn(a, f), StandingIn(b, f), plan, a.files[f])
  }

  /** The files of the scope are followed by themselves as they are now. */
  ghost predicate Follows(a: Env, b: Env, plan: Plan) {
    && SameReading(a, b) && a.base == b.base && Recognises(a.kind) && Still(a, b, plan.still)
    && forall f {:trigger Followed(a, b, plan, f)} | f in plan.scope :: Followed(a, b, plan, f)
  }

  lemma FollowsAnywhere(a: Env, b: Env, plan: Plan, f: string)
    requires Follows(a, b, plan)
    ensures Follows(StandingIn(a, f), StandingIn(b, f), plan)
  {
    var c, d := StandingIn(a, f), StandingIn(b, f);
    forall g | g in plan.scope ensures Followed(c, d, plan, g) {
      assert Followed(a, b, plan, g);
      assert StandingIn(c, g) == StandingIn(a, g) && StandingIn(d, g) == StandingIn(b, g);
    }
  }

  lemma ReadyMember(a: Env, b: Env, plan: Plan, s: Json, k: string)
    requires Ready(a, b, plan, s) && s.Obj? && k in s.m
    ensures Ready(a, b, plan, s.m[k])
  {
    TargetsOfMember(a, s, k);
  }

  lemma ReadyItem(a: Env, b: Env, plan: Plan, s: Json, i: nat)
    requires Ready(a, b, plan, s) && s.Arr? && i < |s.a|
    ensures Ready(a, b, plan, s.a[i])
  {
    TargetsOfItem(a, s, i);
  }

  lemma ReadyNamed(a: Env, b: Env, plan: Plan, s: Json, k: string, n: string)
    requires Ready(a, b, plan, s) && s.Obj? && k in s.m && s.m[k].Obj? && n in s.m[k].m
    ensures Ready(a, b, plan, s.m[k].m[n])
  {
    ReadyMember(a, b, plan, s, k);
    ReadyMember(a, b, plan, s.m[k], n);
  }

  lemma ReadyBranch(a: Env, b: Env, plan: Plan, s: Json, k: string, i: nat)
    requires Ready(a, b, plan, s) && s.Obj? && k in s.m && s.m[k].Arr? && i < |s.m[k].a|
    ensures Ready(a, b, plan, s.m[k].a[i])
  {
    ReadyMember(a, b, plan, s, k);
    ReadyItem(a, b, plan, s.m[k], i);
  }

  lemma WidensCompared(kind: Reading, was: Json, now: Json)
    requires Widens(kind, was, now)
    ensures Compared(kind, was, now) || was == Bool(false) || now == Bool(true)
  {
    QuietShapes(kind, was, now);
  }

  // --- references ----------------------------------------------------------------------------------------------------

  lemma NamedWidens(kind: Reading, was: Json, now: Json, k: string, n: string)
    requires Compared(kind, was, now) && kind(k).Named()
    requires n in Members(Get(was.m, k)) && n in Members(Get(now.m, k))
    ensures Widens(kind, was.m[k].m[n], now.m[k].m[n])
  {
    KeyIsSilent(kind, was, now, k);
    NamesKept(kind, was, now, k, n);
    KeyOf(kind, was, now, k);
  }

  lemma {:induction false} PathWidens(a: Env, b: Env, plan: Plan, was: Json, now: Json, path: seq<string>)
    requires Widens(a.kind, was, now) && Ready(a, b, plan, was) && Proper(a.kind, path)
    requires Lookup(was, path).Some? && Lookup(now, path).Some?
    ensures Widens(a.kind, Lookup(was, path).value, Lookup(now, path).value)
    ensures Ready(a, b, plan, Lookup(was, path).value)
    decreases |path|
  {
    if path != [] {
      WidensCompared(a.kind, was, now);
      var k, n := path[0], path[1];
      assert path[1..][0] == n && path[1..][1..] == path[2..];
      assert n in Members(Get(was.m, k)) && n in Members(Get(now.m, k));
      NamedWidens(a.kind, was, now, k, n);
      ReadyNamed(a, b, plan, was, k, n);
      PathWidens(a, b, plan, was.m[k].m[n], now.m[k].m[n], path[2..]);
    }
  }

  /** A reference that led to a schema leads to one at least as wide. */
  lemma ReferenceWidens(a: Env, b: Env, plan: Plan, t: Target)
    requires Follows(a, b, plan) && Led(a, b, plan, t) && Find(a.files, t).Some?
    ensures Find(b.files, t).Some? && Widens(a.kind, Find(a.files, t).value, Find(b.files, t).value)
    ensures Ready(StandingIn(a, t.file), StandingIn(b, t.file), plan, Find(a.files, t).value)
  {
    assert Followed(a, b, plan, t.file);
    PathWidens(StandingIn(a, t.file), StandingIn(b, t.file), plan, a.files[t.file], b.files[t.file], t.path);
  }

  // --- keywords with no schema inside ---------------------------------------------------------------------------

  lemma ValueSound(kind: Reading, holds: (string, Json, Json) -> bool, was: Json, now: Json, k: string, v: Json)
    requires Compared(kind, was, now) && k in now.m && Valued(kind(k))
    requires k in was.m ==> ValueOk(kind, holds, k, was.m[k], v)
    ensures ValueOk(kind, holds, k, now.m[k], v)
  {
    KeyOf(kind, was, now, k);
    KeyIsSilent(kind, was, now, k);
    if kind(k).Type? || kind(k).Enum? {
      SetWidens(kind, was, now, k);
    } else if kind(k).Constraint? || kind(k).Const? {
      ConstraintKept(kind, was, now, k);
    } else if kind(k).Bound? {
      BoundLoosens(kind, was, now, k);
    } else if kind(k).UniqueItems? {
      if now.m[k] == Bool(true) { UniquenessKept(kind, was, now, k); }
    } else if kind(k).Required? {
      RequiredKept(kind, was, now, k);
    } else {
      forall n | n in Members(now.m[k])
        ensures n in Members(Get(was.m, k)) && Members(Get(was.m, k))[n] == Members(now.m[k])[n]
      {
        DependentKept(kind, was, now, k, n);
      }
    }
  }

  // --- the theorem ------------------------------------------------------------------------------------------------

  /** What the induction knows of two nodes. */
  ghost predicate Facing(a: Env, b: Env, plan: Plan, was: Json, now: Json) {
    Follows(a, b, plan) && Compared(a.kind, was, now) && Ready(a, b, plan, was)
  }

  /** Whatever the old schema accepts, the new one accepts. */
  lemma {:induction false} Sound(a: Env, b: Env, plan: Plan, fuel: nat, was: Json, now: Json, v: Json)
    requires Follows(a, b, plan) && Widens(a.kind, was, now) && Ready(a, b, plan, was) && Accepts(a, fuel, was, v)
    ensures Accepts(b, fuel, now, v)
    decreases fuel, was, 3
  {
    WidensCompared(a.kind, was, now);
    if now != Bool(true) {
      forall k | k in now.m ensures KeywordOk(b, fuel, now, k, v) {
        SoundKey(a, b, plan, fuel, was, now, k, v);
      }
    }
  }

  lemma ListedKey(kind: Reading, s: Json, k: string)
    requires s.Obj? && WellFormed(kind, s) && k in s.m
    ensures !kind(k).Unknown?
  {
    assert Formed(kind, s, k);
  }

  lemma {:induction false} SoundKey(a: Env, b: Env, plan: Plan, fuel: nat, was: Json, now: Json, k: string, v: Json)
    requires Facing(a, b, plan, was, now) && Accepts(a, fuel, was, v) && k in now.m
    ensures KeywordOk(b, fuel, now, k, v)
    decreases fuel, was, 2
  {
    ListedKey(a.kind, now, k);
    match a.kind(k)
    case Properties => SoundProperties(a, b, plan, fuel, was, now, k, v);
    case AdditionalProperties => SoundAdditional(a, b, plan, fuel, was, now, k, v);
    case PropertyNames => SoundNames(a, b, plan, fuel, was, now, k, v);
    case Items => SoundItems(a, b, plan, fuel, was, now, k, v);
    case PrefixItems => SoundPrefix(a, b, plan, fuel, was, now, k, v);
    case Contains =>
      if Counts(was.m) || Counts(now.m) { SoundCounted(a, b, plan, fuel, was, now, k, v); }
      else { SoundContains(a, b, plan, fuel, was, now, k, v); }
    case Unevaluated(_) => SoundUnevaluated(a, b, plan, fuel, was, now, k, v);
    case If => SoundIf(a, b, plan, fuel, was, now, k, v);
    case Not => SoundNot(a, b, plan, fuel, was, now, k, v);
    case AllOf => SoundAllOf(a, b, plan, fuel, was, now, k, v);
    case AnyOf => SoundAnyOf(a, b, plan, fuel, was, now, k, v);
    case OneOf => SoundOneOf(a, b, plan, fuel, was, now, k, v);
    case Reference => SoundReference(a, b, plan, fuel, was, now, k, v);
    case _ => SoundValue(a, b, plan, fuel, was, now, k, v);
  }

  lemma SoundValue(a: Env, b: Env, plan: Plan, fuel: nat, was: Json, now: Json, k: string, v: Json)
    requires Facing(a, b, plan, was, now) && Accepts(a, fuel, was, v) && k in now.m
    requires Valued(a.kind(k)) || Unvalued(a.kind(k))
    ensures KeywordOk(b, fuel, now, k, v)
  {
    KeywordIsValue(b, fuel, now, k, v);
    if Valued(a.kind(k)) {
      if k in was.m { KeywordIsValue(a, fuel, was, k, v); }
      ValueSound(a.kind, a.holds, was, now, k, v);
    }
  }

  // --- members ------------------------------------------------------------------------------------------------------

  /** A property that was not there, the old node refused. */
  lemma AddedToClosed(kind: Reading, was: Json, now: Json, k: string, n: string)
    requires Compared(kind, was, now) && kind(k).Properties?
    requires n in Members(Get(now.m, k)) && n !in Members(Get(was.m, k))
    ensures Get(was.m, "additionalProperties") == Bool(false)
  {
    KeyIsSilent(kind, was, now, k);
    NamesKept(kind, was, now, k, n);
  }

  lemma AcceptsProperty(env: Env, fuel: nat, s: Json, k: string, v: Json, n: string)
    requires s.Obj? && Accepts(env, fuel, s, v) && v.Obj? && n in v.m && env.kind(k).Properties? &&
             n in Members(Get(s.m, k))
    ensures Accepts(env, fuel, s.m[k].m[n], v.m[n])
  {
    assert KeywordOk(env, fuel, s, k, v);
  }

  lemma ClosedRefuses(env: Env, fuel: nat, s: Json, v: Json, n: string)
    requires Recognises(env.kind) && s.Obj? && Get(s.m, "additionalProperties") == Bool(false)
    requires v.Obj? && n in v.m && n !in Members(Get(s.m, "properties"))
    ensures !Accepts(env, fuel, s, v)
  {
    assert !KeywordOk(env, fuel, s, "additionalProperties", v);
  }

  lemma {:induction false} SoundProperties(a: Env, b: Env, plan: Plan, fuel: nat, was: Json, now: Json, k: string,
          v: Json)
    requires Facing(a, b, plan, was, now) && Accepts(a, fuel, was, v) && k in now.m && a.kind(k).Properties?
    ensures KeywordOk(b, fuel, now, k, v)
    decreases fuel, was, 1
  {
    if v.Obj? && now.m[k].Obj? {
      forall n | n in now.m[k].m && n in v.m ensures Accepts(b, fuel, now.m[k].m[n], v.m[n]) {
        SoundProperty(a, b, plan, fuel, was, now, k, v, n);
      }
    }
  }

  lemma {:induction false} SoundProperty(a: Env, b: Env, plan: Plan, fuel: nat, was: Json, now: Json, k: string,
          v: Json, n: string)
    requires Facing(a, b, plan, was, now) && Accepts(a, fuel, was, v) && k in now.m && a.kind(k).Properties?
    requires v.Obj? && now.m[k].Obj? && n in now.m[k].m && n in v.m
    ensures Accepts(b, fuel, now.m[k].m[n], v.m[n])
    decreases fuel, was, 0
  {
    if n in Members(Get(was.m, k)) {
      NamedWidens(a.kind, was, now, k, n);
      ReadyNamed(a, b, plan, was, k, n);
      AcceptsProperty(a, fuel, was, k, v, n);
      Sound(a, b, plan, fuel, was.m[k].m[n], now.m[k].m[n], v.m[n]);
    } else {
      AddedToClosed(a.kind, was, now, k, n);
      ClosedRefuses(a, fuel, was, v, n);
    }
  }

  lemma SubsWiden(kind: Reading, was: Json, now: Json, k: string)
    requires Compared(kind, was, now) && k in now.m && kind(k).Sub() && now.m[k] != Bool(true)
    ensures k in was.m && Widens(kind, was.m[k], now.m[k])
  {
    SubWidens(kind, was, now, k);
    KeyOf(kind, was, now, k);
  }

  /** A name the new node does not list, the old one did not. */
  lemma StillUnlisted(kind: Reading, was: Json, now: Json, n: string)
    requires kind("properties").Properties? && Compared(kind, was, now) && n !in Members(Get(now.m, "properties"))
    ensures n !in Members(Get(was.m, "properties"))
  {
    if n in Members(Get(was.m, "properties")) {
      KeyIsSilent(kind, was, now, "properties");
      NamesKept(kind, was, now, "properties", n);
    }
  }

  lemma AcceptsOther(env: Env, fuel: nat, s: Json, k: string, v: Json, n: string)
    requires s.Obj? && Accepts(env, fuel, s, v) && k in s.m && env.kind(k).AdditionalProperties?
    requires v.Obj? && n in v.m && n !in Members(Get(s.m, "properties"))
    ensures Accepts(env, fuel, s.m[k], v.m[n])
  {
    assert KeywordOk(env, fuel, s, k, v);
  }

  lemma OthersOk(env: Env, fuel: nat, s: Json, k: string, v: Json)
    requires s.Obj? && k in s.m && env.kind(k).AdditionalProperties?
    requires s.m[k] != Bool(true) && v.Obj? ==>
      forall n | n in v.m && n !in Members(Get(s.m, "properties")) :: Accepts(env, fuel, s.m[k], v.m[n])
    ensures KeywordOk(env, fuel, s, k, v)
  {
  }

  lemma {:induction false} SoundAdditional(a: Env, b: Env, plan: Plan, fuel: nat, was: Json, now: Json, k: string,
          v: Json)
    requires Facing(a, b, plan, was, now) && Accepts(a, fuel, was, v) && k in now.m && a.kind(k).AdditionalProperties?
    ensures KeywordOk(b, fuel, now, k, v)
    decreases fuel, was, 1
  {
    if now.m[k] != Bool(true) && v.Obj? {
      forall n | n in v.m && n !in Members(Get(now.m, "properties")) ensures Accepts(b, fuel, now.m[k], v.m[n]) {
        SoundOther(a, b, plan, fuel, was, now, k, v, n);
      }
    }
    OthersOk(b, fuel, now, k, v);
  }

  lemma PropertiesKey(kind: Reading)
    requires Recognises(kind)
    ensures kind("properties").Properties?
  {
  }

  lemma {:induction false} SoundOther(a: Env, b: Env, plan: Plan, fuel: nat, was: Json, now: Json, k: string, v: Json,
          n: string)
    requires Facing(a, b, plan, was, now) && Accepts(a, fuel, was, v) && k in now.m && a.kind(k).AdditionalProperties?
    requires now.m[k] != Bool(true) && v.Obj? && n in v.m && n !in Members(Get(now.m, "properties"))
    ensures Accepts(b, fuel, now.m[k], v.m[n])
    decreases fuel, was, 0
  {
    PropertiesKey(a.kind);
    StillUnlisted(a.kind, was, now, n);
    SubsWiden(a.kind, was, now, k);
    ReadyMember(a, b, plan, was, k);
    AcceptsOther(a, fuel, was, k, v, n);
    Sound(a, b, plan, fuel, was.m[k], now.m[k], v.m[n]);
  }

  lemma AcceptsName(env: Env, fuel: nat, s: Json, k: string, v: Json, n: string)
    requires s.Obj? && Accepts(env, fuel, s, v) && k in s.m && env.kind(k).PropertyNames? && v.Obj? && n in v.m
    ensures Accepts(env, fuel, s.m[k], Str(n))
  {
    assert KeywordOk(env, fuel, s, k, v);
  }

  lemma NamesOk(env: Env, fuel: nat, s: Json, k: string, v: Json)
    requires s.Obj? && k in s.m && env.kind(k).PropertyNames?
    requires s.m[k] != Bool(true) && v.Obj? ==> forall n | n in v.m :: Accepts(env, fuel, s.m[k], Str(n))
    ensures KeywordOk(env, fuel, s, k, v)
  {
  }

  lemma {:induction false} SoundNames(a: Env, b: Env, plan: Plan, fuel: nat, was: Json, now: Json, k: string, v: Json)
    requires Facing(a, b, plan, was, now) && Accepts(a, fuel, was, v) && k in now.m && a.kind(k).PropertyNames?
    ensures KeywordOk(b, fuel, now, k, v)
    decreases fuel, was, 1
  {
    if now.m[k] != Bool(true) && v.Obj? {
      SubsWiden(a.kind, was, now, k);
      ReadyMember(a, b, plan, was, k);
      forall n | n in v.m ensures Accepts(b, fuel, now.m[k], Str(n)) {
        AcceptsName(a, fuel, was, k, v, n);
        Sound(a, b, plan, fuel, was.m[k], now.m[k], Str(n));
      }
    }
    NamesOk(b, fuel, now, k, v);
  }

  // --- items --------------------------------------------------------------------------------------------------------

  lemma NotNull(kind: Reading, s: Json, k: string)
    requires s.Obj? && WellFormed(kind, s) && k in s.m && kind(k).Sub()
    ensures !s.m[k].Null?
  {
    assert Formed(kind, s, k);
  }

  lemma SamePrefix(kind: Reading, was: Json, now: Json)
    requires kind("prefixItems").PrefixItems? && Compared(kind, was, now) && !Get(now.m, "items").Null?
    ensures |Subschemas(Get(was.m, "prefixItems"))| == |Subschemas(Get(now.m, "prefixItems"))|
  {
    PrefixKept(kind, was, now, "prefixItems");
  }

  lemma AcceptsItem(env: Env, fuel: nat, s: Json, k: string, v: Json, i: nat)
    requires s.Obj? && Accepts(env, fuel, s, v) && k in s.m && env.kind(k).Items?
    requires v.Arr? && |Subschemas(Get(s.m, "prefixItems"))| <= i < |v.a|
    ensures Accepts(env, fuel, s.m[k], v.a[i])
  {
    assert KeywordOk(env, fuel, s, k, v);
  }

  lemma ItemsKey(kind: Reading, k: string)
    requires Recognises(kind) && kind(k).Items?
    ensures k == "items" && kind("prefixItems").PrefixItems?
  {
  }

  lemma ItemsOk(env: Env, fuel: nat, s: Json, k: string, v: Json)
    requires s.Obj? && k in s.m && env.kind(k).Items?
    requires v.Arr? ==>
             forall i | |Subschemas(Get(s.m, "prefixItems"))| <= i < |v.a| :: Accepts(env, fuel, s.m[k], v.a[i])
    ensures KeywordOk(env, fuel, s, k, v)
  {
  }

  lemma {:induction false} SoundItems(a: Env, b: Env, plan: Plan, fuel: nat, was: Json, now: Json, k: string, v: Json)
    requires Facing(a, b, plan, was, now) && Accepts(a, fuel, was, v) && k in now.m && a.kind(k).Items?
    ensures KeywordOk(b, fuel, now, k, v)
    decreases fuel, was, 1
  {
    if v.Arr? {
      forall i | |Subschemas(Get(now.m, "prefixItems"))| <= i < |v.a| ensures Accepts(b, fuel, now.m[k], v.a[i]) {
        SoundItem(a, b, plan, fuel, was, now, k, v, i);
      }
    }
    ItemsOk(b, fuel, now, k, v);
  }

  lemma {:induction false} SoundItem(a: Env, b: Env, plan: Plan, fuel: nat, was: Json, now: Json, k: string, v: Json,
          i: nat)
    requires Facing(a, b, plan, was, now) && Accepts(a, fuel, was, v) && k in now.m && a.kind(k).Items?
    requires v.Arr? && |Subschemas(Get(now.m, "prefixItems"))| <= i < |v.a|
    ensures Accepts(b, fuel, now.m[k], v.a[i])
    decreases fuel, was, 0
  {
    if now.m[k] != Bool(true) {
      SubsWiden(a.kind, was, now, k);
      ReadyMember(a, b, plan, was, k);
      ItemsKey(a.kind, k);
      NotNull(a.kind, now, k);
      SamePrefix(a.kind, was, now);
      AcceptsItem(a, fuel, was, k, v, i);
      Sound(a, b, plan, fuel, was.m[k], now.m[k], v.a[i]);
    }
  }

  /** A positional subschema was there, at most as wide. */
  lemma PositionWidens(kind: Reading, was: Json, now: Json, k: string, i: nat)
    requires Compared(kind, was, now) && k in now.m && kind(k).PrefixItems? && i < |Subschemas(now.m[k])|
    ensures k in was.m && was.m[k].Arr? && i < |was.m[k].a| && Widens(kind, was.m[k].a[i], Subschemas(now.m[k])[i])
  {
    KeyOf(kind, was, now, k);
    PrefixKept(kind, was, now, k);
  }

  lemma AcceptsPosition(env: Env, fuel: nat, s: Json, k: string, v: Json, i: nat)
    requires s.Obj? && Accepts(env, fuel, s, v) && k in s.m && env.kind(k).PrefixItems?
    requires s.m[k].Arr? && v.Arr? && i < |s.m[k].a| && i < |v.a|
    ensures Accepts(env, fuel, s.m[k].a[i], v.a[i])
  {
    assert KeywordOk(env, fuel, s, k, v);
  }

  lemma {:induction false} SoundPrefix(a: Env, b: Env, plan: Plan, fuel: nat, was: Json, now: Json, k: string, v: Json)
    requires Facing(a, b, plan, was, now) && Accepts(a, fuel, was, v) && k in now.m && a.kind(k).PrefixItems?
    ensures KeywordOk(b, fuel, now, k, v)
    decreases fuel, was, 1
  {
    if v.Arr? && now.m[k].Arr? {
      forall i | 0 <= i < |now.m[k].a| && i < |v.a| ensures Accepts(b, fuel, now.m[k].a[i], v.a[i]) {
        PositionWidens(a.kind, was, now, k, i);
        ReadyBranch(a, b, plan, was, k, i);
        AcceptsPosition(a, fuel, was, k, v, i);
        Sound(a, b, plan, fuel, was.m[k].a[i], now.m[k].a[i], v.a[i]);
      }
    }
  }

  lemma ContainsOk(env: Env, fuel: nat, s: Json, k: string, v: Json)
    requires s.Obj? && k in s.m && env.kind(k).Contains? && !Counts(s.m)
    ensures KeywordOk(env, fuel, s, k, v) <==>
            (v.Arr? ==> exists i :: 0 <= i < |v.a| && Accepts(env, fuel, s.m[k], v.a[i]))
  {
  }

  lemma NotTrue(kind: Reading, s: Json, k: string)
    requires s.Obj? && WellFormed(kind, s) && k in s.m && kind(k).Contains?
    ensures s.m[k] != Bool(true)
  {
    assert Formed(kind, s, k);
  }

  lemma {:induction false} SoundContains(a: Env, b: Env, plan: Plan, fuel: nat, was: Json, now: Json, k: string,
          v: Json)
    requires Facing(a, b, plan, was, now) && Accepts(a, fuel, was, v) && k in now.m && a.kind(k).Contains?
    requires !Counts(was.m) && !Counts(now.m)
    ensures KeywordOk(b, fuel, now, k, v)
    decreases fuel, was, 1
  {
    NotTrue(a.kind, now, k);
    SubsWiden(a.kind, was, now, k);
    ReadyMember(a, b, plan, was, k);
    assert KeywordOk(a, fuel, was, k, v);
    ContainsOk(a, fuel, was, k, v);
    ContainsOk(b, fuel, now, k, v);
    if v.Arr? {
      var i :| 0 <= i < |v.a| && Accepts(a, fuel, was.m[k], v.a[i]);
      Sound(a, b, plan, fuel, was.m[k], now.m[k], v.a[i]);
    }
  }

  // --- what must not change: conditions, counts, and what is left unevaluated ---------------------------------------

  /** Two values of a keyword that are one, under which a reference leads to nothing that changed. */
  lemma SameUnder(a: Env, b: Env, plan: Plan, fuel: nat, x: Json, v: Json)
    requires Follows(a, b, plan) && Targets(a, x) <= plan.still
    ensures Accepts(a, fuel, x, v) <==> Accepts(b, fuel, x, v)
  {
    Congruent(a, b, fuel, x, v, plan.still);
  }

  lemma ConditionSettled(a: Env, b: Env, plan: Plan, was: Json, now: Json, k: string)
    requires Facing(a, b, plan, was, now) && k in now.m && Conditioning(a.kind(k), was.m)
    requires Get(was.m, k) == now.m[k] && !now.m[k].Null?
    ensures k in was.m && Targets(a, now.m[k]) <= plan.still
  {
  }

  lemma NotNullCondition(kind: Reading, s: Json, k: string)
    requires s.Obj? && WellFormed(kind, s) && k in s.m &&
             (kind(k).If? || kind(k).Not? || kind(k).OneOf? || kind(k).Contains?)
    ensures !s.m[k].Null? && (kind(k).OneOf? ==> s.m[k].Arr?)
  {
    assert Formed(kind, s, k);
  }

  lemma {:induction false} SoundIf(a: Env, b: Env, plan: Plan, fuel: nat, was: Json, now: Json, k: string, v: Json)
    requires Facing(a, b, plan, was, now) && Accepts(a, fuel, was, v) && k in now.m && a.kind(k).If?
    ensures KeywordOk(b, fuel, now, k, v)
    decreases fuel, was, 1
  {
    Unchanged(a.kind, was, now, k);
    NotNullCondition(a.kind, now, k);
    ConditionSettled(a, b, plan, was, now, k);
    SameUnder(a, b, plan, fuel, now.m[k], v);
    assert KeywordOk(a, fuel, was, k, v);
    IfOk(a, fuel, was, k, v);
    IfOk(b, fuel, now, k, v);
    var outcome := if Accepts(b, fuel, now.m[k], v) then "then" else "else";
    if outcome in now.m { SoundOutcome(a, b, plan, fuel, was, now, outcome, v); }
  }

  lemma {:induction false} SoundOutcome(a: Env, b: Env, plan: Plan, fuel: nat, was: Json, now: Json, k: string, v: Json)
    requires Facing(a, b, plan, was, now) && k in now.m && a.kind(k).Sub() &&
             (k in was.m ==> Accepts(a, fuel, was.m[k], v))
    ensures Accepts(b, fuel, now.m[k], v)
    decreases fuel, was, 0
  {
    if now.m[k] != Bool(true) {
      SubsWiden(a.kind, was, now, k);
      ReadyMember(a, b, plan, was, k);
      Sound(a, b, plan, fuel, was.m[k], now.m[k], v);
    }
  }

  lemma SoundNot(a: Env, b: Env, plan: Plan, fuel: nat, was: Json, now: Json, k: string, v: Json)
    requires Facing(a, b, plan, was, now) && Accepts(a, fuel, was, v) && k in now.m && a.kind(k).Not?
    ensures KeywordOk(b, fuel, now, k, v)
  {
    Unchanged(a.kind, was, now, k);
    NotNullCondition(a.kind, now, k);
    ConditionSettled(a, b, plan, was, now, k);
    SameUnder(a, b, plan, fuel, now.m[k], v);
    assert KeywordOk(a, fuel, was, k, v);
  }

  lemma SameOnce(a: Env, b: Env, plan: Plan, fuel: nat, x: Json, v: Json)
    requires Follows(a, b, plan) && x.Arr? && Targets(a, x) <= plan.still && AcceptedOnce(a, fuel, x.a, v)
    ensures AcceptedOnce(b, fuel, x.a, v)
  {
    forall i | 0 <= i < |x.a| ensures Accepts(a, fuel, x.a[i], v) <==> Accepts(b, fuel, x.a[i], v) {
      TargetsOfItem(a, x, i);
      SameUnder(a, b, plan, fuel, x.a[i], v);
    }
    var i :| 0 <= i < |x.a| && Accepts(a, fuel, x.a[i], v) && OnlyOne(a, fuel, x.a, i, v);
    assert OnlyOne(b, fuel, x.a, i, v);
  }

  lemma SoundOneOf(a: Env, b: Env, plan: Plan, fuel: nat, was: Json, now: Json, k: string, v: Json)
    requires Facing(a, b, plan, was, now) && Accepts(a, fuel, was, v) && k in now.m && a.kind(k).OneOf?
    ensures KeywordOk(b, fuel, now, k, v)
  {
    CountedUnchanged(a.kind, was, now, k);
    NotNullCondition(a.kind, now, k);
    ConditionSettled(a, b, plan, was, now, k);
    assert KeywordOk(a, fuel, was, k, v);
    OneOfOk(a, fuel, was, k, v);
    SameOnce(a, b, plan, fuel, now.m[k], v);
    OneOfOk(b, fuel, now, k, v);
  }

  lemma {:induction false} SameCount(a: Env, b: Env, plan: Plan, fuel: nat, x: Json, items: seq<Json>)
    requires Follows(a, b, plan) && Targets(a, x) <= plan.still
    ensures Matching(a, fuel, x, items) == Matching(b, fuel, x, items)
    decreases |items|
  {
    if items != [] {
      SameUnder(a, b, plan, fuel, x, items[0]);
      SameCount(a, b, plan, fuel, x, items[1..]);
    }
  }

  /** Both counts are what they were. */
  lemma CountsKept(kind: Reading, was: Json, now: Json)
    requires Recognises(kind) && Compared(kind, was, now)
    ensures Get(was.m, "minContains") == Get(now.m, "minContains")
    ensures Get(was.m, "maxContains") == Get(now.m, "maxContains")
  {
    if "minContains" in was.m || "minContains" in now.m { CountedUnchanged(kind, was, now, "minContains"); }
    if "maxContains" in was.m || "maxContains" in now.m { CountedUnchanged(kind, was, now, "maxContains"); }
  }

  /** What `contains` asks for, given the counts beside it. */
  ghost predicate Counted(env: Env, fuel: nat, x: Json, least: Json, most: Json, v: Json) {
    v.Arr? ==>
      && (if least.Null? then exists i :: 0 <= i < |v.a| && Accepts(env, fuel, x, v.a[i])
          else Number(least) <= Matching(env, fuel, x, v.a) as real)
      && (most.Null? || Matching(env, fuel, x, v.a) as real <= Number(most))
  }

  lemma CountedOk(env: Env, fuel: nat, s: Json, k: string, v: Json)
    requires s.Obj? && k in s.m && env.kind(k).Contains?
    requires "minContains" in s.m ==> !s.m["minContains"].Null?
    requires "maxContains" in s.m ==> !s.m["maxContains"].Null?
    ensures KeywordOk(env, fuel, s, k, v) <==>
            Counted(env, fuel, s.m[k], Get(s.m, "minContains"), Get(s.m, "maxContains"), v)
  {
  }

  lemma CountNotNull(kind: Reading, s: Json, k: string)
    requires s.Obj? && WellFormed(kind, s) && k in s.m && kind(k).Bound?
    ensures !s.m[k].Null?
  {
    assert Formed(kind, s, k);
  }

  lemma CountsNotNull(kind: Reading, s: Json)
    requires Recognises(kind) && s.Obj? && WellFormed(kind, s)
    ensures "minContains" in s.m ==> !s.m["minContains"].Null?
    ensures "maxContains" in s.m ==> !s.m["maxContains"].Null?
  {
    if "minContains" in s.m { CountNotNull(kind, s, "minContains"); }
    if "maxContains" in s.m { CountNotNull(kind, s, "maxContains"); }
  }

  lemma SameCounted(a: Env, b: Env, plan: Plan, fuel: nat, x: Json, least: Json, most: Json, v: Json)
    requires Follows(a, b, plan) && Targets(a, x) <= plan.still && Counted(a, fuel, x, least, most, v)
    ensures Counted(b, fuel, x, least, most, v)
  {
    if v.Arr? {
      SameCount(a, b, plan, fuel, x, v.a);
      forall i | 0 <= i < |v.a| ensures Accepts(a, fuel, x, v.a[i]) <==> Accepts(b, fuel, x, v.a[i]) {
        SameUnder(a, b, plan, fuel, x, v.a[i]);
      }
    }
  }

  lemma SoundCounted(a: Env, b: Env, plan: Plan, fuel: nat, was: Json, now: Json, k: string, v: Json)
    requires Facing(a, b, plan, was, now) && Accepts(a, fuel, was, v) && k in now.m && a.kind(k).Contains?
    requires Counts(was.m) || Counts(now.m)
    ensures KeywordOk(b, fuel, now, k, v)
  {
    CountedUnchanged(a.kind, was, now, k);
    NotNullCondition(a.kind, now, k);
    CountsNotNull(a.kind, was);
    CountsNotNull(a.kind, now);
    CountsKept(a.kind, was, now);
    ConditionSettled(a, b, plan, was, now, k);
    assert KeywordOk(a, fuel, was, k, v);
    CountedOk(a, fuel, was, k, v);
    CountedOk(b, fuel, now, k, v);
    SameCounted(a, b, plan, fuel, now.m[k], Get(now.m, "minContains"), Get(now.m, "maxContains"), v);
  }

  lemma NodeSettled(a: Env, b: Env, plan: Plan, s: Json, k: string)
    requires Ready(a, b, plan, s) && s.Obj? && k in s.m && a.kind(k).Unevaluated?
    ensures Targets(a, s) <= plan.still
  {
  }

  lemma SoundUnevaluated(a: Env, b: Env, plan: Plan, fuel: nat, was: Json, now: Json, k: string, v: Json)
    requires Facing(a, b, plan, was, now) && Accepts(a, fuel, was, v) && k in now.m && a.kind(k).Unevaluated?
    ensures KeywordOk(b, fuel, now, k, v)
  {
    UnevaluatedUnchanged(a.kind, was, now, k);
    NodeSettled(a, b, plan, was, k);
    SameUnder(a, b, plan, fuel, was, v);
  }

  // --- branches -----------------------------------------------------------------------------------------------------

  lemma BranchesFormed(kind: Reading, s: Json, k: string)
    requires s.Obj? && WellFormed(kind, s) && k in s.m && (kind(k).AllOf? || kind(k).AnyOf?)
    ensures s.m[k].Arr? && forall i | 0 <= i < |s.m[k].a| :: WellFormed(kind, s.m[k].a[i])
  {
    assert Formed(kind, s, k);
  }

  /** An old branch at least as narrow. */
  lemma NarrowerBranch(kind: Reading, was: Json, now: Json, k: string, j: nat) returns (i: nat)
    requires Compared(kind, was, now) && k in now.m && kind(k).AllOf? && now.m[k].Arr? && j < |now.m[k].a|
    ensures k in was.m && was.m[k].Arr? && i < |was.m[k].a| && Widens(kind, was.m[k].a[i], now.m[k].a[j])
  {
    KeyIsSilent(kind, was, now, k);
    i := AllOfCovered(kind, was, now, k, j);
    BranchesFormed(kind, was, k);
    BranchesFormed(kind, now, k);
  }

  lemma AcceptsBranch(env: Env, fuel: nat, s: Json, k: string, v: Json, i: nat)
    requires s.Obj? && Accepts(env, fuel, s, v) && k in s.m && env.kind(k).AllOf? && s.m[k].Arr? && i < |s.m[k].a|
    ensures Accepts(env, fuel, s.m[k].a[i], v)
  {
    assert KeywordOk(env, fuel, s, k, v);
  }

  lemma {:induction false} SoundAllOf(a: Env, b: Env, plan: Plan, fuel: nat, was: Json, now: Json, k: string, v: Json)
    requires Facing(a, b, plan, was, now) && Accepts(a, fuel, was, v) && k in now.m && a.kind(k).AllOf?
    ensures KeywordOk(b, fuel, now, k, v)
    decreases fuel, was, 1
  {
    BranchesFormed(a.kind, now, k);
    forall j | 0 <= j < |now.m[k].a| ensures Accepts(b, fuel, now.m[k].a[j], v) {
      SoundBranch(a, b, plan, fuel, was, now, k, v, j);
    }
  }

  lemma {:induction false} SoundBranch(a: Env, b: Env, plan: Plan, fuel: nat, was: Json, now: Json, k: string, v: Json,
          j: nat)
    requires Facing(a, b, plan, was, now) && Accepts(a, fuel, was, v) && k in now.m && a.kind(k).AllOf?
    requires now.m[k].Arr? && j < |now.m[k].a|
    ensures Accepts(b, fuel, now.m[k].a[j], v)
    decreases fuel, was, 0
  {
    var i := NarrowerBranch(a.kind, was, now, k, j);
    ReadyBranch(a, b, plan, was, k, i);
    AcceptsBranch(a, fuel, was, k, v, i);
    Sound(a, b, plan, fuel, was.m[k].a[i], now.m[k].a[j], v);
  }

  /** A new branch at least as wide. */
  lemma WiderBranch(kind: Reading, was: Json, now: Json, k: string, i: nat) returns (j: nat)
    requires Compared(kind, was, now) && k in now.m && kind(k).AnyOf? && k in was.m && was.m[k].Arr? && i < |was.m[k].a|
    ensures now.m[k].Arr? && j < |now.m[k].a| && Widens(kind, was.m[k].a[i], now.m[k].a[j])
  {
    KeyIsSilent(kind, was, now, k);
    BranchesFormed(kind, was, k);
    BranchesFormed(kind, now, k);
    j := AnyOfCovered(kind, was, now, k, i);
  }

  lemma SomeBranchWas(kind: Reading, was: Json, now: Json, k: string)
    requires Compared(kind, was, now) && k in now.m && kind(k).AnyOf?
    ensures k in was.m && was.m[k].Arr? && now.m[k].Arr?
  {
    BranchesFormed(kind, now, k);
    KeyIsSilent(kind, was, now, k);
    AnyOfWasThere(kind, was, now, k);
    BranchesFormed(kind, was, k);
  }

  lemma AcceptsSome(env: Env, fuel: nat, s: Json, k: string, v: Json) returns (i: nat)
    requires s.Obj? && Accepts(env, fuel, s, v) && k in s.m && env.kind(k).AnyOf? && s.m[k].Arr?
    ensures i < |s.m[k].a| && Accepts(env, fuel, s.m[k].a[i], v)
  {
    assert KeywordOk(env, fuel, s, k, v);
    i :| 0 <= i < |s.m[k].a| && Accepts(env, fuel, s.m[k].a[i], v);
  }

  lemma {:induction false} SoundAnyOf(a: Env, b: Env, plan: Plan, fuel: nat, was: Json, now: Json, k: string, v: Json)
    requires Facing(a, b, plan, was, now) && Accepts(a, fuel, was, v) && k in now.m && a.kind(k).AnyOf?
    ensures KeywordOk(b, fuel, now, k, v)
    decreases fuel, was, 1
  {
    SomeBranchWas(a.kind, was, now, k);
    var i := AcceptsSome(a, fuel, was, k, v);
    var j := WiderBranch(a.kind, was, now, k, i);
    ReadyBranch(a, b, plan, was, k, i);
    Sound(a, b, plan, fuel, was.m[k].a[i], now.m[k].a[j], v);
  }

  // --- references followed ------------------------------------------------------------------------------------------

  lemma SameReference(kind: Reading, was: Json, now: Json, k: string)
    requires Compared(kind, was, now) && k in now.m && kind(k).Reference?
    ensures k in was.m && was.m[k].Str? && was.m[k] == now.m[k]
  {
    Unchanged(kind, was, now, k);
    KeyOf(kind, was, now, k);
  }

  lemma RefOk(env: Env, fuel: nat, s: Json, k: string, v: Json)
    requires s.Obj? && k in s.m && env.kind(k).Reference? && s.m[k].Str?
    ensures KeywordOk(env, fuel, s, k, v) <==> TargetHolds(env, fuel, env.target(env.at, s.m[k].s), v)
  {
    assert KeywordOk(env, fuel, s, k, v) <==> RefHolds(env, fuel, s.m[k], v);
  }

  lemma {:induction false} SoundReference(a: Env, b: Env, plan: Plan, fuel: nat, was: Json, now: Json, k: string,
          v: Json)
    requires Facing(a, b, plan, was, now) && Accepts(a, fuel, was, v) && k in now.m && a.kind(k).Reference?
    ensures KeywordOk(b, fuel, now, k, v)
    decreases fuel, was, 1
  {
    SameReference(a.kind, was, now, k);
    assert KeywordOk(a, fuel, was, k, v);
    RefOk(a, fuel, was, k, v);
    TargetsOfMember(a, was, k);
    SoundTarget(a, b, plan, fuel, was, a.target(a.at, was.m[k].s), v);
    RefOk(b, fuel, now, k, v);
  }

  lemma {:induction false} SoundTarget(a: Env, b: Env, plan: Plan, fuel: nat, was: Json, t: Target, v: Json)
    requires Follows(a, b, plan) && Led(a, b, plan, t) && TargetHolds(a, fuel, t, v)
    ensures TargetHolds(b, fuel, t, v)
    decreases fuel, was, 0
  {
    ReferenceWidens(a, b, plan, t);
    if fuel > 0 {
      FollowsAnywhere(a, b, plan, t.file);
      Sound(StandingIn(a, t.file), StandingIn(b, t.file), plan, fuel - 1, Find(a.files, t).value,
        Find(b.files, t).value, v);
    }
  }

  // --- the files -----------------------------------------------------------------------------------------------------

  lemma {:induction false} PathQuiet(kind: Reading, parts: string -> Parts, baseline: map<string, Json>,
          current: map<string, Json>, paths: seq<string>, f: string)
    requires Quiet(Classify(kind, parts, baseline, current, paths)) && f in paths
    ensures Quiet(AtPath(kind, parts, baseline, current, f))
  {
    QuietSum(AtPath(kind, parts, baseline, current, paths[0]), Classify(kind, parts, baseline, current, paths[1..]));
    if f != paths[0] { PathQuiet(kind, parts, baseline, current, paths[1..], f); }
  }

  /** Nothing breaking and nothing misjudged in any file: nothing in this one. */
  lemma QuietEverywhere(kind: Reading, parts: string -> Parts, baseline: map<string, Json>, current: map<string, Json>,
          f: string)
    requires Quiet(Changes(kind, parts, baseline, current)) && f in baseline
    ensures Quiet(AtPath(kind, parts, baseline, current, f))
  {
    assert f in Sorted(baseline.Keys + current.Keys);
    PathQuiet(kind, parts, baseline, current, Sorted(baseline.Keys + current.Keys), f);
  }

  lemma QuietFile(kind: Reading, parts: string -> Parts, baseline: map<string, Json>, current: map<string, Json>,
          f: string)
    requires Quiet(AtPath(kind, parts, baseline, current, f)) && f in baseline
    ensures f in current && NodeQuiet(kind, baseline[f], current[f])
  {
    var at := [Name(f)];
    if f !in current {
      var what := if Succeeded(parts, f, current.Keys) then SchemaRetired else SchemaRemoved;
      NotQuiet(Finding(at, what.SchemaRemoved?, what));
    } else {
      assert Quiet(Compare(kind, baseline[f], current[f], at));
    }
  }

  /** What is asked of one file, besides that its changes are quiet: its two versions are well-formed;
      where the classifier finds values equal no boolean meets a number, and what counts or speaks of
      the unevaluated is unchanged; its references lead into the scope, by names, to what is there on
      both sides, and inside conditions and counts to what did not change. */
  ghost predicate Judgeable(a: Env, b: Env, plan: Plan, f: string) {
    && f in a.files && WellFormed(a.kind, a.files[f])
    && (f in b.files ==> WellFormed(b.kind, b.files[f]) && Steady(a.kind, a.files[f], b.files[f]))
    && Ready(StandingIn(a, f), StandingIn(b, f), plan, a.files[f])
  }

  /** For any set of files closed under references, whatever stands outside it: with no breaking change
      and none of the kinds it misjudges in these files, every document any of them accepted, the file
      at its path accepts. */
  lemma CompatibleKeepsDocuments(a: Env, b: Env, parts: string -> Parts, plan: Plan, fuel: nat, f: string, v: Json)
    requires SameReading(a, b) && a.base == b.base && Recognises(a.kind) && Still(a, b, plan.still)
    requires forall g | g in plan.scope :: Judgeable(a, b, plan, g)
    requires forall g | g in plan.scope :: Quiet(AtPath(a.kind, parts, a.files, b.files, g))
    requires f in plan.scope && f in a.files && Accepts(StandingIn(a, f), fuel, a.files[f], v)
    ensures f in b.files && Accepts(StandingIn(b, f), fuel, b.files[f], v)
  {
    forall g | g in plan.scope ensures Followed(a, b, plan, g) {
      assert Judgeable(a, b, plan, g);
      QuietFile(a.kind, parts, a.files, b.files, g);
    }
    FollowsAnywhere(a, b, plan, f);
    assert Followed(a, b, plan, f);
    Sound(StandingIn(a, f), StandingIn(b, f), plan, fuel, a.files[f], b.files[f], v);
  }

  lemma QuietScope(kind: Reading, parts: string -> Parts, baseline: map<string, Json>, current: map<string, Json>,
          scope: set<string>)
    requires Quiet(Changes(kind, parts, baseline, current)) && scope <= baseline.Keys
    ensures forall f | f in scope :: Quiet(AtPath(kind, parts, baseline, current, f))
  {
    forall f | f in scope ensures Quiet(AtPath(kind, parts, baseline, current, f)) {
      QuietEverywhere(kind, parts, baseline, current, f);
    }
  }

  /** The same where nothing is amiss in any file at all. */
  lemma CompatibleTreeKeepsDocuments(a: Env, b: Env, parts: string -> Parts, plan: Plan, fuel: nat, f: string, v: Json)
    requires SameReading(a, b) && a.base == b.base && Recognises(a.kind) && Still(a, b, plan.still)
    requires plan.scope <= a.files.Keys && forall g | g in plan.scope :: Judgeable(a, b, plan, g)
    requires Quiet(Changes(a.kind, parts, a.files, b.files))
    requires f in plan.scope && Accepts(StandingIn(a, f), fuel, a.files[f], v)
    ensures f in b.files && Accepts(StandingIn(b, f), fuel, b.files[f], v)
  {
    QuietScope(a.kind, parts, a.files, b.files, plan.scope);
    CompatibleKeepsDocuments(a, b, parts, plan, fuel, f, v);
  }
}
