/** A change the classifier's theorem is about: a bound loosened behind a reference, in a file that
    also decides by a `oneOf` and by an `if` of another reference. */
module CompatExamples {
  import opened Text
  import opened Json
  import opened Compat
  import opened Schema
  import opened CompatSound
  import opened CompatMeaning
  import opened References
  import opened CompatTheorem
  import opened CompatLimits
  import opened CompatPrecision
  import opened CompatFiles

  /** How the keywords of the example are read. */
  ghost predicate Reads(kind: Reading, k: string, choice: string, condition: string) {
    Recognises(kind) && kind(k) == Bound(Value, false) && k != "$dynamicRef"
    && kind(choice).OneOf? && choice != "$dynamicRef" && kind(condition).If? && condition != "$dynamicRef"
  }

  /** One of two bounds, and a bound where the other file accepts, on what the first file accepts. */
  function Deciding(g: string, h: string, k: string, choice: string, condition: string): Json {
    Obj(map["$ref" := Str(g), choice := Arr([Bounded(k, 5.0), Bounded(k, 7.0)]), condition := ReferenceTo("$ref", h),
            "then" := Bounded(k, 2.0)])
  }

  lemma DecidingMembers(kind: Reading, g: string, h: string, k: string, choice: string, condition: string)
    requires Reads(kind, k, choice, condition)
    ensures var m := Deciding(g, h, k, choice, condition).m;
            && m.Keys == {"$ref", choice, condition, "then"}
            && m["$ref"] == Str(g) && m[choice] == Arr([Bounded(k, 5.0), Bounded(k, 7.0)])
            && m[condition] == ReferenceTo("$ref", h) && m["then"] == Bounded(k, 2.0)
            && kind("$ref").Reference? && kind("then").Then?
  {
  }

  lemma BoundedIsFormed(kind: Reading, k: string, n: real)
    requires kind(k) == Bound(Value, false) && k != "$dynamicRef"
    ensures WellFormed(kind, Bounded(k, n))
  {
    assert Formed(kind, Bounded(k, n), k);
  }

  lemma ReferenceIsFormed(kind: Reading, r: string, ref: string)
    requires kind(r).Reference? && r != "$dynamicRef"
    ensures WellFormed(kind, ReferenceTo(r, ref))
  {
    assert Formed(kind, ReferenceTo(r, ref), r);
  }

  lemma DecidingIsFormed(kind: Reading, g: string, h: string, k: string, choice: string, condition: string)
    requires Reads(kind, k, choice, condition)
    ensures WellFormed(kind, Deciding(g, h, k, choice, condition))
  {
    var s := Deciding(g, h, k, choice, condition);
    DecidingMembers(kind, g, h, k, choice, condition);
    BoundedIsFormed(kind, k, 5.0);
    BoundedIsFormed(kind, k, 7.0);
    BoundedIsFormed(kind, k, 2.0);
    assert |"$ref"| != |"$dynamicRef"| && |"then"| != |"$dynamicRef"|;
    ReferenceIsFormed(kind, "$ref", h);
    forall key | key in s.m ensures Formed(kind, s, key) {}
  }

  lemma BoundedRefersToNothing(env: Env, k: string, n: real, still: set<Target>)
    requires env.kind(k) == Bound(Value, false)
    ensures Targets(env, Bounded(k, n)) == {} && Settled(env, Bounded(k, n), still)
  {
    assert Settled(env, Num(n), still);
  }

  lemma EitherRefersToNothing(env: Env, k: string, m: real, n: real, still: set<Target>)
    requires env.kind(k) == Bound(Value, false)
    ensures var s := Arr([Bounded(k, m), Bounded(k, n)]); Targets(env, s) == {} && Settled(env, s, still)
  {
    BoundedRefersToNothing(env, k, m, still);
    BoundedRefersToNothing(env, k, n, still);
  }

  lemma ReferenceTargets(env: Env, ref: string, still: set<Target>)
    requires env.kind("$ref").Reference?
    ensures var s := ReferenceTo("$ref", ref); Targets(env, s) == {env.target(env.at, ref)} && Settled(env, s, still)
  {
    assert Targets(env, Str(ref)) == {} && Settled(env, Str(ref), still);
  }

  /** The references of a node are those of its keywords. */
  lemma TargetsWithin(env: Env, m: map<string, Json>, all: set<Target>)
    requires forall k | k in m :: Targets(env, m[k]) <= all
    requires forall k | k in m :: env.kind(k).Reference? && m[k].Str? ==> env.target(env.at, m[k].s) in all
    ensures Targets(env, Obj(m)) <= all
  {
  }

  lemma DecidingTargets(env: Env, g: string, h: string, k: string, choice: string, condition: string)
    requires Reads(env.kind, k, choice, condition)
    ensures Targets(env, Deciding(g, h, k, choice, condition)) <= {env.target(env.at, g), env.target(env.at, h)}
  {
    DecidingMembers(env.kind, g, h, k, choice, condition);
    EitherRefersToNothing(env, k, 5.0, 7.0, {});
    ReferenceTargets(env, h, {});
    BoundedRefersToNothing(env, k, 2.0, {});
    TargetsWithin(env, Deciding(g, h, k, choice, condition).m, {env.target(env.at, g), env.target(env.at, h)});
  }

  ghost predicate KeySettled(env: Env, m: map<string, Json>, k: string, still: set<Target>)
    requires k in m
  {
    Settled(env, m[k], still) && (Conditioning(env.kind(k), m) ==> Targets(env, m[k]) <= still) &&
      !env.kind(k).Unevaluated?
  }

  lemma AllSettled(env: Env, m: map<string, Json>, still: set<Target>)
    requires forall k | k in m :: KeySettled(env, m, k, still)
    ensures Settled(env, Obj(m), still)
  {
    forall k | k in m
      ensures Settled(env, m[k], still) && (Conditioning(env.kind(k), m) ==> Targets(env, m[k]) <= still)
    {
      assert KeySettled(env, m, k, still);
    }
    assert forall k | k in m :: KeySettled(env, m, k, still) && !env.kind(k).Unevaluated?;
  }

  lemma FourSettled(env: Env, m: map<string, Json>, choice: string, condition: string, still: set<Target>)
    requires m.Keys == {"$ref", choice, condition, "then"} && forall k | k in m :: Settled(env, m[k], still)
    requires env.kind("$ref").Reference? && env.kind("then").Then? && env.kind(choice).OneOf? && env.kind(condition).If?
    requires Targets(env, m[choice]) <= still && Targets(env, m[condition]) <= still
    ensures Settled(env, Obj(m), still)
  {
    forall k | k in m ensures KeySettled(env, m, k, still) {}
    AllSettled(env, m, still);
  }

  lemma DecidingSettled(env: Env, g: string, h: string, k: string, choice: string, condition: string,
          still: set<Target>)
    requires Reads(env.kind, k, choice, condition) && env.target(env.at, h) in still
    ensures Settled(env, Deciding(g, h, k, choice, condition), still)
  {
    DecidingMembers(env.kind, g, h, k, choice, condition);
    EitherRefersToNothing(env, k, 5.0, 7.0, still);
    ReferenceTargets(env, h, still);
    BoundedRefersToNothing(env, k, 2.0, still);
    assert Settled(env, Str(g), still);
    FourSettled(env, Deciding(g, h, k, choice, condition).m, choice, condition, still);
  }

  /** Among any other files, these three: the first refers to both others, and only the second changed. */
  ghost predicate Raised(a: Env, b: Env, f: string, g: string, h: string, k: string, choice: string, condition: string,
          x: real, y: real) {
    && SameReading(a, b) && a.base == b.base && Reads(a.kind, k, choice, condition) && f != g && g != h && x < y
    && {f, g, h} <= a.files.Keys * b.files.Keys
    && a.target(f, g) == Target(g, []) && a.target(f, h) == Target(h, [])
    && a.files[f] == b.files[f] == Deciding(g, h, k, choice, condition)
    && a.files[g] == Bounded(k, x) && b.files[g] == Bounded(k, y)
    && a.files[h] == b.files[h] == Bounded(k, 1.0)
  }

  /** What the theorem is asked for: these three files, the third unchanged. */
  function Three(f: string, g: string, h: string): Plan { Plan({f, g, h}, {Target(h, [])}) }

  lemma RaisedIsSteady(kind: Reading, k: string, x: real, y: real)
    requires kind(k) == Bound(Value, false)
    ensures Steady(kind, Bounded(k, x), Bounded(k, y))
  {
    var was, now := Bounded(k, x), Bounded(k, y);
    if PyEq(was, now) {
      PyEqObj(was.m, now.m);
      PunnedExactly(was, now);
    } else {
      forall key | key in was.m.Keys + now.m.Keys ensures SteadyKey(kind, was, now, key) {}
    }
  }

  lemma DecidingIsJudgeable(a: Env, b: Env, f: string, g: string, h: string, k: string, choice: string,
          condition: string, x: real, y: real)
    requires Raised(a, b, f, g, h, k, choice, condition, x, y)
    ensures Judgeable(a, b, Three(f, g, h), f)
  {
    DecidingIsFormed(a.kind, g, h, k, choice, condition);
    EqualIsSilent(a.kind, a.files[f]);
    DecidingTargets(StandingIn(a, f), g, h, k, choice, condition);
    DecidingSettled(StandingIn(a, f), g, h, k, choice, condition, {Target(h, [])});
  }

  lemma BoundedIsJudgeable(a: Env, b: Env, plan: Plan, f: string, k: string, x: real, y: real)
    requires f in a.files && f in b.files && a.files[f] == Bounded(k, x) && b.files[f] == Bounded(k, y)
    requires a.kind == b.kind && a.kind(k) == Bound(Value, false) && k != "$dynamicRef"
    ensures Judgeable(a, b, plan, f)
  {
    BoundedIsFormed(a.kind, k, x);
    BoundedIsFormed(a.kind, k, y);
    RaisedIsSteady(a.kind, k, x, y);
    BoundedRefersToNothing(StandingIn(a, f), k, x, plan.still);
  }

  lemma ThirdIsStill(a: Env, b: Env, h: string, k: string)
    requires a.kind(k) == Bound(Value, false) && h in a.files && h in b.files &&
             a.files[h] == b.files[h] == Bounded(k, 1.0)
    ensures Still(a, b, {Target(h, [])})
  {
    BoundedRefersToNothing(StandingIn(a, h), k, 1.0, {});
  }

  lemma RaisedIsQuiet(a: Env, b: Env, parts: string -> Parts, f: string, g: string, h: string, k: string,
          choice: string, condition: string, x: real, y: real)
    requires Raised(a, b, f, g, h, k, choice, condition, x, y)
    ensures forall p | p in {f, g, h} :: Quiet(AtPath(a.kind, parts, a.files, b.files, p))
  {
    NoFinding(a.kind, a.files[f], [Name(f)]);
    NoFinding(a.kind, a.files[h], [Name(h)]);
    BoundReported(a.kind, k, x, y, [Name(g)]);
  }

  /** What `CompatibleKeepsDocuments` asks of the files and the references. */
  ghost predicate Asked(a: Env, b: Env, parts: string -> Parts, plan: Plan) {
    && SameReading(a, b) && a.base == b.base && Recognises(a.kind) && Still(a, b, plan.still)
    && (forall g | g in plan.scope :: Judgeable(a, b, plan, g))
    && (forall g | g in plan.scope :: Quiet(AtPath(a.kind, parts, a.files, b.files, g)))
  }

  lemma RaisedIsJudgeable(a: Env, b: Env, f: string, g: string, h: string, k: string, choice: string, condition: string,
          x: real, y: real)
    requires Raised(a, b, f, g, h, k, choice, condition, x, y)
    ensures Judgeable(a, b, Three(f, g, h), f) && Judgeable(a, b, Three(f, g, h), g) &&
            Judgeable(a, b, Three(f, g, h), h)
    ensures Still(a, b, Three(f, g, h).still)
  {
    DecidingIsJudgeable(a, b, f, g, h, k, choice, condition, x, y);
    BoundedIsJudgeable(a, b, Three(f, g, h), g, k, x, y);
    BoundedIsJudgeable(a, b, Three(f, g, h), h, k, 1.0, 1.0);
    ThirdIsStill(a, b, h, k);
  }

  lemma ThreeAreAsked(a: Env, b: Env, parts: string -> Parts, f: string, g: string, h: string)
    requires SameReading(a, b) && a.base == b.base && Recognises(a.kind)
    requires Judgeable(a, b, Three(f, g, h), f) && Judgeable(a, b, Three(f, g, h), g) &&
             Judgeable(a, b, Three(f, g, h), h)
    requires Still(a, b, Three(f, g, h).still)
    requires forall p | p in {f, g, h} :: Quiet(AtPath(a.kind, parts, a.files, b.files, p))
    ensures Asked(a, b, parts, Three(f, g, h))
  {
    forall p | p in Three(f, g, h).scope ensures Judgeable(a, b, Three(f, g, h), p) {
      if p != f && p != g { assert p == h; }
    }
  }

  lemma AskedIsKept(a: Env, b: Env, parts: string -> Parts, plan: Plan, f: string, fuel: nat, v: Json)
    requires Asked(a, b, parts, plan) && f in plan.scope && f in a.files &&
             Accepts(StandingIn(a, f), fuel, a.files[f], v)
    ensures f in b.files && Accepts(StandingIn(b, f), fuel, b.files[f], v)
  {
    CompatibleKeepsDocuments(a, b, parts, plan, fuel, f, v);
  }

  /** A maximum raised in one file is compatible and meets all that `CompatibleKeepsDocuments` asks,
      whatever other files there are; so the file that refers to it keeps its documents too. */
  lemma LoosenedBehindReference(a: Env, b: Env, parts: string -> Parts, f: string, g: string, h: string, k: string,
          choice: string, condition: string, x: real, y: real, fuel: nat, v: Json)
    requires Raised(a, b, f, g, h, k, choice, condition, x, y)
    ensures Asked(a, b, parts, Three(f, g, h))
    ensures Accepts(StandingIn(a, f), fuel, a.files[f], v) ==> Accepts(StandingIn(b, f), fuel, b.files[f], v)
  {
    RaisedIsQuiet(a, b, parts, f, g, h, k, choice, condition, x, y);
    RaisedIsJudgeable(a, b, f, g, h, k, choice, condition, x, y);
    ThreeAreAsked(a, b, parts, f, g, h);
    if Accepts(StandingIn(a, f), fuel, a.files[f], v) { AskedIsKept(a, b, parts, Three(f, g, h), f, fuel, v); }
  }
}
