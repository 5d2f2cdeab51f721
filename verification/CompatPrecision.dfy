/** Where the classifier is exactly right, and where it calls breaking what loses nothing. */
module CompatPrecision {
  import opened Text
  import opened Json
  import opened Compat
  import opened Schema
  import opened CompatSound
  import opened CompatLimits

  // --- bounds on a number --------------------------------------------------------------------------------------------

  function Bounded(k: string, n: real): Json { Obj(map[k := Num(n)]) }

  predicate NoTighter(lower: bool, x: real, y: real) { if lower then y <= x else x <= y }

  lemma BoundAccepts(env: Env, fuel: nat, k: string, x: real, v: Json)
    requires env.kind(k).Bound?
    ensures Accepts(env, fuel, Bounded(k, x), v) <==> WithinBound(env.kind(k).of, env.kind(k).lower, x, v)
  {
    AcceptsOne(env, fuel, k, Num(x), v);
  }

  lemma BoundReported(kind: Reading, k: string, x: real, y: real, at: Pointer)
    requires kind(k).Bound? && x != y
    ensures var looser := NoTighter(kind(k).lower, x, y);
            Compare(kind, Bounded(k, x), Bounded(k, y), at)
            == [Finding(at + [Name(k)], !looser, if looser then BoundLoosened else BoundTightened)]
  {
    OneKeyChange(kind, k, Num(x), Num(y), at);
    AtKeyBound(kind, k, Bounded(k, x), Bounded(k, y), at + [Name(k)]);
  }

  lemma BoundQuietly(kind: Reading, k: string, x: real, y: real)
    requires kind(k).Bound?
    ensures NodeQuiet(kind, Bounded(k, x), Bounded(k, y)) <==> NoTighter(kind(k).lower, x, y)
  {
    if x == y {
      EqualIsQuiet(kind, Bounded(k, x), Bounded(k, y));
    } else {
      forall at ensures Quiet(Compare(kind, Bounded(k, x), Bounded(k, y), at)) <==> NoTighter(kind(k).lower, x, y) {
        BoundReported(kind, k, x, y, at);
        if !NoTighter(kind(k).lower, x, y) { NotQuiet(Finding(at + [Name(k)], true, BoundTightened)); }
      }
      if NoTighter(kind(k).lower, x, y) { assert Quiet(Compare(kind, Bounded(k, x), Bounded(k, y), [])); }
    }
  }

  lemma BoundKeeps(a: Env, b: Env, fuel: nat, k: string, x: real, y: real)
    requires a.kind == b.kind && a.kind(k).Bound? && (a.kind(k).of.Value? || a.kind(k).of.ExclusiveValue?)
    ensures Keeps(a, b, fuel, Bounded(k, x), Bounded(k, y)) <==> NoTighter(a.kind(k).lower, x, y)
  {
    var of, lower := a.kind(k).of, a.kind(k).lower;
    forall v
      ensures Accepts(a, fuel, Bounded(k, x), v) <==> WithinBound(of, lower, x, v)
      ensures Accepts(b, fuel, Bounded(k, y), v) <==> WithinBound(of, lower, y, v)
    {
      BoundAccepts(a, fuel, k, x, v);
      BoundAccepts(b, fuel, k, y, v);
    }
    var edge := Num(if of.Value? then x else y);
    if !NoTighter(lower, x, y) {
      assert Accepts(a, fuel, Bounded(k, x), edge) && !Accepts(b, fuel, Bounded(k, y), edge);
    }
  }

  /** A changed bound on a number, exclusive or not, is called compatible exactly where it keeps every
      document. */
  lemma BoundExactly(env: Env, fuel: nat, k: string, x: real, y: real)
    requires env.kind(k).Bound? && (env.kind(k).of.Value? || env.kind(k).of.ExclusiveValue?)
    ensures var was, now := Bounded(k, x), Bounded(k, y);
            NodeQuiet(env.kind, was, now) <==> Keeps(env, env, fuel, was, now)
  {
    BoundQuietly(env.kind, k, x, y);
    BoundKeeps(env, env, fuel, k, x, y);
  }

  const NUMBERS: set<string> := {"minimum", "exclusiveMinimum", "maximum", "exclusiveMaximum"}
  const COUNTS: set<string> := {"minLength", "maxLength", "minItems", "maxItems", "minProperties", "maxProperties"}

  /** What each bound says, by name: of other values it says nothing. */
  predicate Keeping(k: string, x: real, v: Json) {
    match v
    case Num(n) =>
      && (k == "minimum" ==> n >= x) && (k == "exclusiveMinimum" ==> n > x)
      && (k == "maximum" ==> n <= x) && (k == "exclusiveMaximum" ==> n < x)
    case Str(s) => (k == "minLength" ==> |s| as real >= x) && (k == "maxLength" ==> |s| as real <= x)
    case Arr(a) => (k == "minItems" ==> |a| as real >= x) && (k == "maxItems" ==> |a| as real <= x)
    case Obj(m) => (k == "minProperties" ==> |m| as real >= x) && (k == "maxProperties" ==> |m| as real <= x)
    case _ => true
  }

  lemma NumberBound(k: string)
    requires k in {"minimum", "exclusiveMinimum", "maximum", "exclusiveMaximum"}
    ensures KeywordOf(k) == Bound(if k in {"minimum", "maximum"} then Value else ExclusiveValue,
                                  k in {"minimum", "exclusiveMinimum"})
  {
  }

  lemma CountBound(k: string)
    requires k in {"minLength", "maxLength", "minItems", "maxItems", "minProperties", "maxProperties"}
    ensures KeywordOf(k).Bound? && (KeywordOf(k).lower <==> k in {"minLength", "minItems", "minProperties"})
    ensures KeywordOf(k).of == if k in {"minLength", "maxLength"} then Length
                               else if k in {"minItems", "maxItems"} then ItemCount else PropertyCount
  {
  }

  lemma NumberKept(k: string, x: real, v: Json)
    requires k in NUMBERS
    ensures KeywordOf(k).Bound? && (WithinBound(KeywordOf(k).of, KeywordOf(k).lower, x, v) <==> Keeping(k, x, v))
  {
    NumberBound(k);
  }

  lemma CountKept(k: string, x: real, v: Json)
    requires k in COUNTS
    ensures KeywordOf(k).Bound? && (WithinBound(KeywordOf(k).of, KeywordOf(k).lower, x, v) <==> Keeping(k, x, v))
  {
    CountBound(k);
  }

  lemma BoundMeans(env: Env, fuel: nat, k: string, x: real, v: Json)
    requires env.kind == KeywordOf && k in NUMBERS + COUNTS
    ensures Accepts(env, fuel, Bounded(k, x), v) <==> Keeping(k, x, v)
  {
    if k in NUMBERS { NumberKept(k, x, v); } else { CountKept(k, x, v); }
    BoundAccepts(env, fuel, k, x, v);
  }

  // --- enumerations -------------------------------------------------------------------------------------------------

  lemma EnumAccepts(env: Env, fuel: nat, k: string, x: Json, v: Json)
    requires env.kind(k).Enum?
    ensures Accepts(env, fuel, Obj(map[k := x]), v) <==> v in Elements(x)
  {
    AcceptsOne(env, fuel, k, x, v);
  }

  lemma AtKeyEnum(kind: Reading, k: string, was: Json, now: Json, here: Pointer)
    requires was.Obj? && now.Obj? && kind(k).Enum?
    ensures AtKey(kind, k, was, now, here) == SetChange(Admitted(Get(was.m, k)), Admitted(Get(now.m, k)), here)
  {
  }

  lemma EnumReported(kind: Reading, k: string, x: seq<Json>, y: seq<Json>, at: Pointer)
    requires kind(k).Enum? && !PyEq(Arr(x), Arr(y))
    ensures Quiet(Compare(kind, Obj(map[k := Arr(x)]), Obj(map[k := Arr(y)]), at)) <==>
            Elements(Arr(x)) < Elements(Arr(y))
  {
    OneKeyChange(kind, k, Arr(x), Arr(y), at);
    AtKeyEnum(kind, k, Obj(map[k := Arr(x)]), Obj(map[k := Arr(y)]), at + [Name(k)]);
    var f := SetChange(Some(Elements(Arr(x))), Some(Elements(Arr(y))), at + [Name(k)]);
    assert f[0] in f && |f| == 1;
  }

  lemma EnumQuietly(kind: Reading, k: string, x: seq<Json>, y: seq<Json>)
    requires kind(k).Enum?
    ensures NodeQuiet(kind, Obj(map[k := Arr(x)]), Obj(map[k := Arr(y)])) <==>
            PyEq(Arr(x), Arr(y)) || Elements(Arr(x)) < Elements(Arr(y))
  {
    if PyEq(Arr(x), Arr(y)) {
      PyEqObj(map[k := Arr(x)], map[k := Arr(y)]);
      EqualIsQuiet(kind, Obj(map[k := Arr(x)]), Obj(map[k := Arr(y)]));
    } else {
      forall at
        ensures Quiet(Compare(kind, Obj(map[k := Arr(x)]), Obj(map[k := Arr(y)]), at)) <==>
                Elements(Arr(x)) < Elements(Arr(y))
      {
        EnumReported(kind, k, x, y, at);
      }
      if Elements(Arr(x)) < Elements(Arr(y)) {
        assert Quiet(Compare(kind, Obj(map[k := Arr(x)]), Obj(map[k := Arr(y)]), []));
      }
    }
  }

  /** A changed enumeration keeps every document exactly where it admits all it admitted. It is called
      compatible only where Python calls the two lists equal, or more is admitted: the same values in
      another order are called breaking. */
  lemma EnumExactly(env: Env, fuel: nat, k: string, x: seq<Json>, y: seq<Json>)
    requires env.kind(k).Enum?
    ensures var was, now := Obj(map[k := Arr(x)]), Obj(map[k := Arr(y)]);
            && (Keeps(env, env, fuel, was, now) <==> Elements(Arr(x)) <= Elements(Arr(y)))
            && (NodeQuiet(env.kind, was, now) <==> PyEq(Arr(x), Arr(y)) || Elements(Arr(x)) < Elements(Arr(y)))
  {
    EnumQuietly(env.kind, k, x, y);
    forall v
      ensures Accepts(env, fuel, Obj(map[k := Arr(x)]), v) <==> v in Elements(Arr(x))
    {
      EnumAccepts(env, fuel, k, Arr(x), v);
    }
    forall v
      ensures Accepts(env, fuel, Obj(map[k := Arr(y)]), v) <==> v in Elements(Arr(y))
    {
      EnumAccepts(env, fuel, k, Arr(y), v);
    }
    if Keeps(env, env, fuel, Obj(map[k := Arr(x)]), Obj(map[k := Arr(y)])) {
      forall v | v in Elements(Arr(x)) ensures v in Elements(Arr(y)) {
        assert Accepts(env, fuel, Obj(map[k := Arr(x)]), v);
      }
    }
  }
}
