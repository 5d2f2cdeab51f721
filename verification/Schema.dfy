/** What a schema accepts: JSON Schema 2020-12 for the keywords the classifier knows, with
    references followed across a set of files. */
module Schema {
  import opened Text
  import opened Json
  import opened Compat

  /** Where a reference leads: a file, and the members to go through from its root. */
  datatype Target = Target(file: string, path: seq<string>)

  /** `files`: the schemas by path. `target`: where a reference leads, by the file it stands in.
      `holds`: whether a pattern, a format, a multiple or an encoding admits a value. `base`: what an
      endless chain of references answers; `true` and `false` give the two readings of a circular
      schema. `at`: the file the schema stands in. */
  datatype Env = Env(
    kind: Reading,
    files: map<string, Json>,
    target: (string, string) -> Target,
    holds: (string, Json, Json) -> bool,
    base: bool,
    at: string)

  function Lookup(j: Json, path: seq<string>): Option<Json> {
    if path == [] then Some(j)
    else if j.Obj? && path[0] in j.m then Lookup(j.m[path[0]], path[1..])
    else None
  }

  function Find(files: map<string, Json>, t: Target): Option<Json> {
    if t.file in files then Lookup(files[t.file], t.path) else None
  }

  function Resolve(env: Env, ref: string): Option<Json> { Find(env.files, env.target(env.at, ref)) }

  /** In the file a reference leads to. */
  function Entering(env: Env, ref: string): Env { env.(at := env.target(env.at, ref).file) }

  predicate HasType(v: Json, name: Json) {
    match v
    case Null => name == Str("null")
    case Bool(_) => name == Str("boolean")
    case Num(n) => name == Str("number") || (name == Str("integer") && n == n.Floor as real)
    case Str(_) => name == Str("string")
    case Arr(_) => name == Str("array")
    case Obj(_) => name == Str("object")
  }

  /** The amount a bound speaks of, of a value it speaks of. */
  function Amount(of: Quantity, v: Json): Option<real> {
    match (of, v)
    case (Value, Num(n)) => Some(n)
    case (ExclusiveValue, Num(n)) => Some(n)
    case (Length, Str(s)) => Some(|s| as real)
    case (ItemCount, Arr(a)) => Some(|a| as real)
    case (PropertyCount, Obj(m)) => Some(|m| as real)
    case _ => None
  }

  predicate WithinBound(of: Quantity, lower: bool, x: real, v: Json) {
    match Amount(of, v)
    case None => true
    case Some(n) =>
      if of.ExclusiveValue? then (if lower then x < n else n < x) else (if lower then x <= n else n <= x)
  }

  predicate Distinct(a: seq<Json>) {
    forall i, j | 0 <= i < j < |a| :: a[i] != a[j]
  }

  /** Keywords with no schema inside. */
  predicate ValueOk(kind: Reading, holds: (string, Json, Json) -> bool, k: string, x: Json, v: Json) {
    match kind(k)
    case Type => exists t | t in Elements(x) :: HasType(v, t)
    case Enum => v in Elements(x)
    case Const => v == x
    case Required => v.Obj? ==> forall n | n in Names(x) :: n in v.m
    case DependentRequired =>
      v.Obj? ==> forall n | n in Members(x) && n in v.m :: Names(Members(x)[n]) <= v.m.Keys
    case Bound(of, lower) => WithinBound(of, lower, Number(x), v)
    case Constraint => holds(k, x, v)
    case UniqueItems => x == Bool(true) && v.Arr? ==> Distinct(v.a)
    case _ => true
  }

  ghost predicate Accepts(env: Env, fuel: nat, s: Json, v: Json)
    decreases fuel, s, 4
  {
    match s
    case Bool(b) => b
    case Obj(m) => forall k | k in m :: KeywordOk(env, fuel, s, k, v)
    case _ => false
  }

  /** How many of the items the schema accepts. */
  ghost function Matching(env: Env, fuel: nat, s: Json, a: seq<Json>): nat
    decreases fuel, s, 5, |a|
  {
    if a == [] then 0
    else (if Accepts(env, fuel, s, a[0]) then 1 else 0) + Matching(env, fuel, s, a[1..])
  }

  ghost predicate KeywordOk(env: Env, fuel: nat, s: Json, k: string, v: Json)
    requires s.Obj? && k in s.m
    decreases fuel, s, 3
  {
    var x := s.m[k];
    match env.kind(k)
    case Properties =>
      v.Obj? && x.Obj? ==> forall n | n in x.m && n in v.m :: Accepts(env, fuel, x.m[n], v.m[n])
    case AdditionalProperties =>
      v.Obj? ==> forall n | n in v.m && n !in Members(Get(s.m, "properties")) :: Accepts(env, fuel, x, v.m[n])
    case PropertyNames => v.Obj? ==> forall n | n in v.m :: Accepts(env, fuel, x, Str(n))
    case Items =>
      v.Arr? ==> forall i | |Subschemas(Get(s.m, "prefixItems"))| <= i < |v.a| :: Accepts(env, fuel, x, v.a[i])
    case PrefixItems =>
      v.Arr? && x.Arr? ==> forall i | 0 <= i < |x.a| && i < |v.a| :: Accepts(env, fuel, x.a[i], v.a[i])
    case Contains =>
      v.Arr? ==>
        && (if "minContains" in s.m then Number(s.m["minContains"]) <= Matching(env, fuel, x, v.a) as real
            else exists i :: 0 <= i < |v.a| && Accepts(env, fuel, x, v.a[i]))
        && ("maxContains" in s.m ==> Matching(env, fuel, x, v.a) as real <= Number(s.m["maxContains"]))
    case If =>
      if Accepts(env, fuel, x, v) then "then" in s.m ==> Accepts(env, fuel, s.m["then"], v)
      else "else" in s.m ==> Accepts(env, fuel, s.m["else"], v)
    case Not => !Accepts(env, fuel, x, v)
    case AllOf => x.Arr? ==> forall i | 0 <= i < |x.a| :: Accepts(env, fuel, x.a[i], v)
    case AnyOf => x.Arr? ==> exists i :: 0 <= i < |x.a| && Accepts(env, fuel, x.a[i], v)
    case OneOf =>
      x.Arr? ==> exists i :: 0 <= i < |x.a| && Accepts(env, fuel, x.a[i], v)
                             && forall j | 0 <= j < |x.a| && j != i :: !Accepts(env, fuel, x.a[j], v)
    case Reference => x.Str? ==> RefHolds(env, fuel, x, v)
    case Unevaluated(_) =>
      forall p | Within(v, p) && p.ItemAt? == env.kind(k).items ::
        (exists other | other in s.m && other != k :: KeySees(env, fuel, s, other, v, p)) ||
          Accepts(env, fuel, x, Part(v, p))
    case _ => ValueOk(env.kind, env.holds, k, x, v)
  }

  /** A reference leads somewhere that accepts. */
  ghost predicate RefHolds(env: Env, fuel: nat, ref: Json, v: Json)
    requires ref.Str?
    decreases fuel, ref, 2
  {
    Resolve(env, ref.s).Some?
    && (if fuel == 0 then env.base else Accepts(Entering(env, ref.s), fuel - 1, Resolve(env, ref.s).value, v))
  }

  // --- what is left unevaluated --------------------------------------------------------------------------------

  /** A member or an item of a value. */
  datatype Place = NameAt(name: string) | ItemAt(i: nat)

  predicate Within(v: Json, p: Place) {
    match p
    case NameAt(n) => v.Obj? && n in v.m
    case ItemAt(i) => v.Arr? && i < |v.a|
  }

  function Part(v: Json, p: Place): Json
    requires Within(v, p)
  {
    match p
    case NameAt(n) => v.m[n]
    case ItemAt(i) => v.a[i]
  }

  /** The schema, accepting the value, says something of the place. */
  ghost predicate Sees(env: Env, fuel: nat, s: Json, v: Json, p: Place)
    requires Within(v, p)
    decreases fuel, s, 1
  {
    s.Obj? && exists k | k in s.m :: KeySees(env, fuel, s, k, v, p)
  }

  ghost predicate KeySees(env: Env, fuel: nat, s: Json, k: string, v: Json, p: Place)
    requires s.Obj? && k in s.m && Within(v, p)
    decreases fuel, s, 0
  {
    var x := s.m[k];
    match env.kind(k)
    case Properties => p.NameAt? && p.name in Members(x)
    case AdditionalProperties => p.NameAt? && p.name !in Members(Get(s.m, "properties"))
    case PrefixItems => p.ItemAt? && p.i < |Subschemas(x)|
    case Items => p.ItemAt? && p.i >= |Subschemas(Get(s.m, "prefixItems"))|
    case Contains => p.ItemAt? && Accepts(env, fuel, x, Part(v, p))
    case Unevaluated(items) => p.ItemAt? == items
    case AllOf => x.Arr? && exists i :: 0 <= i < |x.a| && Sees(env, fuel, x.a[i], v, p)
    case AnyOf => x.Arr? && exists i :: 0 <= i < |x.a| && Accepts(env, fuel, x.a[i], v) && Sees(env, fuel, x.a[i], v, p)
    case OneOf => x.Arr? && exists i :: 0 <= i < |x.a| && Accepts(env, fuel, x.a[i], v) && Sees(env, fuel, x.a[i], v, p)
    case If =>
      if Accepts(env, fuel, x, v) then Sees(env, fuel, x, v, p) || ("then" in s.m && Sees(env, fuel, s.m["then"], v, p))
      else "else" in s.m && Sees(env, fuel, s.m["else"], v, p)
    case Reference => x.Str? && RefSees(env, fuel, x, v, p)
    case _ => false
  }

  ghost predicate RefSees(env: Env, fuel: nat, ref: Json, v: Json, p: Place)
    requires ref.Str? && Within(v, p)
    decreases fuel, ref, 2
  {
    fuel > 0 && Resolve(env, ref.s).Some? && Sees(Entering(env, ref.s), fuel - 1, Resolve(env, ref.s).value, v, p)
  }
}
