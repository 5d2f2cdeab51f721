/** The classifier: every difference between two schema nodes, and whether it breaks. */
module Compat {
  import opened Text
  import opened Json

  /** What a bound bounds. */
  datatype Quantity = Value | ExclusiveValue | Length | ItemCount | PropertyCount | MatchCount

  /** A keyword, as far as the classifier and the meaning of a schema tell keywords apart. */
  datatype Keyword =
    | Annotation | Identity | Reference
    | Type | Enum | Required | DependentRequired
    | Properties | Definitions
    | Items | Contains | PropertyNames | AdditionalProperties | Unevaluated(items: bool) | Then | Else
    | PrefixItems | AllOf | AnyOf | OneOf
    | Bound(of: Quantity, lower: bool)
    | Constraint | Const | UniqueItems | If | Not | Unknown
  {
    predicate Named() { Properties? || Definitions? }

    predicate Sub() { Items? || Contains? || PropertyNames? || AdditionalProperties? || Unevaluated? || Then? || Else? }

    predicate Combined() { AllOf? || AnyOf? || OneOf? }

    /** Every one of its subschemas constrains; otherwise every one admits. */
    predicate Narrowing() { AllOf? || PrefixItems? }
  }

  const ANNOTATIONS: set<string> := {"title", "description", "$comment", "examples", "default", "deprecated",
    "readOnly", "writeOnly"}
  const IDENTITY: set<string> := {"$id", "$schema", "$anchor", "$dynamicAnchor", "$dynamicRef"}
  const CONSTRAINT: set<string> := {"pattern", "format", "multipleOf", "contentEncoding"}

  /** Every keyword the classifier lists; any other is `Unknown`. */
  function KeywordOf(key: string): Keyword {
    if key == "properties" then Properties
    else if key == "additionalProperties" then AdditionalProperties
    else if key == "items" then Items
    else if key == "prefixItems" then PrefixItems
    else if key == "then" then Then
    else if key == "else" then Else
    else if key == "minContains" then Bound(MatchCount, true)
    else if key == "maxContains" then Bound(MatchCount, false)
    else if key == "$ref" then Reference
    else if key == "$defs" || key == "definitions" then Definitions
    else OtherKeyword(key)
  }

  function OtherKeyword(key: string): (r: Keyword)
    ensures !r.Properties? && !r.AdditionalProperties? && !r.Items? && !r.PrefixItems? && !r.Then? && !r.Else?
    ensures !r.Reference? && (r.Bound? ==> !r.of.MatchCount?)
  {
    if key in ANNOTATIONS then Annotation
    else if key in IDENTITY then Identity
    else if key == "type" then Type
    else if key == "enum" then Enum
    else if key == "required" then Required
    else if key == "dependentRequired" then DependentRequired
    else if key == "contains" then Contains
    else if key == "propertyNames" then PropertyNames
    else if key == "unevaluatedProperties" then Unevaluated(false)
    else if key == "unevaluatedItems" then Unevaluated(true)
    else if key == "allOf" then AllOf
    else if key == "anyOf" then AnyOf
    else if key == "oneOf" then OneOf
    else if key == "minimum" then Bound(Value, true)
    else if key == "exclusiveMinimum" then Bound(ExclusiveValue, true)
    else if key == "minLength" then Bound(Length, true)
    else if key == "minItems" then Bound(ItemCount, true)
    else if key == "minProperties" then Bound(PropertyCount, true)
    else if key == "maximum" then Bound(Value, false)
    else if key == "exclusiveMaximum" then Bound(ExclusiveValue, false)
    else if key == "maxLength" then Bound(Length, false)
    else if key == "maxItems" then Bound(ItemCount, false)
    else if key == "maxProperties" then Bound(PropertyCount, false)
    else if key in CONSTRAINT then Constraint
    else if key == "const" then Const
    else if key == "uniqueItems" then UniqueItems
    else if key == "if" then If
    else if key == "not" then Not
    else Unknown
  }

  /** How keys are read as keywords. The classifier and the meaning of a schema are stated for
      any reading that knows the few keywords a node looks up by name. */
  type Reading = string -> Keyword

  ghost predicate Recognises(kind: Reading) {
    && (forall k :: kind(k).Properties? <==> k == "properties")
    && (forall k :: kind(k).AdditionalProperties? <==> k == "additionalProperties")
    && (forall k :: kind(k).Items? <==> k == "items")
    && (forall k :: kind(k).PrefixItems? <==> k == "prefixItems")
    && (forall k :: kind(k).Then? <==> k == "then")
    && (forall k :: kind(k).Else? <==> k == "else")
    && (forall k :: kind(k) == Bound(MatchCount, true) <==> k == "minContains")
    && (forall k :: kind(k) == Bound(MatchCount, false) <==> k == "maxContains")
    && (forall k :: kind(k).Reference? <==> k == "$ref")
    && kind("$defs").Definitions?
  }

  lemma KeywordsRecognised()
    ensures Recognises(KeywordOf)
  {
  }

  /** What a finding says. Of an added name it keeps whether the old node refused every name it
      did not list, and of a lost subschema whether the new node's `items` now takes its place. */
  datatype What =
    | AdmitsLess | AdmitsMore | NotASchema
    | AnnotationChanged | IdentityChanged
    | SetAdded | SetRemoved | SetWidened | SetNarrowed | SetChanged
    | NewlyRequired(name: string) | NoLongerRequired(name: string) | DependentChanged(name: string)
    | NameRemoved(name: string) | NameAdded(name: string, closed: bool)
    | LostSubschema(taken: bool) | GainedSubschema
    | AlternativesAdded | AlternativesRemoved
    | BoundRemoved | BoundAdded | BoundTightened | BoundLoosened
    | ConstraintRemoved | ConstraintSet
    | NowUnique | NoLongerUnique
    | ConditionChanged | Unclassified
    | SchemaAdded | SchemaRetired | SchemaRemoved

  /** One step of a JSON pointer: into a member, or into a list. */
  datatype Step = Name(name: string) | Index(i: nat)

  type Pointer = seq<Step>

  datatype Finding = Finding(at: Pointer, breaking: bool, what: What)

  function Breaking(at: Pointer, what: What): seq<Finding> { [Finding(at, true, what)] }

  function Compatible(at: Pointer, what: What): seq<Finding> { [Finding(at, false, what)] }

  // --- values of keywords -------------------------------------------------------------------------------

  function Elements(j: Json): set<Json> {
    if j.Arr? then set x | x in j.a else {j}
  }

  /** `None` admits every value. */
  function Admitted(j: Json): Option<set<Json>> {
    if j.Null? then None else Some(Elements(j))
  }

  function Names(j: Json): set<string> {
    if j.Arr? then set x | x in j.a && x.Str? :: x.s else {}
  }

  function Members(j: Json): map<string, Json> { if j.Obj? then j.m else map[] }

  /** The names listed on either side. */
  function Listed(before: Json, after: Json): seq<string> { Sorted(Members(before).Keys + Members(after).Keys) }

  function Subschemas(j: Json): seq<Json> { if j.Arr? then j.a else [] }

  function Number(j: Json): real {
    match j
    case Num(n) => n
    case Bool(b) => if b then 1.0 else 0.0
    case _ => 0.0
  }

  function Truthy(j: Json): bool {
    match j
    case Null => false
    case Bool(b) => b
    case Num(n) => n != 0.0
    case Str(s) => s != ""
    case Arr(a) => a != []
    case Obj(m) => m != map[]
  }

  // --- keywords without a schema inside ---------------------------------------------------------------------

  function SetChange(was: Option<set<Json>>, now: Option<set<Json>>, here: Pointer): seq<Finding> {
    if was.None? then Breaking(here, SetAdded)
    else if now.None? then Compatible(here, SetRemoved)
    else if now.value > was.value then Compatible(here, SetWidened)
    else if now.value < was.value then Breaking(here, SetNarrowed)
    else Breaking(here, SetChanged)
  }

  function Requirements(before: set<string>, after: set<string>, here: Pointer): seq<Finding> {
    var added, gone := Sorted(after - before), Sorted(before - after);
    seq(|added|, i requires 0 <= i < |added| => Finding(here, true, NewlyRequired(added[i])))
    + seq(|gone|, i requires 0 <= i < |gone| => Finding(here, true, NoLongerRequired(gone[i])))
  }

  function Dependents(before: map<string, Json>, after: map<string, Json>, names: seq<string>,
          here: Pointer): seq<Finding> {
    if names == [] then []
    else
      (if PyEq(Get(before, names[0]), Get(after, names[0])) then []
        else Breaking(here + [Name(names[0])], DependentChanged(names[0])))
      + Dependents(before, after, names[1..], here)
  }

  function BoundChange(lower: bool, before: Json, after: Json, here: Pointer): seq<Finding> {
    if after.Null? then Compatible(here, BoundRemoved)
    else if before.Null? then Breaking(here, BoundAdded)
    else if (Number(after) > Number(before)) == lower then Breaking(here, BoundTightened)
    else Compatible(here, BoundLoosened)
  }

  // --- combinations -------------------------------------------------------------------------------------------

  /** The first of `news` that equals `x`. */
  function FirstEqual(x: Json, news: seq<(nat, Json)>): (r: Option<nat>)
    ensures r.Some? ==> r.value < |news| && PyEq(news[r.value].1, x)
    ensures r.None? ==> forall i | 0 <= i < |news| :: !PyEq(news[i].1, x)
  {
    if news == [] then None
    else if PyEq(news[0].1, x) then Some(0)
    else
      var r := FirstEqual(x, news[1..]);
      if r.None? then None else Some(r.value + 1)
  }

  function Without(s: seq<(nat, Json)>, i: nat): seq<(nat, Json)>
    requires i < |s|
  {
    s[..i] + s[i + 1..]
  }

  /** What stays on both sides when every old subschema, in turn, takes its first equal. */
  function Unmatched(olds: seq<(nat, Json)>, news: seq<(nat, Json)>): (r: (seq<(nat, Json)>, seq<(nat, Json)>))
    ensures forall p | p in r.0 :: p in olds
    ensures forall p | p in r.1 :: p in news
  {
    if olds == [] then ([], news)
    else
      var first := FirstEqual(olds[0].1, news);
      if first.Some? then Unmatched(olds[1..], Without(news, first.value))
      else
        var rest := Unmatched(olds[1..], news);
        ([olds[0]] + rest.0, rest.1)
  }

  function Enumerated(s: seq<Json>): (r: seq<(nat, Json)>)
    ensures |r| == |s|
    ensures forall i | 0 <= i < |s| :: r[i] == (i, s[i])
  {
    seq(|s|, i requires 0 <= i < |s| => (i as nat, s[i]))
  }

  // --- schemas ---------------------------------------------------------------------------------------------------

  function CompareBool(was: Json, now: Json, at: Pointer): seq<Finding> {
    if PyEq(was, now) then []
    else if was == Bool(true) || now == Bool(false) then Breaking(at, AdmitsLess)
    else Compatible(at, AdmitsMore)
  }

  function Compare(kind: Reading, was: Json, now: Json, at: Pointer): seq<Finding>
    decreases was, 4, 0
  {
    if was.Bool? || now.Bool? then CompareBool(was, now, at)
    else if PyEq(was, now) then []
    else if !was.Obj? || !now.Obj? then Breaking(at, NotASchema)
    else OverKeys(kind, was, now, Sorted(was.m.Keys + now.m.Keys), at)
  }

  function OverKeys(kind: Reading, was: Json, now: Json, keys: seq<string>, at: Pointer): seq<Finding>
    requires was.Obj? && now.Obj?
    decreases was, 3, |keys|
  {
    if keys == [] then []
    else
      (if PyEq(Get(was.m, keys[0]), Get(now.m, keys[0])) then []
        else AtKey(kind, keys[0], was, now, at + [Name(keys[0])]))
      + OverKeys(kind, was, now, keys[1..], at)
  }

  function AtKey(kind: Reading, key: string, was: Json, now: Json, here: Pointer): seq<Finding>
    requires was.Obj? && now.Obj?
    decreases was, 2, 0
  {
    var before, after := Get(was.m, key), Get(now.m, key);
    match kind(key)
    case Annotation => Compatible(here, AnnotationChanged)
    case Identity => Breaking(here, IdentityChanged)
    case Reference => Breaking(here, IdentityChanged)
    case Type => SetChange(Admitted(before), Admitted(after), here)
    case Enum => SetChange(Admitted(before), Admitted(after), here)
    case Required => Requirements(Names(before), Names(after), here)
    case DependentRequired =>
      Dependents(Members(before), Members(after), Listed(before, after), here)
    case Properties => Named(kind, key, was, now, Listed(before, after), here)
    case Definitions => Named(kind, key, was, now, Listed(before, after), here)
    case PrefixItems =>
      Paired(kind, key, was, now, Enumerated(Subschemas(before)), Enumerated(Subschemas(after)), here)
    case AllOf => Combination(kind, key, was, now, here)
    case AnyOf => Combination(kind, key, was, now, here)
    case OneOf => Combination(kind, key, was, now, here)
    case Bound(_, lower) => BoundChange(lower, before, after, here)
    case Constraint => if after.Null? then Compatible(here, ConstraintRemoved) else Breaking(here, ConstraintSet)
    case Const => if after.Null? then Compatible(here, ConstraintRemoved) else Breaking(here, ConstraintSet)
    case UniqueItems => if Truthy(after) then Breaking(here, NowUnique) else Compatible(here, NoLongerUnique)
    case If => Breaking(here, ConditionChanged)
    case Not => Breaking(here, ConditionChanged)
    case Unknown => Breaking(here, Unclassified)
    case _ => Sub(kind, key, was, now, here)
  }

  /** An absent subschema is `true`. */
  function Sub(kind: Reading, key: string, was: Json, now: Json, here: Pointer): seq<Finding>
    requires was.Obj? && now.Obj?
    decreases was, 1, 0
  {
    var before, after := Get(was.m, key), Get(now.m, key);
    if before.Null? then CompareBool(Bool(true), after, here)
    else if after.Null? then CompareBool(before, Bool(true), here)
    else Compare(kind, before, after, here)
  }

  function Named(kind: Reading, key: string, was: Json, now: Json, names: seq<string>, here: Pointer): seq<Finding>
    requires was.Obj? && now.Obj?
    decreases was, 1, |names|
  {
    if names == [] then []
    else
      AtName(kind, key, was, now, names[0], here + [Name(names[0])]) + Named(kind, key, was, now, names[1..], here)
  }

  function AtName(kind: Reading, key: string, was: Json, now: Json, name: string, at: Pointer): seq<Finding>
    requires was.Obj? && now.Obj?
    decreases was, 1, 0
  {
    var before, after := Members(Get(was.m, key)), Members(Get(now.m, key));
    if name !in after then Breaking(at, NameRemoved(name))
    else if name !in before then
      Compatible(at, NameAdded(name, !kind(key).Properties? || Get(was.m, "additionalProperties") == Bool(false)))
    else Compare(kind, before[name], after[name], at)
  }

  function Combination(kind: Reading, key: string, was: Json, now: Json, here: Pointer): seq<Finding>
    requires was.Obj? && now.Obj?
    decreases was, 1, 1
  {
    var before, after := Get(was.m, key), Get(now.m, key);
    if !kind(key).AllOf? && before.Null? then Breaking(here, AlternativesAdded)
    else if !kind(key).AllOf? && after.Null? then Compatible(here, AlternativesRemoved)
    else
      var rest := Unmatched(Enumerated(Subschemas(before)), Enumerated(Subschemas(after)));
      Paired(kind, key, was, now, rest.0, rest.1, here)
  }

  /** Position by position; one more or one fewer widens or narrows as the combination does. */
  function Paired(kind: Reading, key: string, was: Json, now: Json, olds: seq<(nat, Json)>,
          news: seq<(nat, Json)>, here: Pointer): seq<Finding>
    requires was.Obj? && now.Obj?
    requires forall p | p in olds :: p.1 in Subschemas(Get(was.m, key))
    decreases was, 0, |olds| + |news|
  {
    if olds == [] && news == [] then []
    else if news == [] then
      [Finding(here + [Index(olds[0].0)], !kind(key).Narrowing(),
        LostSubschema(kind(key).PrefixItems? && !Get(now.m, "items").Null?))]
      + Paired(kind, key, was, now, olds[1..], [], here)
    else if olds == [] then
      [Finding(here + [Index(news[0].0)], kind(key).Narrowing(), GainedSubschema)]
        + Paired(kind, key, was, now, [], news[1..], here)
    else
      assert olds[0].1 in Subschemas(Get(was.m, key));
      Compare(kind, olds[0].1, news[0].1, here + [Index(news[0].0)])
        + Paired(kind, key, was, now, olds[1..], news[1..], here)
  }

  // --- files -----------------------------------------------------------------------------------------------------

  /** A schema's path taken apart. */
  datatype Parts = Parts(family: string, major: nat, name: string)

  /** A higher major version of the same schema stands among the current ones. */
  predicate Succeeded(parts: string -> Parts, path: string, paths: set<string>) {
    exists other | other in paths ::
      && parts(other).family == parts(path).family && parts(other).name == parts(path).name
      && parts(other).major > parts(path).major
  }

  /** Every change from the old schema files to the new ones; a pointer starts with the path. */
  function Classify(kind: Reading, parts: string -> Parts, baseline: map<string, Json>,
          current: map<string, Json>, paths: seq<string>): seq<Finding> {
    if paths == [] then []
      else AtPath(kind, parts, baseline, current, paths[0]) + Classify(kind, parts, baseline, current, paths[1..])
  }

  function AtPath(kind: Reading, parts: string -> Parts, baseline: map<string, Json>,
          current: map<string, Json>, path: string): seq<Finding> {
    var at := [Name(path)];
    if path !in baseline then Compatible(at, SchemaAdded)
    else if path !in current then
      if Succeeded(parts, path, current.Keys) then Compatible(at, SchemaRetired) else Breaking(at, SchemaRemoved)
    else Compare(kind, baseline[path], current[path], at)
  }

  function Changes(kind: Reading, parts: string -> Parts, baseline: map<string, Json>,
          current: map<string, Json>): seq<Finding> {
    Classify(kind, parts, baseline, current, Sorted(baseline.Keys + current.Keys))
  }

  /** The removal in place: every old subschema takes its first equal, wherever it stands. */
  method RemoveMatched(before: seq<(nat, Json)>,
          after: seq<(nat, Json)>) returns (olds: seq<(nat, Json)>, news: seq<(nat, Json)>)
    ensures (olds, news) == Unmatched(before, after)
  {
    olds, news := [], after;
    var i := 0;
    assert before[0..] == before && [] + Unmatched(before, after).0 == Unmatched(before, after).0;
    while i < |before|
      invariant i <= |before|
      invariant var rest := Unmatched(before[i..], news);
                (olds + rest.0, rest.1) == Unmatched(before, after)
    {
      assert before[i..][1..] == before[i + 1..];
      var found := FirstEqual(before[i].1, news);
      if found.Some? {
        news := Without(news, found.value);
      } else {
        assert olds + ([before[i]] + Unmatched(before[i + 1..], news).0)
            == olds + [before[i]] + Unmatched(before[i + 1..], news).0;
        olds := olds + [before[i]];
      }
      i := i + 1;
    }
    assert before[i..] == [];
    assert olds + [] == olds;
  }
}
