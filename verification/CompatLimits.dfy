/** Where the classifier calls a change compatible and documents are lost: for each kind of change,
    exactly when. */
module CompatLimits {
  import opened Text
  import opened Json
  import opened Compat
  import opened Schema
  import opened CompatSound

  /** Every document the one schema accepts the other accepts. */
  ghost predicate Keeps(a: Env, b: Env, fuel: nat, was: Json, now: Json) {
    forall v :: Accepts(a, fuel, was, v) ==> Accepts(b, fuel, now, v)
  }

  // --- a change at one key ---------------------------------------------------------------------------------------

  lemma {:induction false} OverUnchanged(kind: Reading, was: Json, now: Json, keys: seq<string>, at: Pointer)
    requires was.Obj? && now.Obj? && forall k | k in keys :: PyEq(Get(was.m, k), Get(now.m, k))
    ensures OverKeys(kind, was, now, keys, at) == []
  {
    if keys != [] { OverUnchanged(kind, was, now, keys[1..], at); }
  }

  lemma {:induction false} OverOneChange(kind: Reading, was: Json, now: Json, keys: seq<string>, key: string,
          at: Pointer)
    requires was.Obj? && now.Obj? && Ascending(keys) && key in keys
    requires forall k | k in keys :: k != key ==> PyEq(Get(was.m, k), Get(now.m, k))
    requires !PyEq(Get(was.m, key), Get(now.m, key))
    ensures OverKeys(kind, was, now, keys, at) == AtKey(kind, key, was, now, at + [Name(key)])
  {
    if keys[0] == key {
      forall k | k in keys[1..] ensures k != key {
        var i :| 0 <= i < |keys| - 1 && keys[1..][i] == k;
        assert keys[0] != keys[i + 1];
      }
      OverUnchanged(kind, was, now, keys[1..], at);
      assert AtKey(kind, key, was, now, at + [Name(key)]) + [] == AtKey(kind, key, was, now, at + [Name(key)]);
    } else {
      OverOneChange(kind, was, now, keys[1..], key, at);
    }
  }

  /** Two nodes that differ at one key are reported as that key is. */
  lemma OneChange(kind: Reading, was: Json, now: Json, key: string, at: Pointer)
    requires was.Obj? && now.Obj? && (key in was.m || key in now.m)
    requires forall k | k in was.m || k in now.m :: k != key ==> PyEq(Get(was.m, k), Get(now.m, k))
    requires !PyEq(Get(was.m, key), Get(now.m, key))
    ensures Compare(kind, was, now, at) == AtKey(kind, key, was, now, at + [Name(key)])
  {
    if PyEq(was, now) { PyEqObj(was.m, now.m); }
    OverOneChange(kind, was, now, Sorted(was.m.Keys + now.m.Keys), key, at);
  }

  lemma AcceptsOne(env: Env, fuel: nat, k: string, x: Json, v: Json)
    ensures Accepts(env, fuel, Obj(map[k := x]), v) <==> KeywordOk(env, fuel, Obj(map[k := x]), k, v)
  {
  }

  // --- const ---------------------------------------------------------------------------------------------------------

  lemma ConstAccepts(env: Env, fuel: nat, k: string, x: Json, v: Json)
    requires env.kind(k).Const?
    ensures Accepts(env, fuel, Obj(map[k := x]), v) <==> v == x
  {
    AcceptsOne(env, fuel, k, x, v);
  }

  lemma OneKeyChange(kind: Reading, k: string, x: Json, y: Json, at: Pointer)
    requires !PyEq(x, y)
    ensures Compare(kind, Obj(map[k := x]), Obj(map[k := y]), at)
            == AtKey(kind, k, Obj(map[k := x]), Obj(map[k := y]), at + [Name(k)])
  {
    OneChange(kind, Obj(map[k := x]), Obj(map[k := y]), k, at);
  }

  lemma AtKeyConst(kind: Reading, k: string, was: Json, now: Json, here: Pointer)
    requires was.Obj? && now.Obj? && kind(k).Const?
    ensures AtKey(kind, k, was, now, here)
            == if Get(now.m, k).Null? then Compatible(here, ConstraintRemoved) else Breaking(here, ConstraintSet)
  {
  }

  lemma ConstReported(kind: Reading, k: string, x: Json, y: Json, at: Pointer)
    requires kind(k).Const? && !PyEq(x, y)
    ensures Quiet(Compare(kind, Obj(map[k := x]), Obj(map[k := y]), at)) <==> y.Null?
  {
    OneKeyChange(kind, k, x, y, at);
    AtKeyConst(kind, k, Obj(map[k := x]), Obj(map[k := y]), at + [Name(k)]);
    if !y.Null? { NotQuiet(Finding(at + [Name(k)], true, ConstraintSet)); }
  }

  lemma ConstQuietly(kind: Reading, k: string, x: Json, y: Json)
    requires kind(k).Const?
    ensures NodeQuiet(kind, Obj(map[k := x]), Obj(map[k := y])) <==> PyEq(x, y) || y.Null?
  {
    var was, now := Obj(map[k := x]), Obj(map[k := y]);
    if PyEq(x, y) {
      PyEqObj(was.m, now.m);
      EqualIsQuiet(kind, was, now);
    } else {
      forall at ensures Quiet(Compare(kind, was, now, at)) <==> y.Null? {
        ConstReported(kind, k, x, y, at);
      }
      if y.Null? { assert Quiet(Compare(kind, was, now, [])); }
    }
  }

  /** A `const` keeps every document only where it stays the same value; the classifier is silent
      wherever Python calls the two equal, and wherever the new one is null. */
  lemma ConstExactly(env: Env, fuel: nat, k: string, x: Json, y: Json)
    requires env.kind(k).Const?
    ensures var was, now := Obj(map[k := x]), Obj(map[k := y]);
            && (Keeps(env, env, fuel, was, now) <==> x == y)
            && (NodeQuiet(env.kind, was, now) <==> PyEq(x, y) || y.Null?)
  {
    ConstQuietly(env.kind, k, x, y);
    forall v ensures Accepts(env, fuel, Obj(map[k := x]), v) <==> v == x { ConstAccepts(env, fuel, k, x, v); }
    forall v ensures Accepts(env, fuel, Obj(map[k := y]), v) <==> v == y { ConstAccepts(env, fuel, k, y, v); }
    assert Accepts(env, fuel, Obj(map[k := x]), x);
  }

  /** `true` and the number 1 are one value to the classifier and two to a reader. */
  lemma ConstTrueBecomesOne(env: Env, fuel: nat, k: string)
    requires env.kind(k).Const?
    ensures var was, now := Obj(map[k := Bool(true)]), Obj(map[k := Num(1.0)]);
            Compare(env.kind, was, now, []) == [] && !Keeps(env, env, fuel, was, now)
  {
    var was, now := Obj(map[k := Bool(true)]), Obj(map[k := Num(1.0)]);
    PyEqObj(was.m, now.m);
    ConstExactly(env, fuel, k, Bool(true), Num(1.0));
  }

  // --- properties ------------------------------------------------------------------------------------------------

  lemma NoFinding(kind: Reading, x: Json, at: Pointer)
    ensures Compare(kind, x, x, at) == []
  {
  }

  lemma {:induction false} NamedOneAdded(kind: Reading, k: string, was: Json, now: Json, names: seq<string>, n: string,
          at: Pointer)
    requires was.Obj? && now.Obj? && kind(k).Properties? && Ascending(names)
    requires n !in Members(Get(was.m, k)) && n in Members(Get(now.m, k))
    requires forall x | x in names && x != n ::
      x in Members(Get(was.m, k)) && x in Members(Get(now.m, k)) &&
        Members(Get(was.m, k))[x] == Members(Get(now.m, k))[x]
    ensures Named(kind, k, was, now, names, at)
            == if n in names
               then Compatible(at + [Name(n)], NameAdded(n, Get(was.m, "additionalProperties") == Bool(false)))
               else []
  {
    if names != [] {
      var x := names[0];
      NamedOneAdded(kind, k, was, now, names[1..], n, at);
      if x == n {
        forall y | y in names[1..] ensures y != n {
          var i :| 0 <= i < |names| - 1 && names[1..][i] == y;
          assert names[0] != names[i + 1];
        }
      } else {
        NoFinding(kind, Members(Get(was.m, k))[x], at + [Name(x)]);
        assert AtName(kind, k, was, now, x, at + [Name(x)]) == [];
      }
    }
  }

  /** A node with one more property. */
  function WithProperty(s: map<string, Json>, p: string, n: string, schema: Json): Json
    requires p in s && s[p].Obj?
  {
    Obj(s[p := Obj(s[p].m[n := schema])])
  }

  /** An added property is reported by one compatible finding, whatever its schema. */
  lemma AddedPropertyReported(kind: Reading, s: map<string, Json>, p: string, n: string, schema: Json, at: Pointer)
    requires kind(p).Properties? && p in s && s[p].Obj? && n !in s[p].m
    ensures Compare(kind, Obj(s), WithProperty(s, p, n, schema), at)
            == Compatible(at + [Name(p)] + [Name(n)], NameAdded(n, Get(s, "additionalProperties") == Bool(false)))
  {
    var was, now := Obj(s), WithProperty(s, p, n, schema);
    PropertiesDiffer(s[p].m, n, schema);
    OneChange(kind, was, now, p, at);
    AtKeyNamed(kind, p, was, now, at + [Name(p)]);
    var names := Listed(Get(was.m, p), Get(now.m, p));
    assert n in names;
    NamedOneAdded(kind, p, was, now, names, n, at + [Name(p)]);
  }

  lemma PropertiesDiffer(before: map<string, Json>, n: string, schema: Json)
    requires n !in before
    ensures !PyEq(Obj(before), Obj(before[n := schema]))
  {
    PyEqObj(before, before[n := schema]);
    assert n in before[n := schema].Keys;
  }

  lemma SeesNoLess(env: Env, fuel: nat, s: map<string, Json>, p: string, n: string, schema: Json, k: string, v: Json,
          place: Place)
    requires Recognises(env.kind) && p == "properties" && p in s && s[p].Obj? && n !in s[p].m && k in s &&
             Within(v, place)
    requires KeySees(env, fuel, Obj(s), k, v, place)
    ensures var now := WithProperty(s, p, n, schema);
            KeySees(env, fuel, now, k, v, place) || (place == NameAt(n) && KeySees(env, fuel, now, p, v, place))
  {
    var t := s[p := Obj(s[p].m[n := schema])];
    assert forall q | q in s && q != p :: q in t && t[q] == s[q];
  }

  /** Every other keyword the node asked, it asks no more of. */
  lemma OthersNoTighter(env: Env, fuel: nat, s: map<string, Json>, p: string, n: string, schema: Json, k: string,
          v: Json)
    requires Recognises(env.kind) && p == "properties" && p in s && s[p].Obj? && n !in s[p].m && k in s && k != p
    requires KeywordOk(env, fuel, Obj(s), k, v)
    ensures KeywordOk(env, fuel, WithProperty(s, p, n, schema), k, v)
  {
    var t := s[p := Obj(s[p].m[n := schema])];
    assert forall q | q in s && q != p :: q in t && t[q] == s[q];
    if env.kind(k).Unevaluated? {
      UnevaluatedNoTighter(env, fuel, s, p, n, schema, k, v);
    } else if env.kind(k).AdditionalProperties? {
    } else {
      SameOutside(env, fuel, s, t, p, k, v);
    }
  }

  lemma UnevaluatedNoTighter(env: Env, fuel: nat, s: map<string, Json>, p: string, n: string, schema: Json, k: string,
          v: Json)
    requires Recognises(env.kind) && p == "properties" && p in s && s[p].Obj? && n !in s[p].m && k in s && k != p
    requires env.kind(k).Unevaluated? && KeywordOk(env, fuel, Obj(s), k, v)
    ensures KeywordOk(env, fuel, WithProperty(s, p, n, schema), k, v)
  {
    var now := WithProperty(s, p, n, schema);
    forall place | Within(v, place) && place.ItemAt? == env.kind(k).items
      ensures (exists other | other in now.m && other != k :: KeySees(env, fuel, now, other, v, place))
              || Accepts(env, fuel, s[k], Part(v, place))
    {
      if !Accepts(env, fuel, s[k], Part(v, place)) {
        var other :| other in s && other != k && KeySees(env, fuel, Obj(s), other, v, place);
        SeesNoLess(env, fuel, s, p, n, schema, other, v, place);
      }
    }
  }

  /** A keyword that looks at no member that changed says what it said. */
  lemma SameOutside(env: Env, fuel: nat, s: map<string, Json>, t: map<string, Json>, p: string, k: string, v: Json)
    requires Recognises(env.kind) && k in s && k in t && k != p
    requires forall q | q != p :: (q in s <==> q in t) && (q in s ==> s[q] == t[q])
    requires p == "properties" && !env.kind(k).Unevaluated? && !env.kind(k).AdditionalProperties?
    ensures KeywordOk(env, fuel, Obj(s), k, v) <==> KeywordOk(env, fuel, Obj(t), k, v)
  {
    assert p != "prefixItems" && p != "then" && p != "else" && p != "minContains" && p != "maxContains";
    assert Get(s, "prefixItems") == Get(t, "prefixItems");
  }

  lemma AddedPropertyKept(env: Env, fuel: nat, s: map<string, Json>, p: string, n: string, schema: Json)
    requires Recognises(env.kind) && p == "properties" && p in s && s[p].Obj? && n !in s[p].m
    ensures Keeps(env, env, fuel, Obj(s), WithProperty(s, p, n, schema)) <==> Gives(env, fuel, Obj(s), n, schema)
  {
    var was, now := Obj(s), WithProperty(s, p, n, schema);
    assert env.kind(p).Properties?;
    forall v | Accepts(env, fuel, was, v)
      ensures Accepts(env, fuel, now, v) <==> (v.Obj? && n in v.m ==> Accepts(env, fuel, schema, v.m[n]))
    {
      PropertyDecides(env, fuel, s, p, n, schema, v);
    }
  }

  /** Whatever a document of the node gives the name, the schema accepts. */
  ghost predicate Gives(env: Env, fuel: nat, node: Json, n: string, schema: Json) {
    forall v: Json | Accepts(env, fuel, node, v) :: v.Obj? && n in v.m ==> Accepts(env, fuel, schema, v.m[n])
  }

  /** In any node: an added property is called compatible; it keeps every document exactly where its schema
      accepts every value that a document the node accepts gives the name. */
  lemma AddedPropertyAnywhere(env: Env, fuel: nat, s: map<string, Json>, p: string, n: string, schema: Json,
          at: Pointer)
    requires Recognises(env.kind) && p == "properties" && p in s && s[p].Obj? && n !in s[p].m
    ensures Compare(env.kind, Obj(s), WithProperty(s, p, n, schema), at)
            == Compatible(at + [Name(p)] + [Name(n)], NameAdded(n, Get(s, "additionalProperties") == Bool(false)))
    ensures Keeps(env, env, fuel, Obj(s), WithProperty(s, p, n, schema)) <==> Gives(env, fuel, Obj(s), n, schema)
  {
    assert env.kind(p).Properties?;
    AddedPropertyReported(env.kind, s, p, n, schema, at);
    AddedPropertyKept(env, fuel, s, p, n, schema);
  }

  lemma PropertyDecides(env: Env, fuel: nat, s: map<string, Json>, p: string, n: string, schema: Json, v: Json)
    requires Recognises(env.kind) && p == "properties" && p in s && s[p].Obj? && n !in s[p].m
    requires Accepts(env, fuel, Obj(s), v)
    ensures Accepts(env, fuel, WithProperty(s, p, n, schema), v) <==>
            (v.Obj? && n in v.m ==> Accepts(env, fuel, schema, v.m[n]))
  {
    var was, now := Obj(s), WithProperty(s, p, n, schema);
    forall k | k in s && k != p ensures KeywordOk(env, fuel, now, k, v) {
      assert KeywordOk(env, fuel, was, k, v);
      OthersNoTighter(env, fuel, s, p, n, schema, k, v);
    }
    PropertiesDecide(env, fuel, s, p, n, schema, v);
  }

  lemma PropertiesDecide(env: Env, fuel: nat, s: map<string, Json>, p: string, n: string, schema: Json, v: Json)
    requires env.kind(p).Properties? && p in s && s[p].Obj? && n !in s[p].m && KeywordOk(env, fuel, Obj(s), p, v)
    ensures KeywordOk(env, fuel, WithProperty(s, p, n, schema), p, v) <==>
            (v.Obj? && n in v.m ==> Accepts(env, fuel, schema, v.m[n]))
  {
    var x, y := s[p].m, s[p].m[n := schema];
    assert y[n] == schema && forall q | q in x :: q in y && y[q] == x[q];
  }

  /** A node of properties and, perhaps, of what it asks of the names it does not list. */
  function PropertyNode(p: string, properties: map<string, Json>, a: string, others: Option<Json>): Json {
    if others.Some? then Obj(map[p := Obj(properties), a := others.value]) else Obj(map[p := Obj(properties)])
  }

  ghost predicate OthersAccept(env: Env, fuel: nat, others: Option<Json>, v: Json) {
    others.Some? ==> Accepts(env, fuel, others.value, v)
  }

  lemma PropertyNodeAccepts(env: Env, fuel: nat, p: string, properties: map<string, Json>, a: string,
          others: Option<Json>, v: Json)
    requires Recognises(env.kind) && p == "properties" && a == "additionalProperties"
    ensures Accepts(env, fuel, PropertyNode(p, properties, a, others), v) <==>
            (v.Obj? ==> forall n | n in v.m ::
              if n in properties then Accepts(env, fuel, properties[n], v.m[n])
                else OthersAccept(env, fuel, others, v.m[n]))
  {
    var s := PropertyNode(p, properties, a, others);
    assert s.m[p] == Obj(properties) && p != a;
    assert env.kind(p).Properties? && env.kind(a).AdditionalProperties?;
    if Accepts(env, fuel, s, v) && v.Obj? {
      assert KeywordOk(env, fuel, s, p, v);
      if others.Some? { assert KeywordOk(env, fuel, s, a, v); }
    }
  }

  /** Every value the node lets an unlisted name have. */
  ghost predicate UnlistedFit(env: Env, fuel: nat, others: Option<Json>, schema: Json) {
    forall x :: OthersAccept(env, fuel, others, x) ==> Accepts(env, fuel, schema, x)
  }

  lemma GivesExactly(env: Env, fuel: nat, p: string, before: map<string, Json>, a: string, others: Option<Json>,
          n: string, schema: Json)
    requires Recognises(env.kind) && p == "properties" && a == "additionalProperties" && n !in before
    ensures Gives(env, fuel, PropertyNode(p, before, a, others), n, schema) <==> UnlistedFit(env, fuel, others, schema)
  {
    var was := PropertyNode(p, before, a, others);
    if Gives(env, fuel, was, n, schema) {
      forall x | OthersAccept(env, fuel, others, x) ensures Accepts(env, fuel, schema, x) {
        var v := Obj(map[n := x]);
        PropertyNodeAccepts(env, fuel, p, before, a, others, v);
        assert Accepts(env, fuel, was, v) && n in v.m && v.m[n] == x;
      }
    }
    if UnlistedFit(env, fuel, others, schema) {
      forall v: Json | Accepts(env, fuel, was, v) ensures v.Obj? && n in v.m ==> Accepts(env, fuel, schema, v.m[n]) {
        PropertyNodeAccepts(env, fuel, p, before, a, others, v);
        if v.Obj? && n in v.m { assert OthersAccept(env, fuel, others, v.m[n]); }
      }
    }
  }

  /** In a node of only these two keywords: an added property is called compatible; it keeps every
      document exactly when every value the node let any unlisted name have, its schema accepts. */
  lemma AddedPropertyExactly(env: Env, fuel: nat, p: string, before: map<string, Json>, a: string, others: Option<Json>,
          n: string, schema: Json, at: Pointer)
    requires Recognises(env.kind) && p == "properties" && a == "additionalProperties" && n !in before
    ensures var was, now := PropertyNode(p, before, a, others), PropertyNode(p, before[n := schema], a, others);
            && Compare(env.kind, was, now, at)
               == Compatible(at + [Name(p)] + [Name(n)], NameAdded(n, others == Some(Bool(false))))
            && (Keeps(env, env, fuel, was, now) <==> UnlistedFit(env, fuel, others, schema))
  {
    NodeWithProperty(p, before, a, others, n, schema);
    AddedPropertyAnywhere(env, fuel, PropertyNode(p, before, a, others).m, p, n, schema, at);
    GivesExactly(env, fuel, p, before, a, others, n, schema);
  }

  lemma NodeWithProperty(p: string, before: map<string, Json>, a: string, others: Option<Json>, n: string, schema: Json)
    requires p == "properties" && a == "additionalProperties"
    ensures var was := PropertyNode(p, before, a, others);
            && was.m[p] == Obj(before)
            && WithProperty(was.m, p, n, schema) == PropertyNode(p, before[n := schema], a, others)
            && (Get(was.m, "additionalProperties") == Bool(false) <==> others == Some(Bool(false)))
  {
    assert p != a;
    var was := PropertyNode(p, before, a, others);
    assert WithProperty(was.m, p, n, schema).m == PropertyNode(p, before[n := schema], a, others).m;
  }

  // --- positional subschemas beside `items` -------------------------------------------------------------------------

  function PositionalNode(p: string, prefix: seq<Json>, i: string, items: Json): Json {
    Obj(map[p := Arr(prefix), i := items])
  }

  lemma PositionalNodeAccepts(env: Env, fuel: nat, p: string, prefix: seq<Json>, i: string, items: Json, v: Json)
    requires Recognises(env.kind) && p == "prefixItems" && i == "items"
    ensures Accepts(env, fuel, PositionalNode(p, prefix, i, items), v) <==>
            (v.Arr? ==> forall j | 0 <= j < |v.a| ::
              Accepts(env, fuel, if j < |prefix| then prefix[j] else items, v.a[j]))
  {
    var s := PositionalNode(p, prefix, i, items);
    assert p != i && s.m[p] == Arr(prefix) && s.m[i] == items;
    assert env.kind(p).PrefixItems? && env.kind(i).Items?;
    if Accepts(env, fuel, s, v) && v.Arr? {
      assert KeywordOk(env, fuel, s, p, v) && KeywordOk(env, fuel, s, i, v);
    }
  }

  ghost predicate Satisfiable(env: Env, fuel: nat, s: Json) {
    exists v :: Accepts(env, fuel, s, v)
  }

  /** One value for each of the schemas, if each accepts one. */
  lemma {:induction false} Witnesses(env: Env, fuel: nat, prefix: seq<Json>) returns (vs: seq<Json>)
    requires forall j | 0 <= j < |prefix| :: Satisfiable(env, fuel, prefix[j])
    ensures |vs| == |prefix| && forall j | 0 <= j < |prefix| :: Accepts(env, fuel, prefix[j], vs[j])
  {
    if prefix == [] {
      vs := [];
    } else {
      var rest := Witnesses(env, fuel, prefix[..|prefix| - 1]);
      assert Satisfiable(env, fuel, prefix[|prefix| - 1]);
      var v :| Accepts(env, fuel, prefix[|prefix| - 1], v);
      vs := rest + [v];
    }
  }

  lemma {:induction false} PairedSame(kind: Reading, k: string, was: Json, now: Json, olds: seq<(nat, Json)>,
          last: (nat, Json), here: Pointer)
    requires was.Obj? && now.Obj? && kind(k).PrefixItems?
    requires forall p | p in olds + [last] :: p.1 in Subschemas(Get(was.m, k))
    ensures Paired(kind, k, was, now, olds + [last], olds, here)
            == Compatible(here + [Index(last.0)], LostSubschema(!Get(now.m, "items").Null?))
    decreases |olds|
  {
    if olds == [] {
      assert [last][1..] == [];
      assert Paired(kind, k, was, now, [], [], here) == [];
    } else {
      assert (olds + [last])[1..] == olds[1..] + [last] && (olds + [last])[0] == olds[0];
      assert olds[0] in olds + [last];
      NoFinding(kind, olds[0].1, here + [Index(olds[0].0)]);
      PairedSame(kind, k, was, now, olds[1..], last, here);
    }
  }

  lemma AtKeyPrefix(kind: Reading, k: string, was: Json, now: Json, here: Pointer)
    requires was.Obj? && now.Obj? && kind(k).PrefixItems?
    ensures AtKey(kind, k, was, now, here)
            == Paired(kind, k, was, now, Enumerated(Subschemas(Get(was.m, k))), Enumerated(Subschemas(Get(now.m, k))),
              here)
  {
  }

  lemma OneFewer(prefix: seq<Json>, dropped: Json)
    ensures Enumerated(prefix + [dropped]) == Enumerated(prefix) + [(|prefix|, dropped)]
    ensures forall q | q in Enumerated(prefix + [dropped]) :: q.1 in prefix + [dropped]
    ensures !PyEq(Arr(prefix + [dropped]), Arr(prefix))
  {
    PyEqArr(prefix + [dropped], prefix);
    forall q | q in Enumerated(prefix + [dropped]) ensures q.1 in prefix + [dropped] {
      assert q.1 == (prefix + [dropped])[q.0];
    }
  }

  lemma PositionalChange(kind: Reading, p: string, prefix: seq<Json>, i: string, items: Json, dropped: Json,
          at: Pointer)
    requires p != i && !PyEq(Arr(prefix + [dropped]), Arr(prefix))
    ensures var was, now := PositionalNode(p, prefix + [dropped], i, items), PositionalNode(p, prefix, i, items);
            Compare(kind, was, now, at) == AtKey(kind, p, was, now, at + [Name(p)])
  {
    OneChange(kind, PositionalNode(p, prefix + [dropped], i, items), PositionalNode(p, prefix, i, items), p, at);
  }

  lemma ShortenedPrefixReported(kind: Reading, p: string, prefix: seq<Json>, i: string, items: Json, dropped: Json,
          at: Pointer)
    requires kind(p).PrefixItems? && p != i && i == "items"
    ensures Compare(kind, PositionalNode(p, prefix + [dropped], i, items), PositionalNode(p, prefix, i, items), at)
            == Compatible(at + [Name(p)] + [Index(|prefix|)], LostSubschema(!items.Null?))
  {
    var was, now := PositionalNode(p, prefix + [dropped], i, items), PositionalNode(p, prefix, i, items);
    OneFewer(prefix, dropped);
    PositionalChange(kind, p, prefix, i, items, dropped, at);
    AtKeyPrefix(kind, p, was, now, at + [Name(p)]);
    assert Subschemas(Get(was.m, p)) == prefix + [dropped] && Subschemas(Get(now.m, p)) == prefix;
    PairedSame(kind, p, was, now, Enumerated(prefix), (|prefix|, dropped), at + [Name(p)]);
  }

  lemma ShortenedPrefixKeeps(env: Env, fuel: nat, p: string, prefix: seq<Json>, i: string, items: Json, dropped: Json)
    requires Recognises(env.kind) && p == "prefixItems" && i == "items"
    ensures Keeps(env, env, fuel, PositionalNode(p, prefix + [dropped], i, items), PositionalNode(p, prefix, i, items))
            <==> (|| Keeps(env, env, fuel, dropped, items)
                  || exists j :: 0 <= j < |prefix| && !Satisfiable(env, fuel, prefix[j]))
  {
    var was, now := PositionalNode(p, prefix + [dropped], i, items), PositionalNode(p, prefix, i, items);
    if Keeps(env, env, fuel, dropped, items) {
      forall v | Accepts(env, fuel, was, v) ensures Accepts(env, fuel, now, v) {
        PositionalNodeAccepts(env, fuel, p, prefix + [dropped], i, items, v);
        PositionalNodeAccepts(env, fuel, p, prefix, i, items, v);
      }
    } else if exists j :: 0 <= j < |prefix| && !Satisfiable(env, fuel, prefix[j]) {
      var j :| 0 <= j < |prefix| && !Satisfiable(env, fuel, prefix[j]);
      forall v | Accepts(env, fuel, was, v) ensures Accepts(env, fuel, now, v) {
        PositionalNodeAccepts(env, fuel, p, prefix + [dropped], i, items, v);
        PositionalNodeAccepts(env, fuel, p, prefix, i, items, v);
        DeadPosition(env, fuel, p, prefix + [dropped], i, items, j, v);
      }
    } else {
      var x :| Accepts(env, fuel, dropped, x) && !Accepts(env, fuel, items, x);
      LostArray(env, fuel, p, prefix, i, items, dropped, x);
    }
  }

  /** In a node of only these two keywords: the last positional subschema dropped where `items` takes its
      place is called compatible; it keeps every document exactly when `items` accepts what the dropped
      one did, or an earlier position accepts nothing at all. */
  lemma ShortenedPrefixExactly(env: Env, fuel: nat, p: string, prefix: seq<Json>, i: string, items: Json, dropped: Json,
          at: Pointer)
    requires Recognises(env.kind) && p == "prefixItems" && i == "items"
    ensures Compare(env.kind, PositionalNode(p, prefix + [dropped], i, items), PositionalNode(p, prefix, i, items), at)
            == Compatible(at + [Name(p)] + [Index(|prefix|)], LostSubschema(!items.Null?))
    ensures Keeps(env, env, fuel, PositionalNode(p, prefix + [dropped], i, items), PositionalNode(p, prefix, i, items))
            <==> (|| Keeps(env, env, fuel, dropped, items)
                  || exists j :: 0 <= j < |prefix| && !Satisfiable(env, fuel, prefix[j]))
  {
    assert p != i && env.kind(p).PrefixItems?;
    ShortenedPrefixReported(env.kind, p, prefix, i, items, dropped, at);
    ShortenedPrefixKeeps(env, fuel, p, prefix, i, items, dropped);
  }

  /** A position that accepts nothing lets no array reach it. */
  lemma DeadPosition(env: Env, fuel: nat, p: string, prefix: seq<Json>, i: string, items: Json, j: nat, v: Json)
    requires Recognises(env.kind) && p == "prefixItems" && i == "items" && j < |prefix| &&
             !Satisfiable(env, fuel, prefix[j])
    ensures v.Arr? && j < |v.a| ==> !Accepts(env, fuel, PositionalNode(p, prefix, i, items), v)
  {
    PositionalNodeAccepts(env, fuel, p, prefix, i, items, v);
    if v.Arr? && j < |v.a| { assert !Accepts(env, fuel, prefix[j], v.a[j]); }
  }

  lemma LostArray(env: Env, fuel: nat, p: string, prefix: seq<Json>, i: string, items: Json, dropped: Json, x: Json)
    requires Recognises(env.kind) && p == "prefixItems" && i == "items"
    requires Accepts(env, fuel, dropped, x) && !Accepts(env, fuel, items, x)
    requires forall j | 0 <= j < |prefix| :: Satisfiable(env, fuel, prefix[j])
    ensures !Keeps(env, env, fuel, PositionalNode(p, prefix + [dropped], i, items), PositionalNode(p, prefix, i, items))
  {
    var vs := Witnesses(env, fuel, prefix);
    var v := Arr(vs + [x]);
    assert v.a[|prefix|] == x;
    PositionalNodeAccepts(env, fuel, p, prefix + [dropped], i, items, v);
    PositionalNodeAccepts(env, fuel, p, prefix, i, items, v);
    assert Accepts(env, fuel, PositionalNode(p, prefix + [dropped], i, items), v);
    assert !Accepts(env, fuel, PositionalNode(p, prefix, i, items), v);
  }

  // --- contains ------------------------------------------------------------------------------------------------------

  /** `contains: true` added to a node is not reported at all; it keeps every document exactly where the
      node refused the empty array. */
  lemma ContainsTrueExactly(env: Env, fuel: nat, s: map<string, Json>, c: string, at: Pointer)
    requires Recognises(env.kind) && env.kind(c).Contains? && c !in s && "minContains" !in s && "maxContains" !in s
    ensures var was, now := Obj(s), Obj(s[c := Bool(true)]);
            && Compare(env.kind, was, now, at) == []
            && (Keeps(env, env, fuel, was, now) <==> !Accepts(env, fuel, was, Arr([])))
  {
    var was, now := Obj(s), Obj(s[c := Bool(true)]);
    ContainsTrueUnseen(env.kind, s, c, at);
    ContainsTrueNeeds(env, fuel, s, c);
    forall v | Accepts(env, fuel, was, v) && v != Arr([]) ensures Accepts(env, fuel, now, v) {
      ContainsTrueKeeps(env, fuel, s, c, v);
    }
  }

  lemma ContainsTrueUnseen(kind: Reading, s: map<string, Json>, c: string, at: Pointer)
    requires kind(c).Contains? && c !in s
    ensures Compare(kind, Obj(s), Obj(s[c := Bool(true)]), at) == []
  {
    var was, now := Obj(s), Obj(s[c := Bool(true)]);
    OneChange(kind, was, now, c, at);
    AtKeySub(kind, c, was, now, at + [Name(c)]);
  }

  lemma ContainsTrueNeeds(env: Env, fuel: nat, s: map<string, Json>, c: string)
    requires env.kind(c).Contains? && "minContains" !in s && "maxContains" !in s && c != "minContains" &&
             c != "maxContains"
    ensures !Accepts(env, fuel, Obj(s[c := Bool(true)]), Arr([]))
  {
    assert !KeywordOk(env, fuel, Obj(s[c := Bool(true)]), c, Arr([]));
  }

  /** The members a keyword looks at beside its own are what they were. */
  ghost predicate SameBeside(s: map<string, Json>, t: map<string, Json>) {
    && Get(s, "properties") == Get(t, "properties") && Get(s, "prefixItems") == Get(t, "prefixItems")
    && ("then" in s <==> "then" in t) && ("then" in s ==> s["then"] == t["then"])
    && ("else" in s <==> "else" in t) && ("else" in s ==> s["else"] == t["else"])
    && ("minContains" in s <==> "minContains" in t) && ("minContains" in s ==> s["minContains"] == t["minContains"])
    && ("maxContains" in s <==> "maxContains" in t) && ("maxContains" in s ==> s["maxContains"] == t["maxContains"])
  }

  lemma BesideContains(kind: Reading, s: map<string, Json>, c: string, x: Json)
    requires Recognises(kind) && kind(c).Contains?
    ensures SameBeside(s, s[c := x])
  {
    assert c != "properties" && c != "prefixItems" && c != "then" && c != "else" && c != "minContains" &&
      c != "maxContains";
  }

  lemma SameKeyword(env: Env, fuel: nat, s: map<string, Json>, t: map<string, Json>, k: string, v: Json)
    requires SameBeside(s, t) && k in s && k in t && s[k] == t[k] && !env.kind(k).Unevaluated?
    ensures KeywordOk(env, fuel, Obj(s), k, v) <==> KeywordOk(env, fuel, Obj(t), k, v)
  {
  }

  lemma SameKeySees(env: Env, fuel: nat, s: map<string, Json>, t: map<string, Json>, k: string, v: Json, place: Place)
    requires SameBeside(s, t) && k in s && k in t && s[k] == t[k] && Within(v, place)
    ensures KeySees(env, fuel, Obj(s), k, v, place) <==> KeySees(env, fuel, Obj(t), k, v, place)
  {
  }

  /** One more keyword sees no less. */
  lemma MoreSeen(env: Env, fuel: nat, s: map<string, Json>, c: string, x: Json, k: string, v: Json)
    requires SameBeside(s, s[c := x]) && c !in s && k in s && env.kind(k).Unevaluated? &&
             KeywordOk(env, fuel, Obj(s), k, v)
    ensures KeywordOk(env, fuel, Obj(s[c := x]), k, v)
  {
    var t := s[c := x];
    forall place | Within(v, place) && place.ItemAt? == env.kind(k).items
      ensures (exists other | other in t && other != k :: KeySees(env, fuel, Obj(t), other, v, place))
              || Accepts(env, fuel, t[k], Part(v, place))
    {
      if !Accepts(env, fuel, s[k], Part(v, place)) {
        var other :| other in s && other != k && KeySees(env, fuel, Obj(s), other, v, place);
        SameKeySees(env, fuel, s, t, other, v, place);
      }
    }
  }

  lemma ContainsTrueKeeps(env: Env, fuel: nat, s: map<string, Json>, c: string, v: Json)
    requires Recognises(env.kind) && env.kind(c).Contains? && c !in s && "minContains" !in s && "maxContains" !in s
    requires Accepts(env, fuel, Obj(s), v) && v != Arr([])
    ensures Accepts(env, fuel, Obj(s[c := Bool(true)]), v)
  {
    var t := s[c := Bool(true)];
    BesideContains(env.kind, s, c, Bool(true));
    forall k | k in s ensures KeywordOk(env, fuel, Obj(t), k, v) {
      assert KeywordOk(env, fuel, Obj(s), k, v);
      if env.kind(k).Unevaluated? {
        MoreSeen(env, fuel, s, c, Bool(true), k, v);
      } else {
        SameKeyword(env, fuel, s, t, k, v);
      }
    }
    ContainsAny(env, fuel, t, c, v);
  }

  lemma ContainsAny(env: Env, fuel: nat, t: map<string, Json>, c: string, v: Json)
    requires c in t && t[c] == Bool(true) && env.kind(c).Contains? && "minContains" !in t && "maxContains" !in t &&
             v != Arr([])
    ensures KeywordOk(env, fuel, Obj(t), c, v)
  {
    if v.Arr? { assert v.a != [] && Accepts(env, fuel, Bool(true), v.a[0]); }
  }

  // --- what is left unevaluated --------------------------------------------------------------------------------------

  lemma LostEvaluationReported(kind: Reading, a: string, x: Json, u: string, y: Json, at: Pointer)
    requires kind(a).AdditionalProperties? && a != u && (x.Bool? || x.Obj?)
    ensures Compare(kind, Obj(map[a := x, u := y]), Obj(map[u := y]), at)
            == if x == Bool(true) then [] else Compatible(at + [Name(a)], AdmitsMore)
  {
    var was, now := Obj(map[a := x, u := y]), Obj(map[u := y]);
    OneChange(kind, was, now, a, at);
    AtKeySub(kind, a, was, now, at + [Name(a)]);
  }

  lemma LostEvaluationKeeps(env: Env, fuel: nat, a: string, x: Json, u: string, y: Json)
    requires Recognises(env.kind) && a == "additionalProperties" && env.kind(u) == Unevaluated(false)
    ensures Keeps(env, env, fuel, Obj(map[a := x, u := y]), Obj(map[u := y])) <==> Keeps(env, env, fuel, x, y)
  {
    var was, now := Obj(map[a := x, u := y]), Obj(map[u := y]);
    assert env.kind(a).AdditionalProperties? && a != u && "properties" != u;
    if Keeps(env, env, fuel, was, now) {
      forall w | Accepts(env, fuel, x, w) ensures Accepts(env, fuel, y, w) {
        var v := Obj(map["" := w]);
        EvaluatedAccepts(env, fuel, a, x, u, y, v);
        UnevaluatedAccepts(env, fuel, u, y, v);
        assert Accepts(env, fuel, was, v) && "" in v.m && v.m[""] == w;
      }
    }
    if Keeps(env, env, fuel, x, y) {
      forall v | Accepts(env, fuel, was, v) ensures Accepts(env, fuel, now, v) {
        EvaluatedAccepts(env, fuel, a, x, u, y, v);
        UnevaluatedAccepts(env, fuel, u, y, v);
      }
    }
  }

  /** In a node of only these two keywords: `additionalProperties` removed is never called breaking, and
      `true` removed is not reported at all; it keeps every document exactly where what is asked of the
      unevaluated accepts every value that was asked for. */
  lemma LostEvaluationExactly(env: Env, fuel: nat, a: string, x: Json, u: string, y: Json, at: Pointer)
    requires Recognises(env.kind) && a == "additionalProperties" && env.kind(u) == Unevaluated(false) &&
             (x.Bool? || x.Obj?)
    ensures var was, now := Obj(map[a := x, u := y]), Obj(map[u := y]);
            && Compare(env.kind, was, now, at)
              == (if x == Bool(true) then [] else Compatible(at + [Name(a)], AdmitsMore))
            && (Keeps(env, env, fuel, was, now) <==> Keeps(env, env, fuel, x, y))
  {
    assert env.kind(a).AdditionalProperties? && a != u;
    LostEvaluationReported(env.kind, a, x, u, y, at);
    LostEvaluationKeeps(env, fuel, a, x, u, y);
  }

  lemma UnevaluatedAccepts(env: Env, fuel: nat, u: string, y: Json, v: Json)
    requires env.kind(u) == Unevaluated(false)
    ensures Accepts(env, fuel, Obj(map[u := y]), v) <==>
            (v.Obj? ==> forall n | n in v.m :: Accepts(env, fuel, y, v.m[n]))
  {
    AcceptsOne(env, fuel, u, y, v);
    var s := Obj(map[u := y]);
    if KeywordOk(env, fuel, s, u, v) && v.Obj? {
      forall n | n in v.m ensures Accepts(env, fuel, y, v.m[n]) { assert Within(v, NameAt(n)); }
    }
  }

  lemma EvaluatedAccepts(env: Env, fuel: nat, a: string, x: Json, u: string, y: Json, v: Json)
    requires a == "additionalProperties" && env.kind(a).AdditionalProperties? && env.kind(u) == Unevaluated(false) &&
             a != u
    requires "properties" != u
    ensures Accepts(env, fuel, Obj(map[a := x, u := y]), v) <==>
            (v.Obj? ==> forall n | n in v.m :: Accepts(env, fuel, x, v.m[n]))
  {
    var s := Obj(map[a := x, u := y]);
    assert "properties" != a && "properties" !in s.m;
    forall place | Within(v, place) && place.NameAt? ensures KeySees(env, fuel, s, a, v, place) {}
    assert KeywordOk(env, fuel, s, u, v);
    assert KeywordOk(env, fuel, s, a, v) <==> (v.Obj? ==> forall n | n in v.m :: Accepts(env, fuel, x, v.m[n]));
  }
}
