/** JSON values, and Python's equality on them. */
module Json {
  datatype Json =
    | Null
    | Bool(b: bool)
    | Num(n: real)
    | Str(s: string)
    | Arr(a: seq<Json>)
    | Obj(m: map<string, Json>)

  /** A value with every boolean written as the number Python takes it for. */
  function Unboxed(j: Json): Json {
    match j
    case Bool(b) => Num(if b then 1.0 else 0.0)
    case Arr(a) => Arr(seq(|a|, i requires 0 <= i < |a| => Unboxed(a[i])))
    case Obj(m) => Obj(map k | k in m :: Unboxed(m[k]))
    case _ => j
  }

  /** `a == b` in Python: the order of an object's members means nothing, and `True == 1`. */
  predicate PyEq(a: Json, b: Json) { Unboxed(a) == Unboxed(b) }

  lemma PyEqArr(x: seq<Json>, y: seq<Json>)
    ensures PyEq(Arr(x), Arr(y)) <==> |x| == |y| && forall i | 0 <= i < |x| :: PyEq(x[i], y[i])
  {
    var p, q := Unboxed(Arr(x)).a, Unboxed(Arr(y)).a;
    assert |p| == |x| && forall i | 0 <= i < |x| :: p[i] == Unboxed(x[i]);
    assert |q| == |y| && forall i | 0 <= i < |y| :: q[i] == Unboxed(y[i]);
    if |x| == |y| && forall i | 0 <= i < |x| :: PyEq(x[i], y[i]) {
      assert p == q;
    }
  }

  lemma PyEqObj(x: map<string, Json>, y: map<string, Json>)
    ensures PyEq(Obj(x), Obj(y)) <==> x.Keys == y.Keys && forall k | k in x :: k in y && PyEq(x[k], y[k])
  {
    var p, q := Unboxed(Obj(x)).m, Unboxed(Obj(y)).m;
    assert p.Keys == x.Keys && forall k | k in x :: p[k] == Unboxed(x[k]);
    assert q.Keys == y.Keys && forall k | k in y :: q[k] == Unboxed(y[k]);
    if PyEq(Obj(x), Obj(y)) {
      assert p == q;
      assert forall k | k in x :: p[k] == q[k];
    }
    if x.Keys == y.Keys && forall k | k in x :: k in y && PyEq(x[k], y[k]) {
      assert p == q;
    }
  }

  /** Of what is neither a list nor an object, only a boolean equals what is not the same: 1, or 0. */
  lemma PyEqScalar(x: Json, y: Json)
    requires !x.Arr? && !x.Obj?
    ensures PyEq(x, y) <==>
              || x == y
              || (x == Bool(true) && y == Num(1.0)) || (x == Num(1.0) && y == Bool(true))
              || (x == Bool(false) && y == Num(0.0)) || (x == Num(0.0) && y == Bool(false))
  {
  }

  /** `m.get(k)`: an absent member and a member that is null are the same. */
  function Get(m: map<string, Json>, k: string): Json { if k in m then m[k] else Null }

  /** Somewhere a boolean on one side meets a number on the other. */
  predicate Punned(x: Json, y: Json) {
    match (x, y)
    case (Bool(_), Num(_)) => true
    case (Num(_), Bool(_)) => true
    case (Arr(a), Arr(b)) => exists i | 0 <= i < |a| && i < |b| :: Punned(a[i], b[i])
    case (Obj(a), Obj(b)) => exists k | k in a && k in b :: Punned(a[k], b[k])
    case _ => false
  }

  /** Python's equality is equality exactly where no boolean meets a number. */
  lemma {:induction false} PunnedExactly(x: Json, y: Json)
    requires PyEq(x, y)
    ensures x == y <==> !Punned(x, y)
  {
    match (x, y)
    case (Arr(a), Arr(b)) =>
      PyEqArr(a, b);
      forall i | 0 <= i < |a| ensures a[i] == b[i] <==> !Punned(a[i], b[i]) { PunnedExactly(a[i], b[i]); }
    case (Obj(a), Obj(b)) =>
      PyEqObj(a, b);
      forall k | k in a ensures k in b && (a[k] == b[k] <==> !Punned(a[k], b[k])) { PunnedExactly(a[k], b[k]); }
      if !Punned(x, y) { assert a == b; }
    case _ =>
  }
}
