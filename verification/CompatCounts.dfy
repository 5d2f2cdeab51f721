/** Counting keywords, where "at least as wide" does not carry over: `contains` with its counts, and
    `oneOf`. */
module CompatCounts {
  import opened Text
  import opened Json
  import opened Compat
  import opened Schema
  import opened CompatSound
  import opened CompatLimits
  import opened CompatMeaning
  import opened CompatPrecision

  lemma {:induction false} MatchingSome(env: Env, fuel: nat, s: Json, a: seq<Json>)
    ensures Matching(env, fuel, s, a) > 0 <==> exists i :: 0 <= i < |a| && Accepts(env, fuel, s, a[i])
  {
    if a != [] {
      MatchingSome(env, fuel, s, a[1..]);
      if Accepts(env, fuel, s, a[0]) {
        assert 0 < |a|;
      } else {
        if i :| 0 <= i < |a| && Accepts(env, fuel, s, a[i]) {
          assert a[1..][i - 1] == a[i];
        }
        if i :| 0 <= i < |a[1..]| && Accepts(env, fuel, s, a[1..][i]) {
          assert a[i + 1] == a[1..][i];
        }
      }
    }
  }

  // --- minContains -------------------------------------------------------------------------------------------------

  /** `contains`, and how many matches it asks for, where it says. */
  function ContainsNode(c: string, s: Json, m: string, count: Option<Json>): Json {
    if count.Some? then Obj(map[c := s, m := count.value]) else Obj(map[c := s])
  }

  lemma AtLeastAccepts(env: Env, fuel: nat, c: string, s: Json, m: string, count: Option<Json>, v: Json)
    requires Recognises(env.kind) && env.kind(c).Contains? && m == "minContains"
    ensures Accepts(env, fuel, ContainsNode(c, s, m, count), v) <==>
            (v.Arr? ==> if count.Some? then Number(count.value) <= Matching(env, fuel, s, v.a) as real
                        else Matching(env, fuel, s, v.a) > 0)
  {
    var t := ContainsNode(c, s, m, count);
    assert env.kind(m) == Bound(MatchCount, true) && c != m;
    ContainsAtLeast(env, fuel, t, c, v);
    if count.Some? {
      AcceptsTwo(env, fuel, c, s, m, count.value, v);
      assert KeywordOk(env, fuel, t, m, v);
    } else {
      AcceptsOne(env, fuel, c, s, v);
    }
  }

  lemma ContainsAtLeast(env: Env, fuel: nat, t: Json, c: string, v: Json)
    requires t.Obj? && c in t.m && env.kind(c).Contains? && "maxContains" !in t.m
    ensures KeywordOk(env, fuel, t, c, v) <==>
            (v.Arr? ==> if "minContains" in t.m
                        then Number(t.m["minContains"]) <= Matching(env, fuel, t.m[c], v.a) as real
                        else Matching(env, fuel, t.m[c], v.a) > 0)
  {
    if v.Arr? { MatchingSome(env, fuel, t.m[c], v.a); }
  }

  lemma LostMinimumReported(kind: Reading, c: string, s: Json, m: string, n: real, at: Pointer)
    requires kind(m).Bound? && c != m
    ensures Compare(kind, ContainsNode(c, s, m, Some(Num(n))), ContainsNode(c, s, m, None), at)
            == Compatible(at + [Name(m)], BoundRemoved)
  {
    var was, now := ContainsNode(c, s, m, Some(Num(n))), ContainsNode(c, s, m, None);
    OneChange(kind, was, now, m, at);
    AtKeyBound(kind, m, was, now, at + [Name(m)]);
  }

  lemma LostMinimumKeeps(env: Env, fuel: nat, c: string, s: Json, m: string, n: real)
    requires Recognises(env.kind) && env.kind(c).Contains? && m == "minContains"
    ensures Keeps(env, env, fuel, ContainsNode(c, s, m, Some(Num(n))), ContainsNode(c, s, m, None)) <==> n > 0.0
  {
    var was, now := ContainsNode(c, s, m, Some(Num(n))), ContainsNode(c, s, m, None);
    forall v ensures Accepts(env, fuel, was, v) <==> (v.Arr? ==> n <= Matching(env, fuel, s, v.a) as real) {
      AtLeastAccepts(env, fuel, c, s, m, Some(Num(n)), v);
    }
    forall v ensures Accepts(env, fuel, now, v) <==> (v.Arr? ==> Matching(env, fuel, s, v.a) > 0) {
      AtLeastAccepts(env, fuel, c, s, m, None, v);
    }
    if n <= 0.0 {
      assert Accepts(env, fuel, was, Arr([])) && !Accepts(env, fuel, now, Arr([]));
    }
  }

  /** In a node of only these two keywords: `minContains` removed is called compatible; it keeps every
      document exactly when it asked for more than none, since without it one match is asked for. */
  lemma LostMinimumExactly(env: Env, fuel: nat, c: string, s: Json, m: string, n: real, at: Pointer)
    requires Recognises(env.kind) && env.kind(c).Contains? && m == "minContains"
    ensures var was, now := ContainsNode(c, s, m, Some(Num(n))), ContainsNode(c, s, m, None);
            && Compare(env.kind, was, now, at) == Compatible(at + [Name(m)], BoundRemoved)
            && (Keeps(env, env, fuel, was, now) <==> n > 0.0)
  {
    assert env.kind(m) == Bound(MatchCount, true) && c != m;
    LostMinimumReported(env.kind, c, s, m, n, at);
    LostMinimumKeeps(env, fuel, c, s, m, n);
  }

  // --- maxContains -------------------------------------------------------------------------------------------------

  lemma AcceptsTwo(env: Env, fuel: nat, c: string, x: Json, m: string, y: Json, v: Json)
    requires c != m
    ensures var t := Obj(map[c := x, m := y]);
            Accepts(env, fuel, t, v) <==> KeywordOk(env, fuel, t, c, v) && KeywordOk(env, fuel, t, m, v)
  {
  }

  lemma ContainsAtMost(env: Env, fuel: nat, t: Json, c: string, v: Json)
    requires t.Obj? && c in t.m && env.kind(c).Contains? && "minContains" !in t.m && "maxContains" in t.m
    ensures KeywordOk(env, fuel, t, c, v) <==>
            (v.Arr? ==> Matching(env, fuel, t.m[c], v.a) > 0
                        && Matching(env, fuel, t.m[c], v.a) as real <= Number(t.m["maxContains"]))
  {
    if v.Arr? { MatchingSome(env, fuel, t.m[c], v.a); }
  }

  lemma AtMostAccepts(env: Env, fuel: nat, c: string, s: Json, m: string, n: nat, v: Json)
    requires Recognises(env.kind) && env.kind(c).Contains? && m == "maxContains"
    ensures Accepts(env, fuel, ContainsNode(c, s, m, Some(Num(n as real))), v) <==>
            (v.Arr? ==> 0 < Matching(env, fuel, s, v.a) <= n)
  {
    var t := ContainsNode(c, s, m, Some(Num(n as real)));
    assert env.kind(m) == Bound(MatchCount, false) && c != m;
    AcceptsTwo(env, fuel, c, s, m, Num(n as real), v);
    ContainsAtMost(env, fuel, t, c, v);
    assert KeywordOk(env, fuel, t, m, v);
  }

  function Copies(x: Json, n: nat): seq<Json> { if n == 0 then [] else [x] + Copies(x, n - 1) }

  lemma {:induction false} MatchingCopies(env: Env, fuel: nat, s: Json, x: Json, n: nat)
    ensures Matching(env, fuel, s, Copies(x, n)) == if Accepts(env, fuel, s, x) then n else 0
  {
    if n > 0 {
      assert Copies(x, n)[1..] == Copies(x, n - 1);
      MatchingCopies(env, fuel, s, x, n - 1);
    }
  }

  lemma MatchingOneMore(env: Env, fuel: nat, s: Json, x: Json, y: Json, n: nat)
    ensures Matching(env, fuel, s, [x] + Copies(y, n))
            == (if Accepts(env, fuel, s, x) then 1 else 0) + (if Accepts(env, fuel, s, y) then n else 0)
  {
    assert ([x] + Copies(y, n))[1..] == Copies(y, n);
    MatchingCopies(env, fuel, s, y, n);
  }

  lemma {:induction false} MatchingSame(env: Env, fuel: nat, s: Json, t: Json, a: seq<Json>)
    requires forall x :: Accepts(env, fuel, s, x) <==> Accepts(env, fuel, t, x)
    ensures Matching(env, fuel, s, a) == Matching(env, fuel, t, a)
  {
    if a != [] { MatchingSame(env, fuel, s, t, a[1..]); }
  }

  lemma CountedAlike(env: Env, fuel: nat, c: string, s: Json, t: Json, m: string, n: nat, v: Json)
    requires Recognises(env.kind) && env.kind(c).Contains? && m == "maxContains"
    requires forall x :: Accepts(env, fuel, s, x) <==> Accepts(env, fuel, t, x)
    requires Accepts(env, fuel, ContainsNode(c, s, m, Some(Num(n as real))), v)
    ensures Accepts(env, fuel, ContainsNode(c, t, m, Some(Num(n as real))), v)
  {
    AtMostAccepts(env, fuel, c, s, m, n, v);
    AtMostAccepts(env, fuel, c, t, m, n, v);
    if v.Arr? { MatchingSame(env, fuel, s, t, v.a); }
  }

  lemma CrowdedOut(env: Env, fuel: nat, c: string, s: Json, t: Json, m: string, n: nat, x: Json, y: Json)
    requires Recognises(env.kind) && env.kind(c).Contains? && m == "maxContains" && n > 0
    requires Accepts(env, fuel, s, x) && Accepts(env, fuel, t, x) && Accepts(env, fuel, t, y) &&
             !Accepts(env, fuel, s, y)
    ensures !Keeps(env, env, fuel, ContainsNode(c, s, m, Some(Num(n as real))),
            ContainsNode(c, t, m, Some(Num(n as real))))
  {
    var v := Arr([x] + Copies(y, n));
    MatchingOneMore(env, fuel, s, x, y, n);
    MatchingOneMore(env, fuel, t, x, y, n);
    AtMostAccepts(env, fuel, c, s, m, n, v);
    AtMostAccepts(env, fuel, c, t, m, n, v);
    assert Accepts(env, fuel, ContainsNode(c, s, m, Some(Num(n as real))), v);
  }

  lemma WidenedUnderMaximumReported(kind: Reading, c: string, s: Json, t: Json, m: string, n: nat, at: Pointer)
    requires kind(c).Contains? && c != m && !s.Null? && !t.Null?
    ensures Compare(kind, ContainsNode(c, s, m, Some(Num(n as real))), ContainsNode(c, t, m, Some(Num(n as real))), at)
            == Compare(kind, s, t, at + [Name(c)])
  {
    var was, now := ContainsNode(c, s, m, Some(Num(n as real))), ContainsNode(c, t, m, Some(Num(n as real)));
    if PyEq(s, t) {
      PyEqObj(was.m, now.m);
    } else {
      OneChange(kind, was, now, c, at);
      AtKeySub(kind, c, was, now, at + [Name(c)]);
    }
  }

  lemma WidenedUnderMaximumKeeps(env: Env, fuel: nat, c: string, s: Json, t: Json, m: string, n: nat)
    requires Recognises(env.kind) && env.kind(c).Contains? && m == "maxContains" && n > 0
    requires Satisfiable(env, fuel, s) && Keeps(env, env, fuel, s, t)
    ensures Keeps(env, env, fuel, ContainsNode(c, s, m, Some(Num(n as real))),
            ContainsNode(c, t, m, Some(Num(n as real))))
            <==> Keeps(env, env, fuel, t, s)
  {
    var was, now := ContainsNode(c, s, m, Some(Num(n as real))), ContainsNode(c, t, m, Some(Num(n as real)));
    if Keeps(env, env, fuel, t, s) {
      forall v | Accepts(env, fuel, was, v)
        ensures Accepts(env, fuel, now, v)
      {
        CountedAlike(env, fuel, c, s, t, m, n, v);
      }
    } else {
      var x :| Accepts(env, fuel, s, x);
      var y :| Accepts(env, fuel, t, y) && !Accepts(env, fuel, s, y);
      CrowdedOut(env, fuel, c, s, t, m, n, x, y);
    }
  }

  /** In a node of only these two keywords: `contains` widened under a `maxContains` of one or more is
      reported as the widening by itself is; it keeps every document exactly when it was not widened at
      all, since an array with one old match and as many new ones is lost. */
  lemma WidenedUnderMaximumExactly(env: Env, fuel: nat, c: string, s: Json, t: Json, m: string, n: nat, at: Pointer)
    requires Recognises(env.kind) && env.kind(c).Contains? && m == "maxContains" && n > 0 && !s.Null? && !t.Null?
    requires Satisfiable(env, fuel, s) && Keeps(env, env, fuel, s, t)
    ensures var was, now := ContainsNode(c, s, m, Some(Num(n as real))), ContainsNode(c, t, m, Some(Num(n as real)));
            && Compare(env.kind, was, now, at) == Compare(env.kind, s, t, at + [Name(c)])
            && (Keeps(env, env, fuel, was, now) <==> Keeps(env, env, fuel, t, s))
  {
    assert env.kind(m) == Bound(MatchCount, false) && c != m;
    WidenedUnderMaximumReported(env.kind, c, s, t, m, n, at);
    WidenedUnderMaximumKeeps(env, fuel, c, s, t, m, n);
  }

  // --- oneOf --------------------------------------------------------------------------------------------------------

  lemma OneOfAccepts(env: Env, fuel: nat, k: string, branches: seq<Json>, v: Json)
    requires env.kind(k).OneOf?
    ensures Accepts(env, fuel, Obj(map[k := Arr(branches)]), v) <==> AcceptedOnce(env, fuel, branches, v)
  {
    AcceptsOne(env, fuel, k, Arr(branches), v);
    var s := Obj(map[k := Arr(branches)]);
    assert s.m[k].a == branches;
    OneOfOk(env, fuel, s, k, v);
  }

  lemma TwiceIsNotOnce(env: Env, fuel: nat, branches: seq<Json>, i: nat, j: nat, v: Json)
    requires i < |branches| && j < |branches| && i != j
    requires Accepts(env, fuel, branches[i], v) && Accepts(env, fuel, branches[j], v)
    ensures !AcceptedOnce(env, fuel, branches, v)
  {
    forall k: nat | k < |branches| ensures !OnlyOne(env, fuel, branches, k, v) {
      if k == i { assert j != k; } else { assert i != k; }
    }
  }

  lemma OnceMore(env: Env, fuel: nat, branches: seq<Json>, gained: Json, v: Json)
    requires AcceptedOnce(env, fuel, branches, v)
    ensures AcceptedOnce(env, fuel, branches + [gained], v) <==> !Accepts(env, fuel, gained, v)
  {
    var i :| 0 <= i < |branches| && Accepts(env, fuel, branches[i], v) && OnlyOne(env, fuel, branches, i, v);
    var more := branches + [gained];
    assert more[i] == branches[i] && more[|branches|] == gained;
    if Accepts(env, fuel, gained, v) { TwiceIsNotOnce(env, fuel, more, i, |branches|, v); }
    if !Accepts(env, fuel, gained, v) {
      forall j | 0 <= j < |more| && j != i ensures !Accepts(env, fuel, more[j], v) {
        if j < |branches| { assert !Accepts(env, fuel, branches[j], v); }
      }
      assert OnlyOne(env, fuel, more, i, v);
    }
  }

  lemma AtKeyCombined(kind: Reading, k: string, was: Json, now: Json, here: Pointer)
    requires was.Obj? && now.Obj? && kind(k).OneOf? && !Get(was.m, k).Null? && !Get(now.m, k).Null?
    ensures var rest := Unmatched(Enumerated(Subschemas(Get(was.m, k))), Enumerated(Subschemas(Get(now.m, k))));
            AtKey(kind, k, was, now, here) == Paired(kind, k, was, now, rest.0, rest.1, here)
  {
  }

  /** Where every old branch stands first among the equal new ones left, what follows them is left. */
  lemma {:induction false} UnmatchedPrefix(olds: seq<(nat, Json)>, rest: seq<(nat, Json)>)
    ensures Unmatched(olds, olds + rest) == ([], rest)
  {
    if olds == [] {
      assert [] + rest == rest;
    } else {
      assert (olds + rest)[0] == olds[0];
      assert Without(olds + rest, 0) == olds[1..] + rest;
      UnmatchedPrefix(olds[1..], rest);
    }
  }

  lemma GainedBranchReported(kind: Reading, k: string, branches: seq<Json>, gained: Json, at: Pointer)
    requires kind(k).OneOf?
    ensures Compare(kind, Obj(map[k := Arr(branches)]), Obj(map[k := Arr(branches + [gained])]), at)
            == Compatible(at + [Name(k)] + [Index(|branches|)], GainedSubschema)
  {
    var was, now := Obj(map[k := Arr(branches)]), Obj(map[k := Arr(branches + [gained])]);
    var here := at + [Name(k)];
    PyEqArr(branches, branches + [gained]);
    OneKeyChange(kind, k, Arr(branches), Arr(branches + [gained]), at);
    AtKeyCombined(kind, k, was, now, here);
    assert Enumerated(branches + [gained]) == Enumerated(branches) + [(|branches|, gained)];
    UnmatchedPrefix(Enumerated(branches), [(|branches|, gained)]);
    var last := [(|branches| as nat, gained)];
    assert last[1..] == [];
    assert Paired(kind, k, was, now, [], last[1..], here) == [];
    assert Paired(kind, k, was, now, [], last, here) == [Finding(here + [Index(|branches|)], false, GainedSubschema)]
      + [];
  }

  lemma GainedBranchKeeps(env: Env, fuel: nat, k: string, branches: seq<Json>, gained: Json)
    requires env.kind(k).OneOf?
    ensures Keeps(env, env, fuel, Obj(map[k := Arr(branches)]), Obj(map[k := Arr(branches + [gained])]))
            <==> forall v :: AcceptedOnce(env, fuel, branches, v) ==> !Accepts(env, fuel, gained, v)
  {
    var was, now := Obj(map[k := Arr(branches)]), Obj(map[k := Arr(branches + [gained])]);
    forall v ensures Accepts(env, fuel, was, v) <==> AcceptedOnce(env, fuel, branches, v) {
      OneOfAccepts(env, fuel, k, branches, v);
    }
    forall v | AcceptedOnce(env, fuel, branches, v)
      ensures Accepts(env, fuel, now, v) <==> !Accepts(env, fuel, gained, v)
    {
      OneOfAccepts(env, fuel, k, branches + [gained], v);
      OnceMore(env, fuel, branches, gained, v);
    }
  }

  /** In a node of only this keyword: a branch gained by `oneOf` is called compatible; it keeps every
      document exactly when it accepts none that the branches before it accepted once. */
  lemma GainedBranchExactly(env: Env, fuel: nat, k: string, branches: seq<Json>, gained: Json, at: Pointer)
    requires env.kind(k).OneOf?
    ensures var was, now := Obj(map[k := Arr(branches)]), Obj(map[k := Arr(branches + [gained])]);
            && Compare(env.kind, was, now, at) == Compatible(at + [Name(k)] + [Index(|branches|)], GainedSubschema)
            && (Keeps(env, env, fuel, was, now) <==>
                  forall v :: AcceptedOnce(env, fuel, branches, v) ==> !Accepts(env, fuel, gained, v))
  {
    GainedBranchReported(env.kind, k, branches, gained, at);
    GainedBranchKeeps(env, fuel, k, branches, gained);
  }

  // --- a branch widened in place ------------------------------------------------------------------------------------

  /** No other branch is equal to the branch or to what it becomes. */
  predicate Alone(branches: seq<Json>, i: nat, wider: Json)
    requires i < |branches|
  {
    forall j | 0 <= j < |branches| && j != i :: !PyEq(branches[j], branches[i]) && !PyEq(branches[j], wider)
  }

  lemma {:induction false} FirstIs(x: Json, news: seq<(nat, Json)>)
    requires news != [] && PyEq(news[0].1, x)
    ensures FirstEqual(x, news) == Some(0)
  {
  }

  lemma {:induction false} NoneEqual(x: Json, news: seq<(nat, Json)>)
    requires forall p | p in news :: !PyEq(p.1, x)
    ensures FirstEqual(x, news).None?
  {
    if news != [] { NoneEqual(x, news[1..]); }
  }

  /** One branch that stands alone on both sides is what is left. */
  lemma {:induction false} UnmatchedBeside(before: seq<(nat, Json)>, o: (nat, Json), n: (nat, Json),
          after: seq<(nat, Json)>)
    requires forall p | p in before + after :: !PyEq(p.1, o.1) && !PyEq(p.1, n.1) && !PyEq(o.1, p.1) && !PyEq(n.1, p.1)
    requires !PyEq(n.1, o.1)
    ensures Unmatched(before + [o] + after, before + [n] + after) == ([o], [n])
    decreases |before|
  {
    var olds, news := before + [o] + after, before + [n] + after;
    if before == [] {
      assert olds[0] == o && olds[1..] == after && news == [n] + after;
      forall p: (nat, Json) | p in news ensures !PyEq(p.1, o.1) {
        if p != n { assert p in before + after; }
      }
      NoneEqual(o.1, news);
      forall p: (nat, Json) | p in after ensures !PyEq(n.1, p.1) { assert p in before + after; }
      LeavesHead(after, n);
      var none: seq<(nat, Json)> := [];
      assert [o] + none == [o];
      assert Unmatched(olds, news) == ([o] + none, [n]);
    } else {
      assert olds[0] == before[0] && news[0] == before[0];
      FirstIs(before[0].1, news);
      assert olds[1..] == before[1..] + [o] + after && Without(news, 0) == before[1..] + [n] + after;
      forall p: (nat, Json) | p in before[1..] + after ensures p in before + after {}
      UnmatchedBeside(before[1..], o, n, after);
    }
  }

  /** A new branch equal to none stays at the head. */
  lemma {:induction false} LeavesHead(olds: seq<(nat, Json)>, n: (nat, Json))
    requires forall p | p in olds :: !PyEq(n.1, p.1)
    ensures Unmatched(olds, [n] + olds) == ([], [n])
  {
    if olds == [] {
      assert [n] + [] == [n];
    } else {
      var news := [n] + olds;
      assert news[1] == olds[0] && !PyEq(n.1, olds[0].1);
      assert news[1..] == olds;
      FirstIs(olds[0].1, olds);
      assert FirstEqual(olds[0].1, news) == Some(1);
      assert Without(news, 1) == [n] + olds[1..];
      forall p: (nat, Json) | p in olds[1..] ensures p in olds {}
      LeavesHead(olds[1..], n);
    }
  }

  lemma LeftAlone(branches: seq<Json>, i: nat, wider: Json)
    requires i < |branches| && Alone(branches, i, wider) && !PyEq(branches[i], wider)
    ensures Unmatched(Enumerated(branches), Enumerated(branches[i := wider])) == ([(i, branches[i])], [(i, wider)])
  {
    var olds, news := Enumerated(branches), Enumerated(branches[i := wider]);
    var before, after := olds[..i], olds[i + 1..];
    assert olds == before + [(i, branches[i])] + after;
    assert news == before + [(i, wider)] + after;
    forall p: (nat, Json) | p in before + after
      ensures !PyEq(p.1, branches[i]) && !PyEq(p.1, wider) && !PyEq(branches[i], p.1) && !PyEq(wider, p.1)
    {
      assert p.0 < |branches| && p.1 == branches[p.0] && p.0 != i;
    }
    UnmatchedBeside(before, (i, branches[i]), (i, wider), after);
  }

  lemma WidenedBranchReported(kind: Reading, k: string, branches: seq<Json>, i: nat, wider: Json, at: Pointer)
    requires kind(k).OneOf? && i < |branches| && Alone(branches, i, wider) && !PyEq(branches[i], wider)
    ensures Compare(kind, Obj(map[k := Arr(branches)]), Obj(map[k := Arr(branches[i := wider])]), at)
            == Compare(kind, branches[i], wider, at + [Name(k)] + [Index(i)])
  {
    var was, now := Obj(map[k := Arr(branches)]), Obj(map[k := Arr(branches[i := wider])]);
    var here := at + [Name(k)];
    PyEqArr(branches, branches[i := wider]);
    OneKeyChange(kind, k, Arr(branches), Arr(branches[i := wider]), at);
    AtKeyCombined(kind, k, was, now, here);
    LeftAlone(branches, i, wider);
    var olds: seq<(nat, Json)>, news: seq<(nat, Json)> := [(i, branches[i])], [(i, wider)];
    assert olds[1..] == [] && news[1..] == [];
    assert branches[i] in Subschemas(Get(was.m, k));
    assert Paired(kind, k, was, now, [], [], here) == [];
    assert Paired(kind, k, was, now, olds, news, here) == Compare(kind, branches[i], wider, here + [Index(i)]) + [];
  }

  lemma WidenedBranchOnce(env: Env, fuel: nat, branches: seq<Json>, i: nat, wider: Json, v: Json)
    requires i < |branches| && Keeps(env, env, fuel, branches[i], wider) && AcceptedOnce(env, fuel, branches, v)
    ensures AcceptedOnce(env, fuel, branches[i := wider], v) <==>
            (Accepts(env, fuel, wider, v) ==> Accepts(env, fuel, branches[i], v))
  {
    var now := branches[i := wider];
    var j :| 0 <= j < |branches| && Accepts(env, fuel, branches[j], v) && OnlyOne(env, fuel, branches, j, v);
    assert forall m | 0 <= m < |branches| && m != i :: now[m] == branches[m];
    if j == i || !Accepts(env, fuel, wider, v) {
      forall m | 0 <= m < |now| && m != j ensures !Accepts(env, fuel, now[m], v) {}
      assert Accepts(env, fuel, now[j], v) && OnlyOne(env, fuel, now, j, v);
    } else {
      assert !Accepts(env, fuel, branches[i], v);
      TwiceIsNotOnce(env, fuel, now, i, j, v);
    }
  }

  /** What the branch now accepts, accepted once before, it accepted itself. */
  ghost predicate TakesNothingOfOthers(env: Env, fuel: nat, branches: seq<Json>, i: nat, wider: Json)
    requires i < |branches|
  {
    forall v :: AcceptedOnce(env, fuel, branches, v) && Accepts(env, fuel, wider, v) ==>
      Accepts(env, fuel, branches[i], v)
  }

  /** In a node of only this keyword: a branch of `oneOf` widened in place, alone in its kind, is reported
      as the widening by itself is; it keeps every document exactly when the wider branch accepts none
      that another branch accepted alone. */
  lemma WidenedBranchExactly(env: Env, fuel: nat, k: string, branches: seq<Json>, i: nat, wider: Json, at: Pointer)
    requires env.kind(k).OneOf? && i < |branches| && Alone(branches, i, wider) && !PyEq(branches[i], wider)
    requires Keeps(env, env, fuel, branches[i], wider)
    ensures var was, now := Obj(map[k := Arr(branches)]), Obj(map[k := Arr(branches[i := wider])]);
            && Compare(env.kind, was, now, at) == Compare(env.kind, branches[i], wider, at + [Name(k)] + [Index(i)])
            && (Keeps(env, env, fuel, was, now) <==> TakesNothingOfOthers(env, fuel, branches, i, wider))
  {
    WidenedBranchReported(env.kind, k, branches, i, wider, at);
    var was, now := Obj(map[k := Arr(branches)]), Obj(map[k := Arr(branches[i := wider])]);
    forall v ensures Accepts(env, fuel, was, v) <==> AcceptedOnce(env, fuel, branches, v) {
      OneOfAccepts(env, fuel, k, branches, v);
    }
    forall v | AcceptedOnce(env, fuel, branches, v)
      ensures Accepts(env, fuel, now, v) <==> (Accepts(env, fuel, wider, v) ==> Accepts(env, fuel, branches[i], v))
    {
      OneOfAccepts(env, fuel, k, branches[i := wider], v);
      WidenedBranchOnce(env, fuel, branches, i, wider, v);
    }
  }

  lemma BoundsDiffer(k: string, j: string, m: real, n: real)
    requires k != j || m != n
    ensures !PyEq(Bounded(k, m), Bounded(j, n))
  {
    PyEqObj(Bounded(k, m).m, Bounded(j, n).m);
    if k == j {
      assert !PyEq(Num(m), Num(n)) && Bounded(k, m).m[k] == Num(m) && Bounded(j, n).m[k] == Num(n);
    } else {
      assert k in Bounded(k, m).m && k !in Bounded(j, n).m;
    }
  }

  /** At most `x`, or at least `y`. */
  function Sides(top: string, x: real, bottom: string, y: real): seq<Json> { [Bounded(top, x), Bounded(bottom, y)] }

  lemma SidesReported(kind: Reading, k: string, top: string, bottom: string, at: Pointer)
    requires kind(k).OneOf? && kind(top).Bound? && !kind(top).lower && top != bottom
    ensures Compare(kind, Obj(map[k := Arr(Sides(top, 5.0, bottom, 6.0))]),
            Obj(map[k := Arr(Sides(top, 7.0, bottom, 6.0))]), at)
            == Compatible(at + [Name(k)] + [Index(0)] + [Name(top)], BoundLoosened)
  {
    var branches, wider := Sides(top, 5.0, bottom, 6.0), Bounded(top, 7.0);
    assert branches[0 := wider] == Sides(top, 7.0, bottom, 6.0);
    BoundsDiffer(bottom, top, 6.0, 5.0);
    BoundsDiffer(bottom, top, 6.0, 7.0);
    BoundsDiffer(top, top, 5.0, 7.0);
    WidenedBranchReported(kind, k, branches, 0, wider, at);
    BoundReported(kind, top, 5.0, 7.0, at + [Name(k)] + [Index(0)]);
  }

  lemma SidesAccept(env: Env, fuel: nat, k: string, top: string, x: real, bottom: string, y: real, n: real)
    requires env.kind(k).OneOf? && env.kind(top) == Bound(Value, false) && env.kind(bottom) == Bound(Value, true)
    ensures Accepts(env, fuel, Obj(map[k := Arr(Sides(top, x, bottom, y))]), Num(n)) <==> (n <= x) != (y <= n)
  {
    OneOfAccepts(env, fuel, k, Sides(top, x, bottom, y), Num(n));
    BoundAccepts(env, fuel, top, x, Num(n));
    BoundAccepts(env, fuel, bottom, y, Num(n));
    OnceOfTwo(env, fuel, Bounded(top, x), Bounded(bottom, y), Num(n));
  }

  lemma OnceOfTwo(env: Env, fuel: nat, x: Json, y: Json, v: Json)
    ensures AcceptedOnce(env, fuel, [x, y], v) <==> Accepts(env, fuel, x, v) != Accepts(env, fuel, y, v)
  {
    var both := [x, y];
    if Accepts(env, fuel, x, v) && Accepts(env, fuel, y, v) {
      TwiceIsNotOnce(env, fuel, both, 0, 1, v);
    } else if Accepts(env, fuel, x, v) {
      assert Accepts(env, fuel, both[0], v) && OnlyOne(env, fuel, both, 0, v);
    } else if Accepts(env, fuel, y, v) {
      assert Accepts(env, fuel, both[1], v) && OnlyOne(env, fuel, both, 1, v);
    }
  }

  /** Either at most 5 or at least 6; then either at most 7 or at least 6: only a loosened bound is
      reported, and 6.5 is lost. */
  lemma WidenedBranchLoses(env: Env, fuel: nat, k: string, top: string, bottom: string, at: Pointer)
    requires env.kind(k).OneOf? && env.kind(top) == Bound(Value, false) && env.kind(bottom) == Bound(Value, true)
    ensures var was := Obj(map[k := Arr(Sides(top, 5.0, bottom, 6.0))]);
            var now := Obj(map[k := Arr(Sides(top, 7.0, bottom, 6.0))]);
            && Compare(env.kind, was, now, at) == Compatible(at + [Name(k)] + [Index(0)] + [Name(top)], BoundLoosened)
            && Accepts(env, fuel, was, Num(6.5)) && !Accepts(env, fuel, now, Num(6.5))
  {
    SidesReported(env.kind, k, top, bottom, at);
    SidesAccept(env, fuel, k, top, 5.0, bottom, 6.0, 6.5);
    SidesAccept(env, fuel, k, top, 7.0, bottom, 6.0, 6.5);
  }
}
