/** The order of a combination means nothing: a rearranged list is reported unchanged. */
module CompatOrder {
  import opened Text
  import opened Json
  import opened Compat

  /** The subschemas of a list as Python compares them, with their multiplicities. */
  function Images(s: seq<(nat, Json)>): multiset<Json> {
    if s == [] then multiset{} else multiset{Unboxed(s[0].1)} + Images(s[1..])
  }

  lemma {:induction false} ImagesWithout(s: seq<(nat, Json)>, i: nat)
    requires i < |s|
    ensures Images(s) == multiset{Unboxed(s[i].1)} + Images(Without(s, i))
  {
    if i == 0 {
      assert Without(s, 0) == s[1..];
    } else {
      ImagesWithout(s[1..], i - 1);
      assert Without(s, i) == [s[0]] + Without(s[1..], i - 1);
      assert Without(s, i)[1..] == Without(s[1..], i - 1);
    }
  }

  lemma {:induction false} ImageOfMember(x: Json, s: seq<(nat, Json)>)
    requires Unboxed(x) in Images(s)
    ensures exists i :: 0 <= i < |s| && PyEq(s[i].1, x)
  {
    if Unboxed(s[0].1) == Unboxed(x) {
      assert PyEq(s[0].1, x);
    } else {
      ImageOfMember(x, s[1..]);
      var i :| 0 <= i < |s[1..]| && PyEq(s[1..][i].1, x);
      assert PyEq(s[i + 1].1, x);
    }
  }

  lemma BothLose(x: Json, a: multiset<Json>, b: multiset<Json>)
    ensures (multiset{x} + a) - (multiset{x} + b) == a - b
  {
  }

  lemma OnlyOneHas(x: Json, a: multiset<Json>, b: multiset<Json>)
    requires x !in b
    ensures (multiset{x} + a) - b == multiset{x} + (a - b)
    ensures b - (multiset{x} + a) == b - a
  {
  }

  /** The removal leaves on each side exactly what the other side lacks. */
  lemma {:induction false} UnmatchedIsDifference(olds: seq<(nat, Json)>, news: seq<(nat, Json)>)
    ensures Images(Unmatched(olds, news).0) == Images(olds) - Images(news)
    ensures Images(Unmatched(olds, news).1) == Images(news) - Images(olds)
  {
    if olds != [] {
      var x := Unboxed(olds[0].1);
      var first := FirstEqual(olds[0].1, news);
      if first.Some? {
        var rest := Without(news, first.value);
        ImagesWithout(news, first.value);
        UnmatchedIsDifference(olds[1..], rest);
        BothLose(x, Images(olds[1..]), Images(rest));
        BothLose(x, Images(rest), Images(olds[1..]));
      } else {
        if x in Images(news) { ImageOfMember(olds[0].1, news); }
        UnmatchedIsDifference(olds[1..], news);
        var rest := Unmatched(olds[1..], news);
        assert ([olds[0]] + rest.0)[1..] == rest.0;
        OnlyOneHas(x, Images(olds[1..]), Images(news));
      }
    }
  }

  lemma SomethingLeft(s: seq<(nat, Json)>)
    requires s != []
    ensures Images(s) != multiset{}
  {
    assert Unboxed(s[0].1) in Images(s);
  }

  /** Two lists rearrange each other exactly when nothing is left on either side. */
  lemma RearrangedIffMatched(olds: seq<(nat, Json)>, news: seq<(nat, Json)>)
    ensures Images(olds) == Images(news) <==> Unmatched(olds, news) == ([], [])
  {
    UnmatchedIsDifference(olds, news);
    var rest := Unmatched(olds, news);
    if Images(olds) == Images(news) {
      if rest.0 != [] { SomethingLeft(rest.0); }
      if rest.1 != [] { SomethingLeft(rest.1); }
    }
    if rest == ([], []) {
      Cancel(Images(olds), Images(news));
    }
  }

  lemma Cancel(a: multiset<Json>, b: multiset<Json>)
    requires a - b == multiset{} && b - a == multiset{}
    ensures a == b
  {
    forall x ensures a[x] == b[x] {
      assert (a - b)[x] == 0 && (b - a)[x] == 0;
    }
  }

  lemma {:induction false} ImagesOfList(s: seq<Json>, p: seq<(nat, Json)>)
    requires |p| == |s| && forall i | 0 <= i < |s| :: p[i].1 == s[i]
    ensures Images(p) == multiset(seq(|s|, i requires 0 <= i < |s| => Unboxed(s[i])))
  {
    var u := seq(|s|, i requires 0 <= i < |s| => Unboxed(s[i]));
    if s != [] {
      ImagesOfList(s[1..], p[1..]);
      assert u[1..] == seq(|s[1..]|, i requires 0 <= i < |s[1..]| => Unboxed(s[1..][i]));
      assert u == [u[0]] + u[1..];
    } else {
      assert u == [];
    }
  }

  /** The two lists hold the same subschemas, in any order and in any equal spelling. */
  predicate Rearranged(before: seq<Json>, after: seq<Json>) {
    multiset(seq(|before|, i requires 0 <= i < |before| => Unboxed(before[i])))
    == multiset(seq(|after|, i requires 0 <= i < |after| => Unboxed(after[i])))
  }

  lemma RearrangedLeavesNothing(before: seq<Json>, after: seq<Json>)
    ensures Rearranged(before, after) <==> Unmatched(Enumerated(before), Enumerated(after)) == ([], [])
  {
    ImagesOfList(before, Enumerated(before));
    ImagesOfList(after, Enumerated(after));
    RearrangedIffMatched(Enumerated(before), Enumerated(after));
  }

  /** A combination whose subschemas stand in another order is not reported. */
  lemma RearrangedIsSilent(kind: Reading, key: string, was: Json, now: Json, here: Pointer)
    requires was.Obj? && now.Obj? && key in was.m && key in now.m && was.m[key].Arr? && now.m[key].Arr?
    requires kind(key).Combined() && Rearranged(was.m[key].a, now.m[key].a)
    ensures Combination(kind, key, was, now, here) == []
  {
    RearrangedLeavesNothing(was.m[key].a, now.m[key].a);
  }
}
