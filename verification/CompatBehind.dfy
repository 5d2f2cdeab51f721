/** References to a changed file from where being wider does not carry over: `oneOf`, a counted `contains`,
    and a node that speaks of what it leaves unevaluated. */
module CompatBehind {
  import opened Text
  import opened Json
  import opened Compat
  import opened Schema
  import opened CompatMeaning
  import opened CompatSound
  import opened CompatLimits
  import opened CompatCounts
  import opened CompatFiles

  /** What the file referred to accepted and accepts. */
  ghost predicate Was(a: Env, g: string, fuel: nat, v: Json)
    requires g in a.files
  {
    Accepts(StandingIn(a, g), fuel, a.files[g], v)
  }

  lemma ReferenceIs(env: Env, fuel: nat, r: string, ref: string, g: string, v: Json)
    requires env.kind(r).Reference? && env.target(env.at, ref) == Target(g, []) && g in env.files
    ensures Accepts(env, fuel + 1, ReferenceTo(r, ref), v) <==> Was(env, g, fuel, v)
  {
    ReferenceAccepts(env, fuel, r, ref, v);
  }

  /** It accepts just what it accepted. */
  ghost predicate JustThese(a: Env, b: Env, g: string, fuel: nat)
    requires g in a.files && g in b.files
  {
    forall v :: Was(a, g, fuel, v) <==> Was(b, g, fuel, v)
  }

  // --- oneOf --------------------------------------------------------------------------------------------------------

  /** All branches but one are without references. */
  predicate OneRefers(env: Env, branches: seq<Json>, i: nat, r: string, ref: string) {
    && i < |branches| && branches[i] == ReferenceTo(r, ref)
    && forall j | 0 <= j < |branches| && j != i :: Targets(env, branches[j]) == {}
  }

  /** Exactly one branch accepts: this one and no other, or another and not this one. */
  lemma OnceWith(env: Env, fuel: nat, branches: seq<Json>, i: nat, v: Json)
    requires i < |branches|
    ensures Accepts(env, fuel, branches[i], v) ==>
              (AcceptedOnce(env, fuel, branches, v) <==> OnlyOne(env, fuel, branches, i, v))
  {
    if Accepts(env, fuel, branches[i], v) && AcceptedOnce(env, fuel, branches, v) {
      var j :| 0 <= j < |branches| && Accepts(env, fuel, branches[j], v) && OnlyOne(env, fuel, branches, j, v);
      assert j == i;
    }
  }

  /** What the file accepted alone it still accepts, and what another branch accepted alone it still refuses. */
  ghost predicate StillAlone(a: Env, b: Env, g: string, fuel: nat, more: nat, branches: seq<Json>, i: nat)
    requires g in a.files && g in b.files
  {
    forall v ::
      && (Was(a, g, fuel, v) && OnlyOne(a, more, branches, i, v) ==> Was(b, g, fuel, v))
      && (!Was(a, g, fuel, v) && AcceptedOnce(a, more, branches, v) ==> !Was(b, g, fuel, v))
  }

  lemma OnceMoved(a: Env, b: Env, more: nat, branches: seq<Json>, i: nat, v: Json)
    requires SameReading(a, b) && i < |branches| && AcceptedOnce(a, more, branches, v)
    requires forall j | 0 <= j < |branches| && j != i :: Targets(a, branches[j]) == {}
    ensures var was, now := Accepts(a, more, branches[i], v), Accepts(b, more, branches[i], v);
            AcceptedOnce(b, more, branches, v) <==> was == now
  {
    forall j | 0 <= j < |branches| && j != i
      ensures Accepts(a, more, branches[j], v) <==> Accepts(b, more, branches[j], v)
    {
      AlternativeAccepts(a, b, more, branches[j], v);
    }
    var j :| 0 <= j < |branches| && Accepts(a, more, branches[j], v) && OnlyOne(a, more, branches, j, v);
    if Accepts(b, more, branches[i], v) {
      OnceWith(b, more, branches, i, v);
      if j == i { assert OnlyOne(b, more, branches, i, v); }
    } else if j != i {
      assert OnlyOne(b, more, branches, j, v);
    }
  }

  /** A file of an unchanged `oneOf` with one reference adds nothing to the report of the file referred to. It
      keeps every document exactly where what that file accepted alone it still accepts, and what another
      branch accepted alone it still refuses. */
  lemma OneOfThroughReferenceExactly(a: Env, b: Env, parts: string -> Parts, fuel: nat, k: string, branches: seq<Json>,
          i: nat, r: string, ref: string, g: string, y: Json)
    requires OneReplaced(a, b, g, y) && a.kind(k).OneOf? && a.kind(r).Reference? && OneRefers(a, branches, i, r, ref)
    requires a.target(a.at, ref) == Target(g, []) && a.files[a.at] == Obj(map[k := Arr(branches)])
    ensures Changes(a.kind, parts, a.files, b.files) == Compare(a.kind, a.files[g], y, [Name(g)])
    ensures Keeps(a, b, fuel + 1, a.files[a.at], b.files[b.at]) <==> StillAlone(a, b, g, fuel, fuel + 1, branches, i)
  {
    OneReported(a, b, parts, g, y);
    OneOfKeeps(a, b, fuel, k, branches, i, r, ref, g);
  }

  lemma OneOfKeeps(a: Env, b: Env, fuel: nat, k: string, branches: seq<Json>, i: nat, r: string, ref: string, g: string)
    requires SameReading(a, b) && a.kind(k).OneOf? && a.kind(r).Reference? && OneRefers(a, branches, i, r, ref)
    requires a.target(a.at, ref) == Target(g, []) && g in a.files && g in b.files
    ensures var s := Obj(map[k := Arr(branches)]);
            Keeps(a, b, fuel + 1, s, s) <==> StillAlone(a, b, g, fuel, fuel + 1, branches, i)
  {
    var more: nat, s := fuel + 1, Obj(map[k := Arr(branches)]);
    forall v
      ensures Accepts(a, more, s, v) <==> AcceptedOnce(a, more, branches, v)
      ensures Accepts(b, more, s, v) <==> AcceptedOnce(b, more, branches, v)
      ensures AcceptedOnce(a, more, branches, v) ==>
                (AcceptedOnce(b, more, branches, v) <==> Was(a, g, fuel, v) == Was(b, g, fuel, v))
      ensures Was(a, g, fuel, v) ==> (AcceptedOnce(a, more, branches, v) <==> OnlyOne(a, more, branches, i, v))
    {
      OneOfAccepts(a, more, k, branches, v);
      OneOfAccepts(b, more, k, branches, v);
      ReferenceIs(a, fuel, r, ref, g, v);
      ReferenceIs(b, fuel, r, ref, g, v);
      OnceWith(a, more, branches, i, v);
      if AcceptedOnce(a, more, branches, v) { OnceMoved(a, b, more, branches, i, v); }
    }
  }

  // --- contains, counted --------------------------------------------------------------------------------------------

  ghost predicate SameFor(a: Env, b: Env, fuel: nat, s: Json) {
    forall v :: Accepts(a, fuel, s, v) <==> Accepts(b, fuel, s, v)
  }

  lemma {:induction false} MatchingBoth(a: Env, b: Env, fuel: nat, s: Json, items: seq<Json>)
    requires SameFor(a, b, fuel, s)
    ensures Matching(a, fuel, s, items) == Matching(b, fuel, s, items)
  {
    if items != [] {
      assert Accepts(a, fuel, s, items[0]) <==> Accepts(b, fuel, s, items[0]);
      MatchingBoth(a, b, fuel, s, items[1..]);
    }
  }

  lemma SameCounted(a: Env, b: Env, fuel: nat, c: string, s: Json, m: string, n: nat, v: Json)
    requires SameReading(a, b) && Recognises(a.kind) && a.kind(c).Contains? && m == "maxContains"
    requires SameFor(a, b, fuel, s) && Accepts(a, fuel, ContainsNode(c, s, m, Some(Num(n as real))), v)
    ensures Accepts(b, fuel, ContainsNode(c, s, m, Some(Num(n as real))), v)
  {
    AtMostAccepts(a, fuel, c, s, m, n, v);
    AtMostAccepts(b, fuel, c, s, m, n, v);
    if v.Arr? { MatchingBoth(a, b, fuel, s, v.a); }
  }

  lemma AtMostKeeps(a: Env, b: Env, fuel: nat, c: string, s: Json, m: string, n: nat)
    requires SameReading(a, b) && Recognises(a.kind) && a.kind(c).Contains? && m == "maxContains" && n > 0
    requires Satisfiable(a, fuel, s)
    ensures Keeps(a, b, fuel, ContainsNode(c, s, m, Some(Num(n as real))), ContainsNode(c, s, m, Some(Num(n as real))))
            <==> SameFor(a, b, fuel, s)
  {
    var node := ContainsNode(c, s, m, Some(Num(n as real)));
    if SameFor(a, b, fuel, s) {
      forall v | Accepts(a, fuel, node, v) ensures Accepts(b, fuel, node, v) { SameCounted(a, b, fuel, c, s, m, n, v); }
    } else {
      var lost := Crowded(a, b, fuel, s, n);
      AtMostAccepts(a, fuel, c, s, m, n, lost);
      AtMostAccepts(b, fuel, c, s, m, n, lost);
    }
  }

  /** An array that is lost: of one item no longer matched, or of one match and too many new ones. */
  lemma Crowded(a: Env, b: Env, fuel: nat, s: Json, n: nat) returns (v: Json)
    requires Satisfiable(a, fuel, s) && n > 0 && !SameFor(a, b, fuel, s)
    ensures v.Arr? && 0 < Matching(a, fuel, s, v.a) <= n && !(0 < Matching(b, fuel, s, v.a) <= n)
  {
    if x :| Accepts(a, fuel, s, x) && !Accepts(b, fuel, s, x) {
      v := Arr(Copies(x, 1));
      MatchingCopies(a, fuel, s, x, 1);
      MatchingCopies(b, fuel, s, x, 1);
    } else {
      var x :| Accepts(a, fuel, s, x);
      var y :| Accepts(a, fuel, s, y) != Accepts(b, fuel, s, y);
      v := Arr([x] + Copies(y, n));
      MatchingOneMore(a, fuel, s, x, y, n);
      MatchingOneMore(b, fuel, s, x, y, n);
    }
  }

  /** A file of an unchanged `contains` of a reference, with a `maxContains` of one or more, adds nothing to the
      report of the file referred to. It keeps every document exactly where that file accepts just what it
      accepted. */
  lemma CountedThroughReferenceExactly(a: Env, b: Env, parts: string -> Parts, fuel: nat, c: string, m: string, n: nat,
          r: string, ref: string, g: string, y: Json)
    requires OneReplaced(a, b, g, y) && Recognises(a.kind) && a.kind(c).Contains? && m == "maxContains" && n > 0
    requires a.kind(r).Reference? && a.target(a.at, ref) == Target(g, [])
    requires Satisfiable(StandingIn(a, g), fuel, a.files[g])
    requires a.files[a.at] == ContainsNode(c, ReferenceTo(r, ref), m, Some(Num(n as real)))
    ensures Changes(a.kind, parts, a.files, b.files) == Compare(a.kind, a.files[g], y, [Name(g)])
    ensures Keeps(a, b, fuel + 1, a.files[a.at], b.files[b.at])
            <==> JustThese(a, b, g, fuel)
  {
    OneReported(a, b, parts, g, y);
    CountedKeeps(a, b, fuel, c, m, n, r, ref, g);
  }

  lemma CountedKeeps(a: Env, b: Env, fuel: nat, c: string, m: string, n: nat, r: string, ref: string, g: string)
    requires SameReading(a, b) && Recognises(a.kind) && a.kind(c).Contains? && m == "maxContains" && n > 0
    requires a.kind(r).Reference? && a.target(a.at, ref) == Target(g, []) && g in a.files && g in b.files
    requires Satisfiable(StandingIn(a, g), fuel, a.files[g])
    ensures var s := ContainsNode(c, ReferenceTo(r, ref), m, Some(Num(n as real)));
            Keeps(a, b, fuel + 1, s, s) <==> JustThese(a, b, g, fuel)
  {
    var more: nat, s := fuel + 1, ReferenceTo(r, ref);
    forall v
      ensures Accepts(a, more, s, v) <==> Was(a, g, fuel, v)
      ensures Accepts(b, more, s, v) <==> Was(b, g, fuel, v)
    {
      ReferenceIs(a, fuel, r, ref, g, v);
      ReferenceIs(b, fuel, r, ref, g, v);
    }
    var x :| Accepts(StandingIn(a, g), fuel, a.files[g], x);
    assert Was(a, g, fuel, x);
    assert Accepts(a, more, s, x);
    AtMostKeeps(a, b, more, c, s, m, n);
    assert SameFor(a, b, more, s) <==> JustThese(a, b, g, fuel);
  }

  // --- what is left unevaluated -------------------------------------------------------------------------------------

  /** What the file referred to says something of. */
  ghost predicate Spoken(env: Env, g: string, fuel: nat, v: Json, p: Place)
    requires g in env.files && Within(v, p)
  {
    Sees(StandingIn(env, g), fuel, env.files[g], v, p)
  }

  /** A reference, and what is asked of what it leaves unevaluated. */
  function LeavingNode(r: string, ref: string, u: string, y: Json): Json { Obj(map[r := Str(ref), u := y]) }

  ghost predicate Leftover(env: Env, g: string, fuel: nat, more: nat, u: string, y: Json, v: Json)
    requires g in env.files && env.kind(u).Unevaluated?
  {
    forall p | Within(v, p) && p.ItemAt? == env.kind(u).items :: Spoken(env, g, fuel, v, p) ||
      Accepts(env, more, y, Part(v, p))
  }

  lemma RefSpeaks(env: Env, fuel: nat, r: string, ref: string, u: string, y: Json, g: string, v: Json, p: Place)
    requires env.kind(r).Reference? && env.kind(u).Unevaluated? && Within(v, p)
    requires env.target(env.at, ref) == Target(g, []) && g in env.files
    ensures var s := LeavingNode(r, ref, u, y);
            (exists other | other in s.m && other != u :: KeySees(env, fuel + 1, s, other, v, p)) <==>
              Spoken(env, g, fuel, v, p)
  {
    var more: nat, s := fuel + 1, LeavingNode(r, ref, u, y);
    assert r in s.m && r != u && s.m[r] == Str(ref);
    assert KeySees(env, more, s, r, v, p) <==> RefSees(env, more, Str(ref), v, p);
    assert RefSees(env, more, Str(ref), v, p) <==> Spoken(env, g, fuel, v, p);
  }

  lemma LeftoverOk(env: Env, fuel: nat, r: string, ref: string, u: string, y: Json, g: string, v: Json)
    requires env.kind(r).Reference? && env.kind(u).Unevaluated?
    requires env.target(env.at, ref) == Target(g, []) && g in env.files
    ensures var s := LeavingNode(r, ref, u, y);
            u in s.m && (KeywordOk(env, fuel + 1, s, u, v) <==> Leftover(env, g, fuel, fuel + 1, u, y, v))
  {
    var more: nat, s := fuel + 1, LeavingNode(r, ref, u, y);
    assert s.m[u] == y;
    forall p | Within(v, p)
      ensures (exists other | other in s.m && other != u :: KeySees(env, more, s, other, v, p))
              <==> Spoken(env, g, fuel, v, p)
    {
      RefSpeaks(env, fuel, r, ref, u, y, g, v, p);
    }
  }

  lemma ReferenceOk(env: Env, fuel: nat, s: Json, r: string, ref: string, g: string, v: Json)
    requires s.Obj? && r in s.m && s.m[r] == Str(ref) && env.kind(r).Reference?
    requires env.target(env.at, ref) == Target(g, []) && g in env.files
    ensures KeywordOk(env, fuel + 1, s, r, v) <==> Was(env, g, fuel, v)
  {
    var more: nat := fuel + 1;
    assert KeywordOk(env, more, s, r, v) <==> RefHolds(env, more, Str(ref), v);
  }

  lemma LeavingAccepts(env: Env, fuel: nat, r: string, ref: string, u: string, y: Json, g: string, v: Json)
    requires env.kind(r).Reference? && env.kind(u).Unevaluated?
    requires env.target(env.at, ref) == Target(g, []) && g in env.files
    ensures Accepts(env, fuel + 1, LeavingNode(r, ref, u, y), v)
            <==> Was(env, g, fuel, v) && Leftover(env, g, fuel, fuel + 1, u, y, v)
  {
    var s := LeavingNode(r, ref, u, y);
    assert s.m.Keys == {r, u} && s.m[r] == Str(ref);
    AcceptsKeywords(env, fuel + 1, s, v);
    ReferenceOk(env, fuel, s, r, ref, g, v);
    LeftoverOk(env, fuel, r, ref, u, y, g, v);
  }

  /** Every document of the node the file still accepts, and what it no longer speaks of the other keyword
      accepts. */
  ghost predicate NothingDropped(a: Env, b: Env, g: string, fuel: nat, more: nat, s: Json, u: string, y: Json)
    requires g in a.files && g in b.files && a.kind(u).Unevaluated?
  {
    forall v | Accepts(a, more, s, v) ::
      Was(b, g, fuel, v)
      && forall p | Within(v, p) && p.ItemAt? == a.kind(u).items && Spoken(a, g, fuel, v, p) ::
           Spoken(b, g, fuel, v, p) || Accepts(a, more, y, Part(v, p))
  }

  /** A file of an unchanged node of a reference, and of what is asked of what it leaves unevaluated, without
      references there, adds nothing to the report of the file referred to. It keeps every document exactly
      where that file still accepts it, and what it no longer speaks of the other keyword accepts. */
  lemma LeavingThroughReferenceExactly(a: Env, b: Env, parts: string -> Parts, fuel: nat, r: string, ref: string,
          u: string,
          x: Json, g: string, y: Json)
    requires OneReplaced(a, b, g, y) && a.kind(r).Reference? && a.kind(u).Unevaluated? && Targets(a, x) == {}
    requires a.target(a.at, ref) == Target(g, []) && a.files[a.at] == LeavingNode(r, ref, u, x)
    ensures Changes(a.kind, parts, a.files, b.files) == Compare(a.kind, a.files[g], y, [Name(g)])
    ensures Keeps(a, b, fuel + 1, a.files[a.at], b.files[b.at])
            <==> NothingDropped(a, b, g, fuel, fuel + 1, a.files[a.at], u, x)
  {
    OneReported(a, b, parts, g, y);
    LeavingKeeps(a, b, fuel, r, ref, u, x, g);
  }

  lemma LeavingMoved(a: Env, b: Env, fuel: nat, r: string, ref: string, u: string, x: Json, g: string, v: Json)
    requires SameReading(a, b) && a.kind(r).Reference? && a.kind(u).Unevaluated? && Targets(a, x) == {}
    requires a.target(a.at, ref) == Target(g, []) && g in a.files && g in b.files
    requires Accepts(a, fuel + 1, LeavingNode(r, ref, u, x), v)
    ensures Accepts(b, fuel + 1, LeavingNode(r, ref, u, x), v)
            <==> Was(b, g, fuel, v)
                 && forall p | Within(v, p) && p.ItemAt? == a.kind(u).items && Spoken(a, g, fuel, v, p) ::
                      Spoken(b, g, fuel, v, p) || Accepts(a, fuel + 1, x, Part(v, p))
  {
    var more: nat := fuel + 1;
    LeavingAccepts(a, fuel, r, ref, u, x, g, v);
    LeavingAccepts(b, fuel, r, ref, u, x, g, v);
    forall w ensures Accepts(a, more, x, w) <==> Accepts(b, more, x, w) { AlternativeAccepts(a, b, more, x, w); }
  }

  lemma LeavingKeeps(a: Env, b: Env, fuel: nat, r: string, ref: string, u: string, x: Json, g: string)
    requires SameReading(a, b) && a.kind(r).Reference? && a.kind(u).Unevaluated? && Targets(a, x) == {}
    requires a.target(a.at, ref) == Target(g, []) && g in a.files && g in b.files
    ensures var s := LeavingNode(r, ref, u, x);
            Keeps(a, b, fuel + 1, s, s) <==> NothingDropped(a, b, g, fuel, fuel + 1, s, u, x)
  {
    var more: nat, s := fuel + 1, LeavingNode(r, ref, u, x);
    forall v | Accepts(a, more, s, v)
      ensures Accepts(b, more, s, v)
              <==> Was(b, g, fuel, v)
                   && forall p | Within(v, p) && p.ItemAt? == a.kind(u).items && Spoken(a, g, fuel, v, p) ::
                        Spoken(b, g, fuel, v, p) || Accepts(a, more, x, Part(v, p))
    {
      LeavingMoved(a, b, fuel, r, ref, u, x, g, v);
    }
  }
}
