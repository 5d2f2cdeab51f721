/** References across files, where a change in one file loses documents of another. */
module CompatFiles {
  import opened Text
  import opened Json
  import opened Compat
  import opened Schema
  import opened CompatMeaning
  import opened CompatSound
  import opened CompatLimits
  import opened CompatPrecision

  function ReferenceTo(r: string, ref: string): Json { Obj(map[r := Str(ref)]) }

  lemma ReferenceAccepts(env: Env, fuel: nat, r: string, ref: string, v: Json)
    requires env.kind(r).Reference?
    ensures Accepts(env, fuel + 1, ReferenceTo(r, ref), v) <==> TargetHolds(env, fuel + 1, env.target(env.at, ref), v)
  {
    AcceptsOne(env, fuel + 1, r, Str(ref), v);
  }

  // --- one file changed ---------------------------------------------------------------------------------------------

  lemma {:induction false} OthersUnchanged(kind: Reading, parts: string -> Parts, was: map<string, Json>,
          now: map<string, Json>, paths: seq<string>, g: string)
    requires Ascending(paths) && forall p | p in paths :: p in was && p in now && (p != g ==> was[p] == now[p])
    ensures Classify(kind, parts, was, now, paths) == if g in paths then AtPath(kind, parts, was, now, g) else []
  {
    if paths != [] {
      OthersUnchanged(kind, parts, was, now, paths[1..], g);
      if paths[0] == g {
        forall i | 0 <= i < |paths| - 1 ensures paths[1..][i] != g { assert paths[0] != paths[i + 1]; }
      } else {
        NoFinding(kind, was[paths[0]], [Name(paths[0])]);
      }
    }
  }

  /** The file at `g` is replaced, and the one a schema is read from is another. */
  ghost predicate OneReplaced(a: Env, b: Env, g: string, y: Json) {
    && SameReading(a, b)
    && g in a.files && a.at in a.files && a.at != g
    && b.files == a.files[g := y]
  }

  /** What is reported is the change of that file. */
  lemma OneReported(a: Env, b: Env, parts: string -> Parts, g: string, y: Json)
    requires OneReplaced(a, b, g, y)
    ensures Changes(a.kind, parts, a.files, b.files) == Compare(a.kind, a.files[g], y, [Name(g)])
    ensures a.files[a.at] == b.files[b.at]
  {
    OthersUnchanged(a.kind, parts, a.files, b.files, Sorted(a.files.Keys + b.files.Keys), g);
  }

  // --- not -----------------------------------------------------------------------------------------------------------

  lemma NotReferenceAccepts(env: Env, fuel: nat, k: string, r: string, ref: string, v: Json)
    requires env.kind(k).Not? && env.kind(r).Reference?
    ensures Accepts(env, fuel + 1, Obj(map[k := ReferenceTo(r, ref)]), v)
            <==> !TargetHolds(env, fuel + 1, env.target(env.at, ref), v)
  {
    AcceptsOne(env, fuel + 1, k, ReferenceTo(r, ref), v);
    ReferenceAccepts(env, fuel, r, ref, v);
  }

  /** A file that refuses what a reference accepts is itself unchanged, so nothing is said of it: all
      that is reported is the change of the file referred to, compatible where that one is. It keeps
      every document exactly when the file referred to accepts nothing new. */
  lemma NotThroughReferenceExactly(a: Env, b: Env, parts: string -> Parts, fuel: nat, k: string, r: string, ref: string,
          g: string, y: Json)
    requires OneReplaced(a, b, g, y) && a.kind(k).Not? && a.kind(r).Reference? && a.target(a.at, ref) == Target(g, [])
    requires a.files[a.at] == Obj(map[k := ReferenceTo(r, ref)])
    ensures Changes(a.kind, parts, a.files, b.files) == Compare(a.kind, a.files[g], y, [Name(g)])
    ensures Keeps(a, b, fuel + 1, a.files[a.at], b.files[b.at])
            <==> Keeps(StandingIn(b, g), StandingIn(a, g), fuel, y, a.files[g])
  {
    OneReported(a, b, parts, g, y);
    NotKeeps(a, b, fuel, k, r, ref, g);
  }

  lemma NotKeeps(a: Env, b: Env, fuel: nat, k: string, r: string, ref: string, g: string)
    requires SameReading(a, b) && a.kind(k).Not? && a.kind(r).Reference? && a.target(a.at, ref) == Target(g, [])
    requires g in a.files && g in b.files
    ensures var s := Obj(map[k := ReferenceTo(r, ref)]);
            Keeps(a, b, fuel + 1, s, s) <==> Keeps(StandingIn(b, g), StandingIn(a, g), fuel, b.files[g], a.files[g])
  {
    var more: nat, s := fuel + 1, Obj(map[k := ReferenceTo(r, ref)]);
    forall v
      ensures Accepts(a, more, s, v) <==> !Accepts(StandingIn(a, g), fuel, a.files[g], v)
      ensures Accepts(b, more, s, v) <==> !Accepts(StandingIn(b, g), fuel, b.files[g], v)
    {
      NotReferenceAccepts(a, fuel, k, r, ref, v);
      NotReferenceAccepts(b, fuel, k, r, ref, v);
    }
  }

  /** Under a `not`, a bound on a number behind a reference is judged the wrong way round: its change is
      called breaking exactly when every document is kept. */
  lemma NotThroughBoundReversed(a: Env, b: Env, parts: string -> Parts, fuel: nat, k: string, r: string, ref: string,
          g: string, bound: string, x: real, y: real)
    requires OneReplaced(a, b, g, Bounded(bound, y)) && a.files[g] == Bounded(bound, x) && x != y
    requires a.kind(bound).Bound? && (a.kind(bound).of.Value? || a.kind(bound).of.ExclusiveValue?)
    requires a.kind(k).Not? && a.kind(r).Reference? && a.target(a.at, ref) == Target(g, [])
    requires a.files[a.at] == Obj(map[k := ReferenceTo(r, ref)])
    ensures Keeps(a, b, fuel + 1, a.files[a.at], b.files[b.at])
            <==> exists f :: f in Changes(a.kind, parts, a.files, b.files) && f.breaking
  {
    NotThroughReferenceExactly(a, b, parts, fuel, k, r, ref, g, Bounded(bound, y));
    BoundKeeps(StandingIn(b, g), StandingIn(a, g), fuel, bound, y, x);
    BoundBreaks(a.kind, bound, x, y, [Name(g)]);
  }

  lemma BoundBreaks(kind: Reading, k: string, x: real, y: real, at: Pointer)
    requires kind(k).Bound? && x != y
    ensures (exists f :: f in Compare(kind, Bounded(k, x), Bounded(k, y), at) && f.breaking) <==>
            NoTighter(kind(k).lower, y, x)
  {
    BoundReported(kind, k, x, y, at);
    var looser := NoTighter(kind(k).lower, x, y);
    assert Finding(at + [Name(k)], !looser, if looser then BoundLoosened else BoundTightened)
           in Compare(kind, Bounded(k, x), Bounded(k, y), at);
  }

  // --- if ------------------------------------------------------------------------------------------------------------

  function Choosing(k: string, x: Json, yes: Json, no: Json): Json { Obj(map[k := x, "then" := yes, "else" := no]) }

  lemma AcceptsKeywords(env: Env, fuel: nat, s: Json, v: Json)
    requires s.Obj?
    ensures Accepts(env, fuel, s, v) <==> forall k | k in s.m :: KeywordOk(env, fuel, s, k, v)
  {
  }

  lemma ChoosingMembers(k: string, x: Json, yes: Json, no: Json)
    requires k != "then" && k != "else"
    ensures var m := Choosing(k, x, yes, no).m;
            m.Keys == {k, "then", "else"} && m[k] == x && m["then"] == yes && m["else"] == no
  {
    assert |"then"| == |"else"| && "then"[0] != "else"[0];
  }

  lemma OnlyTheChoice(env: Env, fuel: nat, s: Json, k: string, v: Json)
    requires s.Obj? && s.m.Keys == {k, "then", "else"}
    requires env.kind("then").Then? && env.kind("else").Else?
    ensures Accepts(env, fuel, s, v) <==> KeywordOk(env, fuel, s, k, v)
  {
    AcceptsKeywords(env, fuel, s, v);
    KeywordIsValue(env, fuel, s, "then", v);
    KeywordIsValue(env, fuel, s, "else", v);
  }

  lemma ChoosingAccepts(env: Env, fuel: nat, k: string, x: Json, yes: Json, no: Json, v: Json)
    requires env.kind(k).If? && env.kind("then").Then? && env.kind("else").Else?
    ensures Accepts(env, fuel, Choosing(k, x, yes, no), v) <==>
            if Accepts(env, fuel, x, v) then Accepts(env, fuel, yes, v) else Accepts(env, fuel, no, v)
  {
    ChoosingMembers(k, x, yes, no);
    OnlyTheChoice(env, fuel, Choosing(k, x, yes, no), k, v);
    IfOk(env, fuel, Choosing(k, x, yes, no), k, v);
  }

  /** What the change sends to the other alternative is accepted there as well. */
  ghost predicate SidesFit(a: Env, b: Env, g: string, fuel: nat, more: nat, y: Json, yes: Json, no: Json)
    requires g in a.files
  {
    forall v ::
      var was, now := Accepts(StandingIn(a, g), fuel, a.files[g], v), Accepts(StandingIn(b, g), fuel, y, v);
      && (!was && now && Accepts(a, more, no, v) ==> Accepts(a, more, yes, v))
      && (was && !now && Accepts(a, more, yes, v) ==> Accepts(a, more, no, v))
  }

  lemma AlternativeAccepts(a: Env, b: Env, more: nat, x: Json, v: Json)
    requires SameReading(a, b) && Targets(a, x) == {}
    ensures Accepts(a, more, x, v) <==> Accepts(b, more, x, v)
  {
    SameAccepts(a, more, b, more, x, v);
  }

  lemma ConditionAccepts(env: Env, fuel: nat, k: string, r: string, ref: string, yes: Json, no: Json, t: Target,
          v: Json)
    requires env.kind(k).If? && env.kind("then").Then? && env.kind("else").Else? && env.kind(r).Reference?
    requires t == env.target(env.at, ref) && Find(env.files, t).Some?
    ensures Accepts(env, fuel + 1, Choosing(k, ReferenceTo(r, ref), yes, no), v) <==>
            if Accepts(StandingIn(env, t.file), fuel, Find(env.files, t).value, v) then Accepts(env, fuel + 1, yes, v)
            else Accepts(env, fuel + 1, no, v)
  {
    ReferenceAccepts(env, fuel, r, ref, v);
    ChoosingAccepts(env, fuel + 1, k, ReferenceTo(r, ref), yes, no, v);
  }

  /** An `if` of a reference: all that is reported is the change of the file referred to. The file that
      chooses by it, its alternatives without references, keeps every document exactly when a document
      that the change sends to the other alternative is accepted there as well. */
  lemma IfThroughReferenceExactly(a: Env, b: Env, parts: string -> Parts, fuel: nat, k: string, r: string, ref: string,
          yes: Json, no: Json, g: string, y: Json)
    requires OneReplaced(a, b, g, y) && a.kind(k).If? && a.kind("then").Then? && a.kind("else").Else? &&
             a.kind(r).Reference?
    requires a.target(a.at, ref) == Target(g, []) && Targets(a, yes) == {} && Targets(a, no) == {}
    requires a.files[a.at] == Choosing(k, ReferenceTo(r, ref), yes, no)
    ensures Changes(a.kind, parts, a.files, b.files) == Compare(a.kind, a.files[g], y, [Name(g)])
    ensures Keeps(a, b, fuel + 1, a.files[a.at], b.files[b.at]) <==> SidesFit(a, b, g, fuel, fuel + 1, y, yes, no)
  {
    OneReported(a, b, parts, g, y);
    ChoiceKeeps(a, b, fuel, k, r, ref, yes, no, g, y);
  }

  lemma ChoiceKeeps(a: Env, b: Env, fuel: nat, k: string, r: string, ref: string, yes: Json, no: Json, g: string,
          y: Json)
    requires SameReading(a, b) && a.kind(k).If? && a.kind("then").Then? && a.kind("else").Else? && a.kind(r).Reference?
    requires a.target(a.at, ref) == Target(g, []) && Targets(a, yes) == {} && Targets(a, no) == {}
    requires g in a.files && g in b.files && b.files[g] == y
    ensures var s := Choosing(k, ReferenceTo(r, ref), yes, no);
            Keeps(a, b, fuel + 1, s, s) <==> SidesFit(a, b, g, fuel, fuel + 1, y, yes, no)
  {
    var more: nat, s := fuel + 1, Choosing(k, ReferenceTo(r, ref), yes, no);
    forall v
      ensures Accepts(a, more, s, v) <==>
              if Accepts(StandingIn(a, g), fuel, a.files[g], v) then Accepts(a, more, yes, v)
                else Accepts(a, more, no, v)
      ensures Accepts(b, more, s, v) <==>
              if Accepts(StandingIn(b, g), fuel, y, v) then Accepts(a, more, yes, v) else Accepts(a, more, no, v)
    {
      ConditionAccepts(a, fuel, k, r, ref, yes, no, Target(g, []), v);
      ConditionAccepts(b, fuel, k, r, ref, yes, no, Target(g, []), v);
      AlternativeAccepts(a, b, more, yes, v);
      AlternativeAccepts(a, b, more, no, v);
    }
    if SidesFit(a, b, g, fuel, more, y, yes, no) {
      forall v | Accepts(a, more, s, v) ensures Accepts(b, more, s, v) {
      }
    }
  }

  // --- what a reference leads to, gone ------------------------------------------------------------------------------

  lemma LostTarget(a: Env, b: Env, fuel: nat, r: string, ref: string, t: Target)
    requires a.kind == b.kind && a.kind(r).Reference? && t == a.target(a.at, ref) == b.target(b.at, ref)
    requires Find(a.files, t).Some? && Find(b.files, t).None?
    ensures Keeps(a, b, fuel + 1, ReferenceTo(r, ref), ReferenceTo(r, ref))
            <==> !Satisfiable(StandingIn(a, t.file), fuel, Find(a.files, t).value)
  {
    var more: nat, s := fuel + 1, ReferenceTo(r, ref);
    forall v
      ensures !Accepts(b, more, s, v)
      ensures Accepts(a, more, s, v) <==> Accepts(StandingIn(a, t.file), fuel, Find(a.files, t).value, v)
    {
      ReferenceAccepts(a, fuel, r, ref, v);
      ReferenceAccepts(b, fuel, r, ref, v);
    }
  }

  /** A schema retired for its successor is called compatible; a schema that refers to it keeps
      every document exactly when the retired one accepted none. */
  lemma RetiredExactly(a: Env, b: Env, parts: string -> Parts, fuel: nat, r: string, ref: string, retired: string)
    requires SameReading(a, b) && a.kind(r).Reference? && a.target(a.at, ref) == Target(retired, [])
    requires retired in a.files && retired !in b.files && Succeeded(parts, retired, b.files.Keys)
    ensures AtPath(a.kind, parts, a.files, b.files, retired) == Compatible([Name(retired)], SchemaRetired)
    ensures Keeps(a, b, fuel + 1, ReferenceTo(r, ref), ReferenceTo(r, ref))
            <==> !Satisfiable(StandingIn(a, retired), fuel, a.files[retired])
  {
    LostTarget(a, b, fuel, r, ref, Target(retired, []));
  }

  /** A file that now admits everything is called compatible; a schema that refers into it keeps every
      document exactly when what it referred to accepted none. */
  lemma LostDefinitionsExactly(a: Env, b: Env, parts: string -> Parts, fuel: nat, r: string, ref: string, t: Target)
    requires SameReading(a, b) && a.kind(r).Reference? && a.target(a.at, ref) == t && t.path != []
    requires Find(a.files, t).Some? && t.file in b.files && b.files[t.file] == Bool(true)
    ensures AtPath(a.kind, parts, a.files, b.files, t.file) == Compatible([Name(t.file)], AdmitsMore)
    ensures Keeps(a, b, fuel + 1, ReferenceTo(r, ref), ReferenceTo(r, ref))
            <==> !Satisfiable(StandingIn(a, t.file), fuel, Find(a.files, t).value)
  {
    LostTarget(a, b, fuel, r, ref, t);
    assert a.files[t.file].Obj?;
  }
}
