/** References in a meaning: targets that did not change are answered alike, and where references do
    not come back to themselves, looking deep enough settles what a schema accepts. */
module References {
  import opened Text
  import opened Json
  import opened Compat
  import opened Schema
  import opened CompatMeaning

  /** A target found the same on both sides is answered alike where its own references are. */
  lemma AgreesBy(a: Env, fa: nat, b: Env, fb: nat, t: Target)
    requires SameReading(a, b) && fa > 0 && fb > 0 && Find(a.files, t) == Find(b.files, t)
    requires Find(a.files, t).Some? ==>
      Alike(StandingIn(a, t.file), fa - 1, StandingIn(b, t.file), fb - 1, Find(a.files, t).value)
    ensures Agrees(a, fa, b, fb, t)
  {
    if Find(a.files, t).Some? {
      var x := Find(a.files, t).value;
      forall v ensures TargetHolds(a, fa, t, v) <==> TargetHolds(b, fb, t, v) {
        SameAccepts(StandingIn(a, t.file), fa - 1, StandingIn(b, t.file), fb - 1, x, v);
      }
      forall v, p | Within(v, p) ensures TargetSees(a, fa, t, v, p) <==> TargetSees(b, fb, t, v, p) {
        SameSees(StandingIn(a, t.file), fa - 1, StandingIn(b, t.file), fb - 1, x, v, p);
      }
    }
  }

  // --- what did not change -----------------------------------------------------------------------------------------

  /** Each of these targets is the same on both sides, and refers to none but these. */
  ghost predicate Still(a: Env, b: Env, still: set<Target>) {
    forall t | t in still ::
      && Find(a.files, t) == Find(b.files, t)
      && (Find(a.files, t).Some? ==> Targets(StandingIn(a, t.file), Find(a.files, t).value) <= still)
  }

  lemma {:induction false} StillAgrees(a: Env, b: Env, fuel: nat, still: set<Target>, t: Target)
    requires SameReading(a, b) && a.base == b.base && Still(a, b, still) && t in still
    ensures Agrees(a, fuel, b, fuel, t)
    decreases fuel
  {
    if fuel > 0 {
      var c, d := StandingIn(a, t.file), StandingIn(b, t.file);
      assert Still(c, d, still);
      if Find(a.files, t).Some? {
        forall u | u in Targets(c, Find(a.files, t).value) ensures Agrees(c, fuel - 1, d, fuel - 1, u) {
          StillAgrees(c, d, fuel - 1, still, u);
        }
      }
      AgreesBy(a, fuel, b, fuel, t);
    }
  }

  /** A schema that refers to nothing that changed accepts the same documents. */
  lemma Congruent(a: Env, b: Env, fuel: nat, x: Json, v: Json, still: set<Target>)
    requires SameReading(a, b) && a.base == b.base && Still(a, b, still) && Targets(a, x) <= still
    ensures Accepts(a, fuel, x, v) <==> Accepts(b, fuel, x, v)
  {
    forall t | t in Targets(a, x) ensures Agrees(a, fuel, b, fuel, t) { StillAgrees(a, b, fuel, still, t); }
    SameAccepts(a, fuel, b, fuel, x, v);
  }

  // --- looking deep enough ------------------------------------------------------------------------------------------

  /** No chain of references comes back to itself: each leads to a lower rank. */
  ghost predicate Ranked(env: Env, rank: Target -> nat) {
    forall t | Find(env.files, t).Some? ::
      forall u | u in Targets(StandingIn(env, t.file), Find(env.files, t).value) :: rank(u) < rank(t)
  }

  lemma {:induction false} DeepEnoughAgrees(a: Env, fa: nat, b: Env, fb: nat, rank: Target -> nat, t: Target)
    requires SameReading(a, b) && a.files == b.files && Ranked(a, rank) && rank(t) < fa && rank(t) < fb
    ensures Agrees(a, fa, b, fb, t)
    decreases rank(t)
  {
    var c, d := StandingIn(a, t.file), StandingIn(b, t.file);
    assert Ranked(c, rank);
    if Find(a.files, t).Some? {
      forall u | u in Targets(c, Find(a.files, t).value) ensures Agrees(c, fa - 1, d, fb - 1, u) {
        DeepEnoughAgrees(c, fa - 1, d, fb - 1, rank, u);
      }
    }
    AgreesBy(a, fa, b, fb, t);
  }

  /** Where references do not come back to themselves, every depth above the schema's ranks gives one
      answer, whatever an endless chain would be taken to answer. */
  lemma DepthSettles(env: Env, fa: nat, fb: nat, base: bool, rank: Target -> nat, x: Json, v: Json)
    requires Ranked(env, rank) && forall t | t in Targets(env, x) :: rank(t) < fa && rank(t) < fb
    ensures Accepts(env, fa, x, v) <==> Accepts(env.(base := base), fb, x, v)
  {
    var other := env.(base := base);
    forall t | t in Targets(env, x)
      ensures Agrees(env, fa, other, fb, t)
    {
      DeepEnoughAgrees(env, fa, other, fb, rank, t);
    }
    SameAccepts(env, fa, other, fb, x, v);
  }
}
