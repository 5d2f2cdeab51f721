/** One session's reservation on the remote, other sessions' steps in between. */
module Remote {
  import opened Text
  import opened Reserve

  lemma {:induction false} RunSum(s: State, x: seq<(Session, Step)>, y: seq<(Session, Step)>)
    ensures Run(s, x + y) == Run(Run(s, x), y)
    decreases |x|
  {
    if x == [] {
      assert x + y == y;
    } else {
      assert (x + y)[1..] == x[1..] + y;
      RunSum(if Enabled(s, x[0].0, x[0].1) then Do(s, x[0].0, x[0].1) else s, x[1..], y);
    }
  }

  ghost predicate ByOthers(steps: seq<(Session, Step)>, a: Session) {
    forall n | 0 <= n < |steps| :: steps[n].0 != a
  }

  lemma {:induction false} OthersLeave(s: State, steps: seq<(Session, Step)>, a: Session)
    requires ByOthers(steps, a)
    ensures PhaseOf(Run(s, steps), a) == PhaseOf(s, a)
    decreases |steps|
  {
    if steps != [] {
      var next := if Enabled(s, steps[0].0, steps[0].1) then Do(s, steps[0].0, steps[0].1) else s;
      assert steps[0].0 != a;
      OthersLeave(next, steps[1..], a);
    }
  }

  function Next(id: Identifier): Identifier { Identifier(id.prefix, id.number + 1) }

  class Register {
    var state: State

    /** What other sessions do meanwhile. */
    method Meanwhile(steps: seq<(Session, Step)>, a: Session)
      requires ByOthers(steps, a)
      modifies this
      ensures state == Run(old(state), steps)
      ensures PhaseOf(state, a) == PhaseOf(old(state), a)
    {
      OthersLeave(state, steps, a);
      state := Run(state, steps);
    }

    /** Creates the ref, and reads the remote back: true where it names this session's commit. */
    method Claim(a: Session, meanwhile: seq<(Session, Step)>) returns (got: bool)
      requires PhaseOf(state, a).Trying? && ByOthers(meanwhile, a)
      modifies this
      ensures state == Run(old(state), [(a, Push)] + meanwhile + [(a, Check)])
      ensures got <==> PhaseOf(state, a).Returned?
      ensures got ==> PhaseOf(state, a).id == PhaseOf(old(state), a).want && PhaseOf(state, a).id.number <= 9999
      ensures !got && PhaseOf(old(state), a).left > 1 ==>
        PhaseOf(state, a).Trying? && PhaseOf(state, a).left == PhaseOf(old(state), a).left - 1
        && PhaseOf(state, a).want == Next(PhaseOf(old(state), a).want)
        && PhaseOf(state, a).seen == PhaseOf(old(state), a).seen
      ensures !got && PhaseOf(old(state), a).left <= 1 && PhaseOf(old(state), a).seen.Some? ==>
              PhaseOf(state, a).GaveUp?
    {
      ghost var before := state;
      state := Do(state, a, Push);
      Meanwhile(meanwhile, a);
      state := Do(state, a, Check);
      got := PhaseOf(state, a).Returned?;
      RunSum(before, [(a, Push)] + meanwhile, [(a, Check)]);
      RunSum(before, [(a, Push)], meanwhile);
    }

    /** The next free number of a prefix: the highest seen and one, then one more for every try
        that another won. `meanwhile` are the other sessions' steps, after the look, and within
        and after each try. */
    method ReserveNext(a: Session, prefix: string, records: set<nat>, meanwhile: nat -> seq<(Session, Step)>)
      returns (r: Option<Identifier>, ghost steps: seq<(Session, Step)>)
      requires PhaseOf(state, a).Idle? && forall n :: ByOthers(meanwhile(n), a)
      modifies this
      ensures state == Run(old(state), steps)
      ensures r.Some? ==> PhaseOf(state, a).Returned? && PhaseOf(state, a).id == r.value
      ensures r.None? ==> PhaseOf(state, a).GaveUp?
      ensures r.Some? ==> r.value.prefix == prefix && 1 <= r.value.number <= 9999
      ensures r.Some? ==> forall n | n in records :: n < r.value.number
      ensures r.Some? ==>
                forall id | id in old(state).refs && id.prefix == prefix &&
                  id.number <= 9999 :: id.number < r.value.number
    {
      ghost var before := state;
      ghost var above := Highest(Held(state, prefix, records));
      forall id | id in before.refs && id.prefix == prefix && id.number <= 9999 ensures id.number <= above {
        HeldExactly(before, prefix, records, id.number);
      }
      forall n | n in records ensures n <= above { HeldExactly(before, prefix, records, n); }
      state := Do(state, a, Look(prefix, records));
      steps := [(a, Look(prefix, records))];
      var tries: nat := 0;
      while tries < ATTEMPTS
        invariant tries <= ATTEMPTS
        invariant state == Run(before, steps)
        invariant tries < ATTEMPTS ==>
                  PhaseOf(state, a).Trying? && PhaseOf(state, a).left == ATTEMPTS - tries &&
                    PhaseOf(state, a).seen.Some?
        invariant tries == ATTEMPTS ==> PhaseOf(state, a).GaveUp?
        invariant tries < ATTEMPTS ==> PhaseOf(state, a).want == Identifier(prefix, above + 1 + tries)
      {
        Meanwhile(meanwhile(2 * tries), a);
        RunSum(before, steps, meanwhile(2 * tries));
        steps := steps + meanwhile(2 * tries);
        var got := Claim(a, meanwhile(2 * tries + 1));
        ghost var round := [(a, Push)] + meanwhile(2 * tries + 1) + [(a, Check)];
        RunSum(before, steps, round);
        steps := steps + round;
        if got { return Some(PhaseOf(state, a).id), steps; }
        tries := tries + 1;
      }
      return None, steps;
    }
  }
}
