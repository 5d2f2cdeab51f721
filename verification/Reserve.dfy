/** The register's numbers: sessions that reserve one by creating a ref on the remote, their steps
    interleaved in any order. */
module Reserve {
  import opened Text

  type Session = nat

  datatype Identifier = Identifier(prefix: string, number: nat)

  /** The reservation's own commit: no other names it, by its nonce. */
  datatype Commit = Commit(session: Session, nonce: nat)

  const ATTEMPTS: nat := 50

  /** Where a session is. `seen`: the numbers its snapshot held; `left`: the tries it still has,
      this one included. A session that asked for one identifier has one try and no snapshot. */
  datatype Phase =
    | Idle
    | Trying(want: Identifier, seen: Option<set<nat>>, left: nat)
    | Pushed(want: Identifier, seen: Option<set<nat>>, left: nat, commit: Commit)
    | Returned(id: Identifier, seen: Option<set<nat>>)
    | GaveUp(last: Identifier, saw: set<nat>)
    | Refused
    | Failed

  datatype State = State(refs: map<Identifier, Commit>, sessions: map<Session, Phase>, nonces: nat)

  datatype Step =
    | Look(prefix: string, records: set<nat>)
    | Ask(id: Identifier, onMain: bool)
    | Push
    | PushLost(arrived: bool)
    | Check

  function PhaseOf(s: State, a: Session): Phase { if a in s.sessions then s.sessions[a] else Idle }

  /** A reservation is listed where its number has four digits. */
  predicate Listed(id: Identifier) { id.number <= 9999 }

  lemma HighestExists(numbers: set<nat>) returns (m: nat)
    requires numbers != {}
    ensures m in numbers && forall n | n in numbers :: n <= m
  {
    m :| m in numbers;
    var rest := numbers - {m};
    assert numbers == rest + {m};
    if rest != {} {
      var high := HighestExists(rest);
      if high > m { m := high; }
    }
  }

  /** `max(numbers, default=0)`. */
  function Highest(numbers: set<nat>): (m: nat)
    ensures forall n | n in numbers :: n <= m
    ensures m == 0 || m in numbers
  {
    if numbers == {} then 0
    else
      assert exists m :: m in numbers && forall n | n in numbers :: n <= m by { var h := HighestExists(numbers); }
      var m :| m in numbers && forall n | n in numbers :: n <= m;
      m
  }

  /** Every number of the prefix that a record or a listed reservation holds. */
  function Held(s: State, prefix: string, records: set<nat>): set<nat> {
    records + set id | id in s.refs && id.prefix == prefix && Listed(id) :: id.number
  }

  predicate Enabled(s: State, a: Session, step: Step) {
    match step
    case Look(_, _) => PhaseOf(s, a).Idle?
    case Ask(_, _) => PhaseOf(s, a).Idle?
    case Push => PhaseOf(s, a).Trying?
    case PushLost(_) => PhaseOf(s, a).Trying?
    case Check => PhaseOf(s, a).Pushed?
  }

  function At(s: State, a: Session, phase: Phase): State { s.(sessions := s.sessions[a := phase]) }

  /** The remote creates the ref where there is none, and rejects the push where there is one. */
  function Created(s: State, id: Identifier, c: Commit): State {
    s.(refs := if id in s.refs then s.refs else s.refs[id := c], nonces := s.nonces + 1)
  }

  function Do(s: State, a: Session, step: Step): State
    requires Enabled(s, a, step)
  {
    var p := PhaseOf(s, a);
    match step
    case Look(prefix, records) =>
      var seen := Held(s, prefix, records);
      At(s, a, Trying(Identifier(prefix, Highest(seen) + 1), Some(seen), ATTEMPTS))
    case Ask(id, onMain) =>
      At(s, a, if onMain || !Listed(id) then Refused else Trying(id, None, 1))
    case Push =>
      var c := Commit(a, s.nonces);
      At(Created(s, p.want, c), a, Pushed(p.want, p.seen, p.left, c))
    case PushLost(arrived) =>
      At(if arrived then Created(s, p.want, Commit(a, s.nonces)) else s, a, Failed)
    case Check =>
      if Listed(p.want) && p.want in s.refs && s.refs[p.want] == p.commit then At(s, a, Returned(p.want, p.seen))
      else if p.left > 1 then At(s, a, Trying(Identifier(p.want.prefix, p.want.number + 1), p.seen, p.left - 1))
      else if p.seen.Some? then At(s, a, GaveUp(p.want, p.seen.value))
      else At(s, a, Refused)
  }

  /** Steps that are not possible when their turn comes are skipped. */
  function Run(s: State, steps: seq<(Session, Step)>): State
    decreases |steps|
  {
    if steps == [] then s
    else Run(if Enabled(s, steps[0].0, steps[0].1) then Do(s, steps[0].0, steps[0].1) else s, steps[1..])
  }

  /** Nothing reserved by this protocol yet; what the register reserved before, by whoever. */
  ghost predicate Start(s: State) {
    s.sessions == map[] && forall id | id in s.refs :: s.refs[id].nonce < s.nonces
  }

  // --- what every state keeps -------------------------------------------------------------------------------------

  /** A number a session tried and did not get: someone else's, or one that is never listed. */
  predicate Taken(s: State, a: Session, id: Identifier, start: nat) {
    id in s.refs && (!Listed(id) || s.refs[id].session != a || s.refs[id].nonce < start)
  }

  predicate First(seen: Option<set<nat>>, want: Identifier, left: nat) {
    match seen
    case None => left == 1
    case Some(numbers) => 1 <= left <= ATTEMPTS && want.number == Highest(numbers) + 1 + (ATTEMPTS - left)
  }

  /** Every number from the first the session tried up to this one is taken. */
  ghost predicate AllTaken(s: State, a: Session, start: nat, seen: Option<set<nat>>, want: Identifier) {
    seen.Some? ==> forall n | Highest(seen.value) < n < want.number :: Taken(s, a, Identifier(want.prefix, n), start)
  }

  /** What holds of one session: `start` is the number of commits made before any session began. */
  ghost predicate Fine(s: State, a: Session, start: nat) {
    match PhaseOf(s, a)
    case Idle => forall id | id in s.refs && s.refs[id].session == a :: s.refs[id].nonce < start
    case Trying(want, seen, left) =>
      && First(seen, want, left) && AllTaken(s, a, start, seen, want)
      && (want in s.refs && s.refs[want].session == a ==> s.refs[want].nonce < start)
      && forall id | id in s.refs && s.refs[id].session == a && s.refs[id].nonce >= start ::
           id.prefix == want.prefix && id.number < want.number
    case Pushed(want, seen, left, c) =>
      && First(seen, want, left) && AllTaken(s, a, start, seen, want)
      && c.session == a && start <= c.nonce < s.nonces && want in s.refs
      && (s.refs[want].session == a && s.refs[want].nonce >= start ==> s.refs[want] == c)
      && forall id | id in s.refs && s.refs[id].session == a && s.refs[id].nonce >= start ::
           id.prefix == want.prefix && id.number <= want.number
    case Returned(id, seen) =>
      && id in s.refs && s.refs[id].session == a && s.refs[id].nonce >= start && Listed(id)
      && (seen.Some? ==> forall n | n in seen.value :: n < id.number)
    case GaveUp(last, seen) =>
      && last.number == Highest(seen) + ATTEMPTS
      && forall n | Highest(seen) < n <= last.number :: Taken(s, a, Identifier(last.prefix, n), start)
    case _ => true
  }

  ghost predicate Inv(s: State, start: nat) {
    && start <= s.nonces && (forall id | id in s.refs :: s.refs[id].nonce < s.nonces)
    && forall a :: Fine(s, a, start)
  }

  /** A created ref never changes and is never lost. */
  lemma RefsStay(s: State, a: Session, step: Step, id: Identifier)
    requires Enabled(s, a, step) && id in s.refs
    ensures id in Do(s, a, step).refs && Do(s, a, step).refs[id] == s.refs[id]
  {
  }

  /** Refs of others, and no more of its own, leave a session as it was. */
  lemma MoreRefsStayFine(s: State, r: State, b: Session, start: nat)
    requires Fine(s, b, start) && PhaseOf(r, b) == PhaseOf(s, b) && r.nonces >= s.nonces
    requires forall id | id in s.refs :: id in r.refs && r.refs[id] == s.refs[id]
    requires forall id | id in r.refs && id !in s.refs :: r.refs[id].session != b
    ensures Fine(r, b, start)
  {
  }

  lemma OthersStayFine(s: State, a: Session, step: Step, b: Session, start: nat)
    requires Inv(s, start) && Enabled(s, a, step) && a != b
    ensures Fine(Do(s, a, step), b, start)
  {
    MoreRefsStayFine(s, Do(s, a, step), b, start);
  }

  lemma StaysFine(s: State, a: Session, step: Step, start: nat)
    requires Inv(s, start) && Enabled(s, a, step)
    ensures Fine(Do(s, a, step), a, start)
  {
    assert Fine(s, a, start);
  }

  lemma KeepsInv(s: State, a: Session, step: Step, start: nat)
    requires Inv(s, start) && Enabled(s, a, step)
    ensures Inv(Do(s, a, step), start)
  {
    forall b ensures Fine(Do(s, a, step), b, start) {
      if a == b { StaysFine(s, a, step, start); } else { OthersStayFine(s, a, step, b, start); }
    }
  }

  lemma {:induction false} InvAlways(s: State, steps: seq<(Session, Step)>, start: nat)
    requires Inv(s, start)
    ensures Inv(Run(s, steps), start)
    decreases |steps|
  {
    if steps != [] {
      if Enabled(s, steps[0].0, steps[0].1) {
        KeepsInv(s, steps[0].0, steps[0].1, start);
        InvAlways(Do(s, steps[0].0, steps[0].1), steps[1..], start);
      } else {
        InvAlways(s, steps[1..], start);
      }
    }
  }

  lemma StartInv(s: State)
    requires Start(s)
    ensures Inv(s, s.nonces)
  {
  }

  // --- what the register promises -----------------------------------------------------------------------------------

  lemma {:induction false} RefsNeverChange(s: State, steps: seq<(Session, Step)>, id: Identifier)
    requires id in s.refs
    ensures id in Run(s, steps).refs && Run(s, steps).refs[id] == s.refs[id]
    decreases |steps|
  {
    if steps != [] {
      if Enabled(s, steps[0].0, steps[0].1) {
        RefsStay(s, steps[0].0, steps[0].1, id);
        RefsNeverChange(Do(s, steps[0].0, steps[0].1), steps[1..], id);
      } else {
        RefsNeverChange(s, steps[1..], id);
      }
    }
  }

  /** Over every interleaving, no identifier is returned to two sessions, and none that was reserved
      before. */
  lemma ReturnedOnce(s: State, steps: seq<(Session, Step)>, a: Session, b: Session)
    requires Start(s)
    requires var end := Run(s, steps);
             PhaseOf(end, a).Returned? && PhaseOf(end, b).Returned? && PhaseOf(end, a).id == PhaseOf(end, b).id
    ensures a == b
    ensures PhaseOf(Run(s, steps), a).id !in s.refs
  {
    StartInv(s);
    InvAlways(s, steps, s.nonces);
    var end := Run(s, steps);
    assert Fine(end, a, s.nonces) && Fine(end, b, s.nonces);
    var id := PhaseOf(end, a).id;
    if id in s.refs { RefsNeverChange(s, steps, id); }
  }

  /** The number returned is above every number the session saw held. */
  lemma ReturnedIsAbove(s: State, steps: seq<(Session, Step)>, a: Session, n: nat)
    requires Start(s)
    requires var p := PhaseOf(Run(s, steps), a); p.Returned? && p.seen.Some? && n in p.seen.value
    ensures n < PhaseOf(Run(s, steps), a).id.number
  {
    StartInv(s);
    InvAlways(s, steps, s.nonces);
    assert Fine(Run(s, steps), a, s.nonces);
  }

  /** Giving up means that each of fifty numbers in a row, from one above the highest seen, is a ref on
      the remote, held by another or too high to be listed. */
  lemma GivingUpMeansTaken(s: State, steps: seq<(Session, Step)>, a: Session, n: nat)
    requires Start(s)
    requires var p := PhaseOf(Run(s, steps), a); p.GaveUp? && Highest(p.saw) < n <= Highest(p.saw) + ATTEMPTS
    ensures var end := Run(s, steps);
            var id := Identifier(PhaseOf(end, a).last.prefix, n);
            id in end.refs && (n > 9999 || end.refs[id].session != a || end.refs[id].nonce < s.nonces)
  {
    StartInv(s);
    InvAlways(s, steps, s.nonces);
    assert Fine(Run(s, steps), a, s.nonces);
  }

  // --- one session alone --------------------------------------------------------------------------------------------

  function Rounds(a: Session, k: nat): seq<(Session, Step)> {
    if k == 0 then [] else [(a, Push), (a, Check)] + Rounds(a, k - 1)
  }

  lemma RunTwo(s: State, x: (Session, Step), y: (Session, Step), rest: seq<(Session, Step)>)
    requires Enabled(s, x.0, x.1) && Enabled(Do(s, x.0, x.1), y.0, y.1)
    ensures Run(s, [x, y] + rest) == Run(Do(Do(s, x.0, x.1), y.0, y.1), rest)
  {
    assert ([x, y] + rest)[1..] == [y] + rest;
    assert ([y] + rest)[1..] == rest;
  }

  lemma {:induction false} RoundsAfterwards(s: State, a: Session, k: nat)
    requires PhaseOf(s, a).Returned?
    ensures Run(s, Rounds(a, k)) == s
  {
    if k > 0 {
      var steps := Rounds(a, k);
      assert steps[1..][1..] == Rounds(a, k - 1);
      RoundsAfterwards(s, a, k - 1);
    }
  }

  /** A try at a free number of four digits gets it. */
  lemma FreeIsGot(s: State, a: Session, k: nat)
    requires PhaseOf(s, a).Trying? && k > 0 && PhaseOf(s, a).want !in s.refs && Listed(PhaseOf(s, a).want)
    ensures PhaseOf(Run(s, Rounds(a, k)), a) == Returned(PhaseOf(s, a).want, PhaseOf(s, a).seen)
  {
    RunTwo(s, (a, Push), (a, Check), Rounds(a, k - 1));
    RoundsAfterwards(Do(Do(s, a, Push), a, Check), a, k - 1);
  }

  /** Tries at numbers of five digits get none, each leaving its ref behind. */
  lemma {:induction false} UnlistedIsNeverGot(s: State, a: Session, k: nat)
    requires PhaseOf(s, a).Trying? && PhaseOf(s, a).left == k && PhaseOf(s, a).seen.Some? &&
             !Listed(PhaseOf(s, a).want) && k > 0
    ensures var want, end := PhaseOf(s, a).want, Run(s, Rounds(a, k));
            && PhaseOf(end, a) == GaveUp(Identifier(want.prefix, want.number + k - 1), PhaseOf(s, a).seen.value)
            && forall n | want.number <= n < want.number + k :: Identifier(want.prefix, n) in end.refs
    decreases k
  {
    var want := PhaseOf(s, a).want;
    var next := Do(Do(s, a, Push), a, Check);
    RunTwo(s, (a, Push), (a, Check), Rounds(a, k - 1));
    assert want in next.refs;
    if k == 1 {
      assert Rounds(a, 0) == [];
    } else {
      UnlistedIsNeverGot(next, a, k - 1);
      RefsNeverChange(next, Rounds(a, k - 1), want);
    }
  }

  /** A session nobody interferes with gets the number one above the highest held exactly where that
      number has four digits; where it has five, it gives up with fifty refs created. */
  lemma AloneExactly(s: State, a: Session, prefix: string, records: set<nat>)
    requires PhaseOf(s, a).Idle?
    ensures var h, end := Highest(Held(s, prefix, records)), Run(s, [(a, Look(prefix, records))] + Rounds(a, ATTEMPTS));
            && (PhaseOf(end, a).Returned? <==> h < 9999)
            && (h < 9999 ==> PhaseOf(end, a).id == Identifier(prefix, h + 1))
            && (h >= 9999 ==>
              PhaseOf(end, a).GaveUp? && forall n | h < n <= h + ATTEMPTS :: Identifier(prefix, n) in end.refs)
  {
    var seen := Held(s, prefix, records);
    var steps := [(a, Look(prefix, records))] + Rounds(a, ATTEMPTS);
    var looked := Do(s, a, Look(prefix, records));
    assert steps[1..] == Rounds(a, ATTEMPTS);
    assert Run(s, steps) == Run(looked, Rounds(a, ATTEMPTS));
    var want := Identifier(prefix, Highest(seen) + 1);
    if Highest(seen) < 9999 {
      assert want.number !in seen;
      FreeIsGot(looked, a, ATTEMPTS);
    } else {
      UnlistedIsNeverGot(looked, a, ATTEMPTS);
    }
  }

  // --- what a session looks at --------------------------------------------------------------------------------------

  /** A number of the prefix that a record has, or a ref of four digits. */
  predicate Known(s: State, prefix: string, records: set<nat>, n: nat) {
    n in records || (Identifier(prefix, n) in s.refs && n <= 9999)
  }

  lemma HeldExactly(s: State, prefix: string, records: set<nat>, n: nat)
    ensures n in Held(s, prefix, records) <==> Known(s, prefix, records, n)
  {
    if Identifier(prefix, n) in s.refs && n <= 9999 { assert Identifier(prefix, n).number == n; }
  }

  /** What a session saw stays what it saw. */
  predicate SawAll(p: Phase, prefix: string, seen: set<nat>) {
    match p
    case Idle => false
    case Trying(want, saw, _) => saw == Some(seen) && want.prefix == prefix
    case Pushed(want, saw, _, _) => saw == Some(seen) && want.prefix == prefix
    case Returned(id, saw) => saw == Some(seen) && id.prefix == prefix
    case _ => true
  }

  lemma KeepsSeen(s: State, a: Session, step: Step, b: Session, prefix: string, seen: set<nat>)
    requires Enabled(s, a, step) && SawAll(PhaseOf(s, b), prefix, seen)
    ensures SawAll(PhaseOf(Do(s, a, step), b), prefix, seen)
  {
  }

  lemma {:induction false} SeenAlways(s: State, steps: seq<(Session, Step)>, b: Session, prefix: string, seen: set<nat>)
    requires SawAll(PhaseOf(s, b), prefix, seen)
    ensures SawAll(PhaseOf(Run(s, steps), b), prefix, seen)
    decreases |steps|
  {
    if steps != [] {
      if Enabled(s, steps[0].0, steps[0].1) {
        KeepsSeen(s, steps[0].0, steps[0].1, b, prefix, seen);
        SeenAlways(Do(s, steps[0].0, steps[0].1), steps[1..], b, prefix, seen);
      } else {
        SeenAlways(s, steps[1..], b, prefix, seen);
      }
    }
  }

  /** Over every interleaving, the number a session is returned for a prefix is of that prefix, and above every number
      of it that a record had or the remote listed when the session looked. */
  lemma AboveAllKnown(s: State, before: seq<(Session, Step)>, a: Session, prefix: string, records: set<nat>,
          steps: seq<(Session, Step)>, n: nat)
    requires Start(s) && PhaseOf(Run(s, before), a).Idle?
    requires Known(Run(s, before), prefix, records, n)
    requires PhaseOf(Run(Do(Run(s, before), a, Look(prefix, records)), steps), a).Returned?
    ensures var id := PhaseOf(Run(Do(Run(s, before), a, Look(prefix, records)), steps), a).id;
            id.prefix == prefix && n < id.number <= 9999
  {
    var m := Run(s, before);
    var looked := Do(m, a, Look(prefix, records));
    StartInv(s);
    InvAlways(s, before, s.nonces);
    KeepsInv(m, a, Look(prefix, records), s.nonces);
    InvAlways(looked, steps, s.nonces);
    SeenAlways(looked, steps, a, prefix, Held(m, prefix, records));
    HeldExactly(m, prefix, records, n);
    assert Fine(Run(looked, steps), a, s.nonces);
  }

  /** A session alone that is returned a number is returned 1, or one above a number known. */
  lemma AloneIsNext(s: State, a: Session, prefix: string, records: set<nat>)
    requires PhaseOf(s, a).Idle?
    ensures var end := Run(s, [(a, Look(prefix, records))] + Rounds(a, ATTEMPTS));
            PhaseOf(end, a).Returned? ==>
              var id := PhaseOf(end, a).id;
              && id.prefix == prefix && id.number >= 1 && (id.number == 1 || Known(s, prefix, records, id.number - 1))
              && forall n: nat | Known(s, prefix, records, n) :: n < id.number
  {
    AloneExactly(s, a, prefix, records);
    forall n
      ensures n in Held(s, prefix, records) <==> Known(s, prefix, records, n)
    {
      HeldExactly(s, prefix, records, n);
    }
  }

  /** A session alone that asks for one identifier gets it exactly where it has four digits, is not on the main branch
      already and no ref of it is there; otherwise it is refused. */
  lemma AskedExactly(s: State, a: Session, id: Identifier, onMain: bool)
    requires PhaseOf(s, a).Idle? && forall other | other in s.refs :: s.refs[other].nonce < s.nonces
    ensures PhaseOf(Run(s, [(a, Ask(id, onMain)), (a, Push), (a, Check)]), a)
            == if !onMain && id.number <= 9999 && id !in s.refs then Returned(id, None) else Refused
  {
    var asked := Do(s, a, Ask(id, onMain));
    var steps: seq<(Session, Step)> := [(a, Ask(id, onMain)), (a, Push), (a, Check)];
    assert steps[1..] == [(a, Push), (a, Check)] && steps[1..][1..] == [(a, Check)] && steps[1..][1..][1..] == [];
    if PhaseOf(asked, a).Trying? {
      var pushed := Do(asked, a, Push);
      assert Run(s, steps) == Run(pushed, [(a, Check)]) == Do(pushed, a, Check);
    } else {
      assert Run(s, steps) == Run(asked, [(a, Check)]) == asked;
    }
  }
}
