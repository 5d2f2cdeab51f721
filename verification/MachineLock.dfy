/** The machine's lock: a turnstile and the runs lock, taken in that order by any number of processes,
    each of which may give up waiting and run without, and may die at any moment. */
module MachineLock {
  import opened Text

  type Process = nat

  datatype Mode = Shared | Exclusive

  /** Where a process is in `run`. `got`: it took the runs lock. `Orphaned`: it died while its command
      ran, and the command runs on without the locks. */
  datatype At =
    | Asking
    | Entering
    | Leaving(got: bool)
    | Running(entered: bool, got: bool)
    | Closing(entered: bool)
    | Orphaned(got: bool)
    | Gone

  /** The two files' locks, and every process started. */
  datatype State = State(
    modes: map<Process, Mode>,
    at: map<Process, At>,
    turnstile: Option<Process>,
    sharing: set<Process>,
    exclusive: Option<Process>)

  datatype Step =
    | Start(mode: Mode)
    | TakeTurnstile
    | GiveUpTurnstile
    | TakeRuns
    | GiveUpRuns
    | OpenTurnstile
    | Finish
    | Close
    | Die
    | Exit

  predicate RunsFree(s: State, mode: Mode) {
    s.exclusive.None? && (mode.Exclusive? ==> s.sharing == {})
  }

  /** Whether the process can make the step: a lock it takes is free for it. A time-out may come at
      any moment it waits. */
  predicate Enabled(s: State, p: Process, step: Step) {
    if step.Start? then p !in s.at
    else
      && p in s.at && p in s.modes
      && match step
         case Start(_) => false
         case TakeTurnstile => s.at[p].Asking? && s.turnstile.None?
         case GiveUpTurnstile => s.at[p].Asking?
         case TakeRuns => s.at[p].Entering? && RunsFree(s, s.modes[p])
         case GiveUpRuns => s.at[p].Entering?
         case OpenTurnstile => s.at[p].Leaving?
         case Finish => s.at[p].Running?
         case Close => s.at[p].Closing?
         case Die => !s.at[p].Orphaned? && !s.at[p].Gone?
         case Exit => s.at[p].Orphaned?
  }

  function Move(s: State, p: Process, at: At): State { s.(at := s.at[p := at]) }

  /** Past the runs lock: a shared one opens the turnstile first, an exclusive one keeps it. */
  function Past(s: State, p: Process, got: bool): State
    requires p in s.modes
  {
    Move(s, p, if s.modes[p].Shared? then Leaving(got) else Running(true, got))
  }

  function Opened(s: State, p: Process): State {
    if s.turnstile == Some(p) then s.(turnstile := None) else s
  }

  /** Closing the file drops whatever lock the process held on it. */
  function Dropped(s: State, p: Process): State {
    s.(sharing := s.sharing - {p}, exclusive := if s.exclusive == Some(p) then None else s.exclusive)
  }

  function Do(s: State, p: Process, step: Step): State
    requires Enabled(s, p, step)
  {
    match step
    case Start(mode) => s.(modes := s.modes[p := mode], at := s.at[p := Asking])
    case TakeTurnstile => Move(s.(turnstile := Some(p)), p, Entering)
    case GiveUpTurnstile => Move(s, p, Running(false, false))
    case TakeRuns =>
      if s.modes[p].Shared? then Past(s.(sharing := s.sharing + {p}), p, true)
        else Past(s.(exclusive := Some(p)), p, true)
    case GiveUpRuns => Past(s, p, false)
    case OpenTurnstile => Move(Opened(s, p), p, Running(true, s.at[p].got))
    case Finish => Move(Dropped(s, p), p, Closing(s.at[p].entered))
    case Close => Move(Opened(s, p), p, Gone)
    case Die => Move(Opened(Dropped(s, p), p), p, if s.at[p].Running? then Orphaned(s.at[p].got) else Gone)
    case Exit => Move(s, p, Gone)
  }

  function Initial(): State { State(map[], map[], None, {}, None) }

  ghost predicate Reachable(s: State, run: seq<(Process, Step)>)
    decreases |run|
  {
    if run == [] then s == Initial()
    else
      var last := run[|run| - 1];
      exists before :: Reachable(before, run[..|run| - 1]) && Enabled(before, last.0, last.1) &&
        s == Do(before, last.0, last.1)
  }

  // --- what every state keeps -------------------------------------------------------------------------------------

  /** Who holds the turnstile, by where it is. */
  predicate Turns(mode: Mode, at: At) {
    match at
    case Entering => true
    case Leaving(_) => true
    case Running(entered, _) => mode.Exclusive? && entered
    case Closing(entered) => mode.Exclusive? && entered
    case _ => false
  }

  predicate Holds(at: At) {
    match at
    case Leaving(got) => got
    case Running(_, got) => got
    case _ => false
  }

  ghost predicate Inv(s: State) {
    s.modes.Keys == s.at.Keys && Shapes(s) && TurnstileHeld(s) && RunsHeld(s)
  }

  ghost predicate Shapes(s: State)
    requires s.modes.Keys == s.at.Keys
  {
    forall p | p in s.at ::
      (s.at[p].Running? && s.at[p].got ==> s.at[p].entered) && (s.at[p].Leaving? ==> s.modes[p].Shared?)
  }

  ghost predicate TurnstileHeld(s: State)
    requires s.modes.Keys == s.at.Keys
  {
    && (forall p | p in s.at :: s.turnstile == Some(p) <==> Turns(s.modes[p], s.at[p]))
    && (s.turnstile.Some? ==> s.turnstile.value in s.at)
  }

  ghost predicate RunsHeld(s: State)
    requires s.modes.Keys == s.at.Keys
  {
    && (forall p | p in s.at :: p in s.sharing <==> s.modes[p].Shared? && Holds(s.at[p]))
    && (forall p | p in s.at :: s.exclusive == Some(p) <==> s.modes[p].Exclusive? && Holds(s.at[p]))
    && s.sharing <= s.at.Keys
    && (s.exclusive.Some? ==> s.sharing == {} && s.exclusive.value in s.at)
  }

  lemma KeepsShapes(s: State, p: Process, step: Step)
    requires s.modes.Keys == s.at.Keys && Shapes(s) && Enabled(s, p, step)
    ensures Do(s, p, step).modes.Keys == Do(s, p, step).at.Keys && Shapes(Do(s, p, step))
  {
  }

  lemma KeepsTurnstile(s: State, p: Process, step: Step)
    requires s.modes.Keys == s.at.Keys && Shapes(s) && TurnstileHeld(s) && Enabled(s, p, step)
    ensures Do(s, p, step).modes.Keys == Do(s, p, step).at.Keys && TurnstileHeld(Do(s, p, step))
  {
  }

  lemma KeepsRuns(s: State, p: Process, step: Step)
    requires s.modes.Keys == s.at.Keys && RunsHeld(s) && Enabled(s, p, step)
    ensures Do(s, p, step).modes.Keys == Do(s, p, step).at.Keys && RunsHeld(Do(s, p, step))
  {
  }

  lemma KeepsInv(s: State, p: Process, step: Step)
    requires Inv(s) && Enabled(s, p, step)
    ensures Inv(Do(s, p, step))
  {
    KeepsShapes(s, p, step);
    KeepsTurnstile(s, p, step);
    KeepsRuns(s, p, step);
  }

  lemma {:induction false} InvAlways(s: State, run: seq<(Process, Step)>)
    requires Reachable(s, run)
    ensures Inv(s)
    decreases |run|
  {
    if run != [] {
      var last := run[|run| - 1];
      var before :| Reachable(before, run[..|run| - 1]) && Enabled(before, last.0, last.1) &&
        s == Do(before, last.0, last.1);
      InvAlways(before, run[..|run| - 1]);
      KeepsInv(before, last.0, last.1);
    }
  }

  /** In every reachable state, time-outs and deaths and all, a command running under a process with the
      exclusive lock runs beside no other command whose process took the lock and lives. */
  lemma ExclusiveRunsAlone(s: State, run: seq<(Process, Step)>, p: Process, q: Process)
    requires Reachable(s, run) && p in s.at && q in s.at && p in s.modes
    requires s.modes[p].Exclusive? && s.at[p].Running? && s.at[p].got && s.at[q].Running? && s.at[q].got
    ensures p == q
  {
    InvAlways(s, run);
    assert s.exclusive == Some(p);
    assert q !in s.sharing;
  }

  lemma OneStep(s: State, run: seq<(Process, Step)>, p: Process, step: Step)
    requires Reachable(s, run) && Enabled(s, p, step)
    ensures Reachable(Do(s, p, step), run + [(p, step)])
  {
    var more := run + [(p, step)];
    assert more[|more| - 1] == (p, step) && more[..|more| - 1] == run;
  }

  /** A process that dies leaves its command running and its locks free: of two exclusive commands, the
      second can run beside the first. */
  lemma DeadRunsBeside(p: Process, q: Process) returns (s: State, run: seq<(Process, Step)>)
    requires p != q
    ensures Reachable(s, run) && p in s.at && q in s.at && q in s.modes
    ensures s.at[p] == Orphaned(true) && s.modes[q].Exclusive? && s.at[q] == Running(true, true)
  {
    s, run := Initial(), [];
    s, run := Stepped(s, run, p, Start(Exclusive));
    s, run := Stepped(s, run, p, TakeTurnstile);
    s, run := Stepped(s, run, p, TakeRuns);
    s, run := Stepped(s, run, p, Die);
    s, run := Stepped(s, run, q, Start(Exclusive));
    s, run := Stepped(s, run, q, TakeTurnstile);
    s, run := Stepped(s, run, q, TakeRuns);
  }

  lemma Stepped(s: State, run: seq<(Process, Step)>, p: Process, step: Step)
          returns (next: State, more: seq<(Process, Step)>)
    requires Reachable(s, run) && Enabled(s, p, step)
    ensures next == Do(s, p, step) && Reachable(next, more)
  {
    next, more := Do(s, p, step), run + [(p, step)];
    OneStep(s, run, p, step);
  }

  // --- who may enter ------------------------------------------------------------------------------------------------

  /** Any number of shared callers run at once, whichever of them began first. */
  lemma {:induction false} SharedRunTogether(ps: set<Process>) returns (s: State, run: seq<(Process, Step)>)
    ensures Reachable(s, run) && s.at.Keys == ps && s.modes.Keys == ps
    ensures forall p | p in ps :: s.at[p] == Running(true, true) && s.modes[p].Shared?
    ensures s.sharing == ps && s.turnstile.None? && s.exclusive.None?
  {
    s, run := Initial(), [];
    if ps != {} {
      var p :| p in ps;
      s, run := SharedRunTogether(ps - {p});
      s, run := Stepped(s, run, p, Start(Shared));
      s, run := Stepped(s, run, p, TakeTurnstile);
      s, run := Stepped(s, run, p, TakeRuns);
      s, run := Stepped(s, run, p, OpenTurnstile);
      assert ps == (ps - {p}) + {p};
    }
  }

  /** When each step is possible: a lock is taken where it is free, a shared one beside other shared ones; a wait can
      be given up at any moment; a process can die whenever it has not ended. */
  lemma EnabledExactly(s: State, p: Process)
    requires p in s.at && p in s.modes
    ensures Enabled(s, p, TakeTurnstile) <==> s.at[p] == Asking && s.turnstile == None
    ensures Enabled(s, p, TakeRuns) <==>
              s.at[p] == Entering && s.exclusive == None && (s.modes[p] == Shared || s.sharing == {})
    ensures Enabled(s, p, GiveUpTurnstile) <==> s.at[p] == Asking
    ensures Enabled(s, p, GiveUpRuns) <==> s.at[p] == Entering
    ensures Enabled(s, p, Die) <==> s.at[p] != Gone && !s.at[p].Orphaned?
  {
  }

  /** A caller that gives up runs its command all the same, without the lock it gave up; a shared one that got past
      the turnstile opens it for the next. */
  lemma GivingUpRuns(s: State, p: Process)
    requires p in s.at && p in s.modes
    ensures s.at[p] == Asking ==> Do(s, p, GiveUpTurnstile) == s.(at := s.at[p := Running(false, false)])
    ensures s.at[p] == Entering && s.modes[p] == Exclusive ==>
              Do(s, p, GiveUpRuns) == s.(at := s.at[p := Running(true, false)])
    ensures s.at[p] == Entering && s.modes[p] == Shared && s.turnstile == Some(p) ==>
              var given := Do(s, p, GiveUpRuns);
              Enabled(given, p, OpenTurnstile)
              && Do(given, p, OpenTurnstile) == s.(at := s.at[p := Running(true, false)], turnstile := None)
  {
    if s.at[p] == Entering && s.modes[p] == Shared && s.turnstile == Some(p) {
      var given := Do(s, p, GiveUpRuns);
      assert Do(given, p, OpenTurnstile).at == s.at[p := Running(true, false)];
    }
  }

  // --- the turnstile -----------------------------------------------------------------------------------------------

  /** Whoever holds a lock stands where it is held. */
  lemma Holders(s: State)
    requires Inv(s)
    ensures forall q | q in s.sharing :: q in s.at && Holds(s.at[q])
    ensures s.exclusive.Some? ==> s.exclusive.value in s.at && Holds(s.at[s.exclusive.value])
    ensures s.turnstile.Some? ==>
            s.turnstile.value in s.at && Turns(s.modes[s.turnstile.value], s.at[s.turnstile.value])
  {
  }

  /** The exclusive lock is only held from inside the turnstile. */
  lemma ExclusiveTurns(s: State)
    requires Inv(s)
    ensures s.exclusive.Some? ==> s.exclusive == s.turnstile && s.at[s.exclusive.value].Running?
  {
    Holders(s);
  }

  /** While a process stands in the turnstile for the exclusive lock, no step adds a shared one. */
  lemma SharingOnlyShrinks(s: State, p: Process, q: Process, step: Step)
    requires Inv(s) && Enabled(s, q, step) && p in s.at && s.modes[p].Exclusive? && s.turnstile == Some(p)
    ensures Do(s, q, step).sharing <= s.sharing
    ensures q != p ==> Do(s, q, step).turnstile == Some(p)
  {
  }

  /** The steps of others alone. */
  ghost predicate Through(s: State, run: seq<(Process, Step)>, p: Process, end: State)
    decreases |run|
  {
    if run == [] then s == end
    else run[0].0 != p && Enabled(s, run[0].0, run[0].1) && Through(Do(s, run[0].0, run[0].1), run[1..], p, end)
  }

  /** Over any run of the others, the processes an exclusive caller waits for only get fewer: it is
      not starved by a stream of shared ones. */
  lemma {:induction false} NotStarved(s: State, run: seq<(Process, Step)>, p: Process, end: State)
    requires Inv(s) && p in s.at && s.modes[p].Exclusive? && s.at[p].Entering? && Through(s, run, p, end)
    ensures Inv(end) && p in end.at && end.at[p].Entering? && end.modes[p].Exclusive?
    ensures end.sharing <= s.sharing && end.exclusive.None?
    ensures end.sharing == {} ==> Enabled(end, p, TakeRuns)
    decreases |run|
  {
    assert s.turnstile == Some(p);
    ExclusiveTurns(s);
    if run != [] {
      KeepsInv(s, run[0].0, run[0].1);
      SharingOnlyShrinks(s, p, run[0].0, run[0].1);
      NotStarved(Do(s, run[0].0, run[0].1), run[1..], p, end);
    }
  }

  // --- progress ----------------------------------------------------------------------------------------------------

  predicate TimesOut(step: Step) { step.GiveUpTurnstile? || step.GiveUpRuns? }

  /** While any process has not gone, one of those started can step, without a time-out and without dying. */
  lemma SomeoneCanStep(s: State, p: Process) returns (q: Process, step: Step)
    requires Inv(s) && p in s.at && !s.at[p].Gone?
    ensures q in s.at && Enabled(s, q, step) && !TimesOut(step) && !step.Start? && !step.Die?
  {
    Holders(s);
    if x :| x in s.at && (s.at[x].Running? || s.at[x].Leaving? || s.at[x].Closing? || s.at[x].Orphaned?) {
      q := x;
      step := if s.at[x].Running? then Finish else if s.at[x].Leaving? then OpenTurnstile
              else if s.at[x].Closing? then Close else Exit;
    } else if x :| x in s.at && s.at[x].Entering? {
      q, step := x, TakeRuns;
    } else {
      assert s.at[p].Asking?;
      q, step := p, TakeTurnstile;
    }
  }
}
