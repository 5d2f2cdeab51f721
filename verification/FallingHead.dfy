/** A head that lies below an earlier one, reached from an empty ledger. */
module FallingHead {
  import opened Text
  import opened Merkle
  import opened Ledger
  import opened Integrity
  import opened Writers
  import opened WriterSafety
  import opened WriterCommit
  import opened Followers
  import opened SoloRuns

  function Empty(): State { State([], Sequence(1, false), map[]) }

  /** A fact for the tenant's chain, and one for a run's. */
  function Plain(run: Option<string>): Fact { Fact("kind", run, false, None, None, "") }

  // --- the head falls -----------------------------------------------------------------------------------------------

  /** A fact is recorded; a writer to a run's chain has read the sequence; another fact is recorded; and a
      session waits to read. */
  function Before(): seq<Action> {
    Recording(1, Plain(None)) + (Opening(2, Plain(Some("r"))) + [ReadSequence(2)]) + Recording(3, Plain(None))
      + [Begin(4)]
  }

  function First(h: Hasher): Entry { Link(h, None, Plain(None), 1) }

  function Second(h: Hasher): Entry { Link(h, Some(First(h)), Plain(None), 2) }

  function Writing(): Tx { Tx(true, [], {"r"}, None, Marking(Plain(Some("r")), None, 1)) }

  function Reading(phase: Phase): Tx { Tx(true, [], {}, None, phase) }

  /** What that leaves, the reading session and the writer where they are. */
  function Standing(h: Hasher, reader: Tx, writer: Tx): State {
    State([First(h), Second(h)], Sequence(2, true), map[2 := writer, 4 := reader])
  }

  lemma OneRecorded(h: Hasher)
    ensures Run(h, Empty(), Recording(1, Plain(None))) == State([First(h)], Sequence(1, true), map[])
  {
    PlainIsNoAnchor();
    RecordingRun(h, Empty(), 1, Plain(None));
    assert Chain([], "") == [];
  }

  lemma PlainIsNoAnchor()
    ensures "kind" != ANCHORED
  {
    assert |"kind"| != |ANCHORED|;
  }

  lemma WriterOpened(h: Hasher)
    ensures Run(h, State([First(h)], Sequence(1, true), map[]), Opening(2, Plain(Some("r"))) + [ReadSequence(2)])
            == State([First(h)], Sequence(1, true), map[2 := Writing()])
  {
    var s, f := State([First(h)], Sequence(1, true), map[]), Plain(Some("r"));
    PlainIsNoAnchor();
    ChainsOfFirst(h);
    OpeningRun(h, s, 2, f);
    RunsCompose(h, s, Opening(2, f), [ReadSequence(2)]);
    SequenceRead(h, s, 2, f);
    assert s.txs[2 := Writing()] == map[2 := Writing()];
  }

  lemma SequenceRead(h: Hasher, s: State, t: nat, f: Fact)
    ensures Run(h, Opened(s, t, f, None), [ReadSequence(t)])
            == With(s, t, Tx(true, [], {ChainFor(f)}, None, Marking(f, None, s.positions.Current())))
  {
    RunOne(h, Opened(s, t, f, None), ReadSequence(t));
    assert DoReadSequence(Opened(s, t, f, None), t).txs
        == s.txs[t := Tx(true, [], {ChainFor(f)}, None, Marking(f, None, s.positions.Current()))];
  }

  lemma ChainsOfFirst(h: Hasher)
    ensures Chain([First(h)], "") == [First(h)] && Chain([First(h)], "r") == []
  {
    assert [First(h)][..0] == [];
    assert ChainName(First(h).body) == "";
    assert |"r"| != |""|;
  }

  lemma TwoRecorded(h: Hasher)
    ensures Run(h, State([First(h)], Sequence(1, true), map[2 := Writing()]), Recording(3, Plain(None)))
            == State([First(h), Second(h)], Sequence(2, true), map[2 := Writing()])
  {
    var s := State([First(h)], Sequence(1, true), map[2 := Writing()]);
    PlainIsNoAnchor();
    assert |"r"| != |""|;
    RecordingRun(h, s, 3, Plain(None));
    ChainsOfFirst(h);
    MergedAfter(First(h), Second(h));
  }

  lemma MergedAfter(e: Entry, f: Entry)
    requires e.body.pos < f.body.pos
    ensures Merge([e], [f]) == [e, f]
  {
    assert [f][..0] == [] && [e] + [f] == [e, f];
  }

  lemma BeforeRun(h: Hasher)
    ensures Run(h, Empty(), Before()) == Standing(h, Reading(Idle), Writing())
  {
    var one, open, two := Recording(1, Plain(None)), Opening(2, Plain(Some("r"))) + [ReadSequence(2)],
      Recording(3, Plain(None));
    OneRecorded(h);
    WriterOpened(h);
    TwoRecorded(h);
    RunsCompose(h, Empty(), one + open + two, [Begin(4)]);
    RunsCompose(h, Empty(), one + open, two);
    RunsCompose(h, Empty(), one, open);
    var s := State([First(h), Second(h)], Sequence(2, true), map[2 := Writing()]);
    RunOne(h, s, Begin(4));
    assert s.txs[4 := Reading(Idle)] == map[2 := Writing(), 4 := Reading(Idle)];
  }

  lemma NewestRead(h: Hasher, writer: Tx)
    ensures DoReadNewest(Standing(h, Reading(Idle), writer), 4) == Standing(h, Reading(Probing(2, 0)), writer)
  {
    NewestIsTwo(h, writer);
    assert DoReadNewest(Standing(h, Reading(Idle), writer), 4).txs == Standing(h, Reading(Probing(2, 0)), writer).txs;
  }

  lemma Probed(h: Hasher, writer: Tx, e: Entry)
    requires e == First(h) || e == Second(h)
    requires writer.marker.Some? ==> e.body.pos <= writer.marker.value
    ensures DoProbe(Standing(h, Reading(Probing(2, 0)), writer), 4, e.body.pos)
            == Standing(h, Reading(Probing(2, e.body.pos)), writer)
  {
    var read := Standing(h, Reading(Probing(2, 0)), writer);
    assert e in View(read, 4);
    assert DoProbe(read, 4, e.body.pos).txs == Standing(h, Reading(Probing(2, e.body.pos)), writer).txs;
  }

  lemma HeadIs(h: Hasher, writer: Tx, e: Entry)
    requires e == First(h) || e == Second(h)
    requires writer.marker.Some? ==> e.body.pos <= writer.marker.value
    ensures Run(h, Standing(h, Reading(Idle), writer), [ReadNewest(4), Probe(4, e.body.pos), Settle(4)])
            == Standing(h, Reading(Headed(e.body.pos)), writer)
  {
    ThreeSteps(h, Standing(h, Reading(Idle), writer), ReadNewest(4), Probe(4, e.body.pos), Settle(4));
    NewestRead(h, writer);
    Probed(h, writer, e);
    var probed := Standing(h, Reading(Probing(2, e.body.pos)), writer);
    assert DoSettle(probed, 4).txs == Standing(h, Reading(Headed(e.body.pos)), writer).txs;
  }

  lemma NewestIsTwo(h: Hasher, writer: Tx)
    ensures Reached(View(Standing(h, Reading(Idle), writer), 4)) == 2
  {
    var none: seq<Entry> := [];
    assert [First(h), Second(h)] + none == [First(h), Second(h)];
    assert [First(h), Second(h)][..1] == [First(h)] && [First(h)][..0] == [];
  }

  /** The head at 2; then the writer takes its marker, at 1. */
  function Between(): seq<Action> { [Drop(4), TakeMarker(2)] }

  lemma BetweenRun(h: Hasher)
    ensures Run(h, Standing(h, Reading(Headed(2)), Writing()), Between())
            == Standing(h, Reading(Idle), Writing().(marker := Some(1), phase := Linking(Plain(Some("r")), None)))
  {
    var s := Standing(h, Reading(Headed(2)), Writing());
    var writer := Writing().(marker := Some(1), phase := Linking(Plain(Some("r")), None));
    assert Between() == [Drop(4)] + [TakeMarker(2)];
    RunsCompose(h, s, [Drop(4)], [TakeMarker(2)]);
    RunOne(h, s, Drop(4));
    assert DoDrop(s, 4).txs == Standing(h, Reading(Idle), Writing()).txs;
    RunOne(h, Standing(h, Reading(Idle), Writing()), TakeMarker(2));
    assert DoTakeMarker(Standing(h, Reading(Idle), Writing()), 2).txs == Standing(h, Reading(Idle), writer).txs;
  }

  /** A session has its head at 2; then, the ledger intact and the same, its head is at 1, and cannot be at 2:
      the writer's marker lies below it. */
  lemma HeadFalls(h: Hasher)
    ensures Initial(h, Empty())
    ensures var first := Run(h, Run(h, Empty(), Before()), [ReadNewest(4), Probe(4, 2), Settle(4)]);
            var fallen := Run(h, first, Between());
            var second := Run(h, fallen, [ReadNewest(4), Probe(4, 1), Settle(4)]);
            && 4 in first.txs && first.txs[4].phase == Headed(2)
            && 4 in second.txs && second.txs[4].phase == Headed(1) && !NoMarkerBelow(fallen, 4, 2)
            && second.rows == first.rows && Report(h, second.rows) == []
  {
    var writer := Writing().(marker := Some(1), phase := Linking(Plain(Some("r")), None));
    EmptyIsInitial(h);
    BeforeRun(h);
    HeadIs(h, Writing(), Second(h));
    BetweenRun(h);
    HeadIs(h, writer, First(h));
    assert Standing(h, Reading(Idle), writer).txs[2].marker == Some(1);
    LedgerAlwaysIntact(h, Empty(), Before());
  }

  lemma EmptyIsInitial(h: Hasher)
    ensures Initial(h, Empty())
  {
    ReportIffIntact(h, []);
  }
}
