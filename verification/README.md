# Taktus, modelled and proved

Taktus runs work for many tenants, writes every fact of it to a hash-chained ledger, and keeps a job
queue, its backups and its contracts honest with a handful of small protocols. This project models
those protocols in Dafny and proves what they are for.

`dafny verify dfyconfig.toml` checks everything.

## What is modelled

**The ledger.** Entries lie on one chain per run and one for the tenant. Anchors on the tenant's chain
carry a Merkle root over the newest entry of every run chain in a window.

- `Merkle` is the tree: sorted leaves, levels halved, an odd node carried up. One root means one
  multiset of heads. `PlainRoot` says the same of a tree that is split from the top, its left half full.
- `Ledger` is the walk of a backup's drill, row by row, with its map of entries not covered yet. The
  walk is a method, and its whole result equals a specification that looks afresh at all earlier entries
  of every row.
- `Integrity` says what an intact ledger is, without a walk, and proves that the walk finds nothing
  exactly in an intact ledger. `PlainLedger` says it entry by entry in the entries' own fields, finding
  by finding, and for a ledger of the rule before the chains.
- `Commitment` proves what a newest hash commits to: the tenant's chain and every run entry the anchors
  cover, and with it what a restored ledger shares with the one that was backed up.
- `Writers` is the concurrent side: any number of transactions, each step on its own (claim a chain,
  read its last entry, read the sequence, take the marker, take the position, append, commit, abort,
  release; read the newest position, probe the markers, settle on a head, and anchor). `Interleaving`,
  `WriterSafety` and `WriterCommit` prove an invariant of all steps, and from it that every interleaving
  leaves an intact ledger. `StableHead` proves that a head is stable and that anchors stay valid.
  `Followers` proves that a reader following it over any rounds misses nothing, and says exactly when a
  later head can lie below an earlier one; `FallingHead` reaches such a head. A projection is then built
  again, and a verification whose checkpoint lies above it reports an intact ledger as not intact.
  `SoloRuns` runs a transaction with no other beside it, and `PlainWriting` says in the fact's fields what
  it records, and which anchor it makes.
- `LedgerDatabase` runs the allocation and the head as the database does, statement by statement with
  other sessions' steps in between, and ties both to the steps. `Markers` is the encoding of a marker in
  a 64-bit advisory lock, and gives exactly the keys and positions it holds for.

Hashing is a pair of functions, a spelling of documents and a digest of texts. Digests have one
length and are not spelled like documents, as in the source. Collision-freedom is asked for only over
the texts that the ledgers compared hash, so the hypothesis is one that real digests can meet.
`Examples` has such functions, and two ledgers with an anchor that meet all that is asked.

**The job queue.** `Jobs` is the job table: due, live, place, the order of a claim, and what each of its
three updates writes. A claim ranks on the snapshot its statement reads and locks the rows as they are,
with any rows locked by others. `ClaimLaws` proves what one claim keeps. `QueueRuns` proves what runs of
every statement by any number of transactions keep, each update of a claim a step of its own, and
`UnitLimits` when over such runs a unit stays within its limit. `JobTable` is the table as a class, with
others' steps between the updates of a claim, and every other statement's condition and update written
out. `PlainClaims` says in the rows' own fields which jobs a claim takes, and what it leaves in each row.
`QueueLaws` says what one statement gives back of another and what it brings about for good. `ClaimOnce`
compares the claim with its predecessor, whose pick was executed again for every row, in whatever order
the table is scanned.

Claims that rank from one snapshot at different instants can pass a unit's limit
(`ClaimLaws.TwoInstantsExceed`). The lock that the adapter takes before a claim with limits excludes
this. It does not exclude that a transaction begun before the latest claim renews a lease which that
claim found run out (`UnitLimits.LateRenewalExceeds`). Such a renewal, while the unit has no place free,
is exactly what takes a unit past its limit under the lock (`UnitLimits.LockKeepsUnitLimit`); every other
late renewal is harmless.

**The classifier of contract changes.** `Compat` is the structural comparison of two JSON schemas, with
Python's equality (`Json`). `Schema` is what a schema accepts, for the keywords it judges and for what
is left unevaluated. A reference is read from the file it stands in, and leads to a place in any file; a
number bounds how many references deep one looks, and `base` gives both readings of a reference that
leads back to itself. `References` shows that where none does, looking deep enough settles the answer.
`CompatMeaning`, `CompatSound` and `CompatTheorem` prove that what is called compatible keeps every
document. `PlainVerdicts` and `PlainSubschemas` say what is called what, keyword by keyword and by the
keywords' names, whatever else of the two objects changed; `Pointers` shows that all that is reported of a
member stands under its pointer.

The theorem is about any set of files closed under references. What stands in the files outside it, and
what is reported of them, does not matter. Within it, `oneOf`, `not`, `if`, match counts and unevaluated
keywords may stand wherever they did not change, with references to what did not change.
`CompatExamples` has such files.

The claim in the source's documentation, that a compatible change accepts everything accepted before,
does not hold of the code without restrictions. `CompatLimits`, `CompatCounts`, `CompatFiles` and
`CompatBehind` give changes for which it fails: each lemma states what the classifier reports, and exactly when a document is
lost. `CompatPrecision` shows where the classifier is exactly right, and where it calls breaking what loses
nothing. Code and documentation disagree in these cases, and the model follows the code:

- a property added to a node that does not refuse unlisted names is compatible, whatever its schema;
- a positional subschema dropped beside `items` is compatible;
- `contains: true` added is not reported at all, and refuses the empty array;
- `minContains: 0` removed is compatible, and then one match is asked for;
- `contains` widened under `maxContains` is reported as the widening by itself is;
- a branch gained by `oneOf` is compatible, and a branch widened in place is reported as the widening by
  itself is, though a document another branch accepted is then accepted twice;
- `additionalProperties: true` removed beside `unevaluatedProperties` is not reported, though what it
  had evaluated is then left to the other keyword;
- a `const` that changes from `true` to `1` is not reported, since Python calls the two equal; one that
  changes to `null` is reported as removed;
- an `enum` with the same values in another order is breaking, though it loses nothing;
- a `not` or an `if` that refers to a changed schema is itself unchanged: under a `not`, a changed bound
  on a number is called breaking exactly where nothing is lost;
- a `oneOf`, a counted `contains` or an unevaluated keyword that depends on a changed schema by reference is
  itself unchanged too;
- a schema retired for its successor, and a file that becomes `true`, are compatible while others still
  refer to it.

**The smaller protocols.** `Retention` and `BackupStore` are the backups' retention with the pruning of
the write-ahead log. `Reserve` and `Remote` are the reservation of register numbers by creating refs.
`MachineLock` is the turnstile lock, time-outs included, with processes that die while their command
runs on. `Lanes` is the selection of tests by the reverse closure of imports.

Another disagreement is in the reservations: a number of five digits is created as a ref but never
listed. A session whose snapshot holds 9999 therefore gives up after creating fifty refs nobody else
held. `Reserve.AloneExactly` says exactly when.

## Model

| member | source | states |
|---|---|---|
| `Merkle.NextLevel` | deploy/backup/backup.py:723-730 | one level of the loop is the recursive halving: neighbours hashed together, an odd last node carried up |
| `Merkle.MerkleRoot` | deploy/backup/backup.py:715-731 | the loop ends, and returns the root of the sorted heads, none for no head |
| `Merkle.InOrderUnique` | deploy/backup/backup.py:719 | two sorted lists with the same heads are the same list, so the root does not depend on the order heads are found in |
| `Merkle.RootOfMultiset` | deploy/backup/backup.py:715-731 | lists of the same heads in any order have one root |
| `Merkle.DigestInjective` | deploy/backup/backup.py:717-731 | trees of any shapes with one digest at the top are one tree, where nothing hashed collides |
| `Merkle.RootInjective` | deploy/backup/backup.py:715-731 | two lists of heads of any two sizes have one root only if they hold the same heads |
| `PlainRoot.RootOfAscending` | deploy/backup/backup.py:715-731 | the root of heads given in the order of their chains is that of the tree split from the top, the left part of each split the largest power of two |
| `Ledger.CoveredHeads` | deploy/backup/backup.py:785-790 | the heads the walk takes from its pending entries for an anchor are the newest of each run chain in the window |
| `Ledger.VerifyLedger` | deploy/backup/backup.py:746-811 | the walk's findings, newest head and noted hashes are those of a specification that recomputes each row from all earlier ones, so pruning the pending entries loses nothing |
| `Integrity.AnchorsHoldSnoc` | deploy/backup/backup.py:780-801 | one more entry keeps every anchor before it valid, and is without an anchor finding exactly where it is no anchor or a valid one |
| `Integrity.ReportIffIntact` | deploy/backup/backup.py:746-811 | the walk finds nothing exactly where positions rise, the old rule comes first, every chain is linked from place 1, hashes match, and each anchor's root is the root over its window |
| `PlainLedger.ChainExactly` | deploy/backup/backup.py:706-713 | an entry is on a run's chain exactly where it has a place of its own, is not marked for the tenant's chain, and is of that run |
| `PlainLedger.CoversExactly` | deploy/backup/backup.py:785-790 | the root an anchor is held to is the root over the newest entry of each run in the window, in the order of the runs |
| `PlainLedger.ReportExactly` | deploy/backup/backup.py:746-811 | the walk finds nothing exactly where, of every entry, the position is above all before it, the old rule comes first, the hash is right, the place and the link are next after the newest entry together with it, and an anchor reaches at least as far as the newest before it and carries the root over what lies between |
| `PlainLedger.OldRuleExactly` | deploy/backup/backup.py:706-811 | of entries of the rule before the chains, whatever runs they are of, it finds nothing exactly where positions are 1, 2, and so on, each entry names the hash of the one before it, and its own is right |
| `PlainLedger.FindingsExactly` | deploy/backup/backup.py:746-779 | each finding on an entry's position, rule, place, link and hash, with what it names, and exactly when it is reported |
| `PlainLedger.NewestHeadExactly` | deploy/backup/backup.py:746-811 | the head found is the first entry that no other is above |
| `PlainLedger.HashesExactly` | deploy/backup/backup.py:746-811 | the hash noted at a position asked for is that of the last entry that has it |
| `PlainLedger.HeldExactly` | deploy/backup/backup.py:814-826 | a restored ledger fails its manifest exactly where the head of then is not among the hashes or is another, or the exact head is not its newest |
| `Commitment.ChainUnwinds` | deploy/backup/backup.py:773-779 | one hash at two places of two chains means one place and one chain up to it |
| `Commitment.WindowCommits` | deploy/backup/backup.py:784-801 | a shared anchor commits both ledgers to the same run entries of its window |
| `Commitment.AnchoredCommitment` | deploy/backup/backup.py:706-811 | a newest tenant-chain hash found in another intact ledger commits both to one tenant chain up to it and to the same run entries up to the newest anchor's bound |
| `Commitment.SameTenantHead` | deploy/backup/backup.py:706-811 | two ledgers without findings and with one newest tenant-chain hash have the same tenant chain, the same bound, and the same run entries at or below it |
| `Commitment.RestoredHistory` | deploy/backup/backup.py:746-826 | with no finding and no failure against the manifest, the chain of the manifest's head is restored as it was, with the run entries its anchors cover; with an exact head, the newest entry is the original's |
| `Examples.DifferentLedgersMeet` | deploy/backup/backup.py:695-703 | a spelling of documents, a digest and two different ledgers with an anchor meet all that the commitment asks, so its conditions can be met |
| `Writers.NextIsAboveCurrent` | migrations/versions/0091_ledger_chains_per_run.py:226-250 | a position taken lies above every marker read before it |
| `Interleaving.MergeMembers` | src/taktus/adapters/driven/postgres/ledger_store.py:148-155 | a commit loses no entry and adds none but the transaction's |
| `Interleaving.MergeRises` | src/taktus/adapters/driven/postgres/ledger_store.py:148-155 | and leaves the ledger in the order of its positions, where neither side shares one with the other |
| `Interleaving.MergeChain` | src/taktus/adapters/driven/postgres/ledger_store.py:78-98 | a commit puts a transaction's entries at the end of each chain it holds |
| `WriterSafety.MarkersBound` | migrations/versions/0091_ledger_chains_per_run.py:232-272 | a head no marker lies below, probed after the newest position was read, has no open position at or below it |
| `WriterSafety.KeepsTakeMarker` | migrations/versions/0091_ledger_chains_per_run.py:244-249 | taking a marker, with other transactions between it and the read before it, keeps the invariant |
| `WriterSafety.KeepsNextValue` | migrations/versions/0091_ledger_chains_per_run.py:250 | taking a position keeps the invariant |
| `WriterSafety.KeepsMakeRoot` | src/taktus/components/ledger/application/service/chained_ledger.py:81-96 | a root read from the committed heads of a stable window keeps the invariant |
| `WriterCommit.LinkFacts` | src/taktus/components/ledger/domain/model/chain.py:55-102 | a linked entry is on the chain of its fact, at the next place, with the previous hash and its own |
| `PlainWriting.RecordedPlainly` | src/taktus/components/ledger/application/service/chained_ledger.py:63-69 | a fact recorded alone is one entry more: the fact's, with the next position and its own hash, next on its chain, and on the tenant's exactly where it is of no run or must stand in the tenant's order |
| `PlainWriting.AnchorPlainly` | src/taktus/components/ledger/application/service/chained_ledger.py:71-98 | an anchor made alone, where some run's entry lies above the last bound: one entry more on the tenant's chain, reaching to the newest, with the root over what lies between |
| `PlainWriting.RootOnlyOverEntries` | src/taktus/components/ledger/application/service/chained_ledger.py:84-89 | a session goes on to write an anchor exactly where some run's entry it sees lies in the window |
| `WriterCommit.KeepsCommit` | src/taktus/adapters/driven/postgres/ledger_store.py:48-98 | a commit keeps the invariant of the committed ledger and of every other open transaction |
| `WriterCommit.Keeps` | src/taktus/components/ledger/application/service/chained_ledger.py:63-96 | every step of every transaction keeps the invariant |
| `WriterCommit.LedgerAlwaysIntact` | deploy/backup/backup.py:746-811 | after any interleaving of writers and anchorers, aborted or committed, the walk finds nothing in the committed ledger |
| `StableHead.SealedAlways` | migrations/versions/0091_ledger_chains_per_run.py:232-272 | once every entry at or below a bound is in view and no open position lies below it, so it stays over every run |
| `StableHead.NothingBelowTheHead` | src/taktus/adapters/driven/postgres/ledger_store.py:259-287 | from any state the invariant holds in, no entry at or below a session's head that it did not see is committed later |
| `StableHead.HeadIsStable` | src/taktus/adapters/driven/postgres/ledger_store.py:259-287 | the same in every run from an intact ledger |
| `StableHead.AnchorsStayValid` | deploy/backup/backup.py:780-803 | whatever is committed after an anchor, its window and its root stay as they were |
| `StableHead.AnchorsAreForEver` | deploy/backup/backup.py:780-803 | the same in every run from an intact ledger |
| `Followers.FollowerMissesNothing` | src/taktus/components/ledger/application/service/chained_ledger.py:123-136 | over any number of rounds of taking a head and reading up to it at any later moment, the heads rising or falling, a reader that builds its projection again at a lower head, or waits for a higher one, has read exactly the entries up to where it stands, in every later state |
| `Followers.StandsAt` | src/taktus/components/ledger/application/service/chained_ledger.py:123-136 | the one stands at the last of its heads, the other at the highest |
| `Followers.HeadHoldsExactly` | migrations/versions/0091_ledger_chains_per_run.py:238-272 | no marker will ever lie below a position handed out, so that no later head falls below an entry committed there, exactly where none does now and no other session stands between its reading of the sequence, below that position, and its marker |
| `Followers.HeadKeepsUp` | src/taktus/adapters/driven/postgres/ledger_store.py:259-287 | from such a state on, a session that looks at an entry committed by then, at or below the newest it read, has a head no lower |
| `FallingHead.HeadFalls` | src/taktus/components/ledger/application/service/chained_ledger.py:142-153 | a run from an empty ledger after which a session's head is 2 and then, the ledger the same and intact, 1 |
| `Markers.ReadsBackExactly` | migrations/versions/0091_ledger_chains_per_run.py:247-269 | a marker is read back as its tenant's with its bound exactly where the position fits 40 bits and the key 23 |
| `Markers.OtherTenantUnread` | migrations/versions/0091_ledger_chains_per_run.py:268-269 | a marker of one tenant is never read as another's |
| `Markers.OpenBelow` | migrations/versions/0091_ledger_chains_per_run.py:257-271 | the least bound among the tenant's markers of other sessions, none where there is none |
| `Markers.OpenBelowPlainly` | migrations/versions/0091_ledger_chains_per_run.py:257-271 | over any locks taken, what is read is the smallest bound of the tenant's markers of other sessions, the session's own left out, and nothing exactly where there is none |
| `LedgerDatabase.Database.LedgerAllocate` | migrations/versions/0091_ledger_chains_per_run.py:238-251 | with other sessions' steps between its statements, an allocation is the run of its steps: the marker once, at the sequence's value as read first, and then a position above it |
| `LedgerDatabase.Database.Head` | src/taktus/adapters/driven/postgres/ledger_store.py:259-287 | with other sessions' steps between its two statements, and within the second between its snapshot and its reading of the markers, the head is the run of its steps, and the newest entry of that snapshot at or below the first's newest that no marker of another session lies below |
| `LedgerDatabase.HeadRun` | src/taktus/adapters/driven/postgres/ledger_store.py:277-287 | from the reading of the markers on, probing and settling end at the head probed |
| `Jobs.TakenExactly` | migrations/versions/0092_org_units.py:102-116 | a claim takes jobs ranked and open, at most its batch, none twice, and leaves one only if its batch is full and everything taken comes before it |
| `PlainClaims.TakenPlainly` | migrations/versions/0092_org_units.py:81-116 | a claim takes a job exactly where its row is available, has attempts left, and is neither held nor leased, it stands within its unit's limit in the snapshot, it is free and the same job still, and fewer such jobs than the batch come sooner, by standing, age and id |
| `PlainClaims.UnlimitedPlainly` | migrations/versions/0092_org_units.py:44-54 | without limits or locks, and with a batch as large as the table, exactly the jobs whose fields allow it, a hold over at its time included |
| `PlainClaims.WrittenPlainly` | migrations/versions/0092_org_units.py:117-142 | every row after a claim, whatever rows its last update finds locked: a job taken is its claimant's, one attempt more; of any other only the wait is written, exactly where it may run, does not wait and its unit occupies its limit |
| `ClaimLaws.RankedCount` | migrations/versions/0092_org_units.py:89-107 | a unit's jobs within its limit are no more than its free places |
| `ClaimLaws.UnitLimitKept` | migrations/versions/0092_org_units.py:81-123 | however many claims rank from one snapshot, at instants at which it shows the same jobs of a unit due and live, the unit's live claims end at most at the larger of its limit and what it held |
| `ClaimLaws.TwoInstantsExceed` | migrations/versions/0092_org_units.py:81-123 | at instants between which a job comes due they do not: two claims of one snapshot, 15 and 25, are both live under a limit of one |
| `ClaimLaws.ClaimKeepsLimit` | migrations/versions/0092_org_units.py:81-123 | one claim whose snapshot shows no less of a unit than the rows hold takes it, at any later instant, no further than its limit, or than it held |
| `ClaimLaws.OneSnapshotExactly` | migrations/versions/0092_org_units.py:81-123 | claims that rank from one snapshot at given instants keep a unit within a bound, whatever their batches, claimants and locks, exactly where its live claims and the jobs ranked for it at any of the instants are within the bound together |
| `ClaimLaws.HeldAfter` | migrations/versions/0092_org_units.py:117-123 | a unit holds after a claim what it held and what it got, nothing counted twice |
| `ClaimLaws.FairShare` | migrations/versions/0092_org_units.py:78-116 | a unit that got a job holds at most one more than any unit left with a job within its limit |
| `ClaimLaws.NothingLeftToRun` | migrations/versions/0092_org_units.py:102-116 | a claim that does not fill its batch leaves only due jobs whose units now hold their limit |
| `ClaimLaws.QuotaWaits` | migrations/versions/0092_org_units.py:117-142 | the row of every job after a claim: a job taken waits no more; any other, its wait cleared where the claimant claimed it at this instant before, waits since now where it is due, its unit is at its limit and it did not wait; else it is as it was |
| `ClaimLaws.EveryWaitBooked` | migrations/versions/0092_org_units.py:128-142 | after a claim that does not fill its batch, every due job left waits, since now or since before |
| `QueueRuns.OnlyDueJobsTaken` | migrations/versions/0092_org_units.py:44-54 | whatever its snapshot and whatever is locked, a claim takes at most its batch and no job leased, held, not yet available, at its limit of attempts, or fenced by another |
| `QueueRuns.AttemptsNeverExceeded` | migrations/versions/0012_deferral.py:33-54 | over every run, with old and new claims mixed, attempts less deferrals never pass the limit |
| `QueueRuns.SupersededForEver` | src/taktus/adapters/driven/postgres/queue.py:123-135 | once another claim of a job was taken, the earlier claim's fence is refused for as long as the job lives |
| `QueueRuns.FencedUntilTheEnd` | src/taktus/adapters/driven/postgres/queue.py:123-135 | from a fence to the end of its transaction the job names the claim, whatever others do |
| `QueueRuns.PassedClaimIsHeld` | src/taktus/adapters/driven/postgres/queue.py:203-224 | a claim passed to a take-over stays the holder's through every claim made before its time, and the runner's fence is refused |
| `PlainClaims.PassedIsClaimable` | migrations/versions/0092_org_units.py:44-54 | a job passed to a take-over, over every run of others before its time, is taken by a later claim exactly where that time has come, it is available and has attempts left |
| `UnitLimits.RenewalExactly` | src/taktus/adapters/driven/postgres/queue.py:107-121 | what a renewal adds to what its unit holds at any instant: one where it revives a lease that has run out by then, one less where it sets a live one back to have run out, else nothing |
| `UnitLimits.ClaimExactly` | migrations/versions/0092_org_units.py:81-123 | a claim keeps a unit within a bound, whatever its batch and whatever else is locked, exactly where what the unit holds and what is ranked for it and still to be had are within the bound together |
| `UnitLimits.WithinExactly` | migrations/versions/0092_org_units.py:81-123 | over every run whose claims rank on snapshots that show no less of a unit than it holds, or cannot pass the bound with any batch, in any order of their instants: the unit stays within a bound throughout exactly where every renewal that revives a lease the latest claim found run out comes while a place is free |
| `UnitLimits.UnitLimitOverRuns` | migrations/versions/0092_org_units.py:81-123 | where they do, the unit ends, at any instant from the latest claim on, with no more than its limit, or than it held at the start |
| `UnitLimits.SnapshotCovers` | src/taktus/adapters/driven/postgres/queue.py:80-105 | as long as no one claims a job of the unit, and no renewal revives a lease of it run out at an instant, it holds no more at that instant than a snapshot taken before shows |
| `UnitLimits.LockKeepsUnitLimit` | src/taktus/adapters/driven/postgres/queue.py:80-105 | where every claim of the unit's jobs asks for its one limit under the lock, and none is spoilt by a lease revived between its snapshot and its update: throughout the run the unit holds, at the instant of the latest claim, no more than its limit, or than it held at the start, exactly where every renewal that revives a lease that claim found run out comes while a place is free |
| `UnitLimits.LateRenewalExceeds` | src/taktus/adapters/driven/postgres/queue.py:107-121 | a renewal whose transaction began before the latest claim, of a lease which that found run out, makes two live claims under a limit of one |
| `QueueLaws.ClaimIsALease` | migrations/versions/0003_lease.py:14-19 | a job claimed is claimable again exactly once its lease has run out, while it has attempts left |
| `QueueLaws.LeaseIsExclusive` | src/taktus/adapters/driven/postgres/queue.py:107-121 | a job claimed, or a live claim renewed, is the claimant's for a whole lease: through every run whose claims come before its end its fence holds, unless the claimant gives the job up |
| `QueueLaws.ReleasedIsClaimable` | src/taktus/adapters/driven/postgres/queue.py:137-143 | a claim released makes the job claimable at once, one attempt spent |
| `QueueLaws.DeferredSpendsNothing` | migrations/versions/0012_deferral.py:8-13 | a claim deferred spends no attempt, and the job is claimable exactly from its time on |
| `QueueLaws.PassedSpendsNothing` | src/taktus/adapters/driven/postgres/queue.py:203-224 | a claim passed to a take-over spends no attempt, neither the runner's nor the holder's |
| `QueueLaws.FirstAskerOnly` | src/taktus/adapters/driven/postgres/queue.py:166-180 | over every run, until the asker withdraws, the claim is passed to it or the job is completed, a later asker is refused and the claim is passed to no one else |
| `QueueLaws.CompletedIsGone` | src/taktus/adapters/driven/postgres/queue.py:158-164 | a completed job is gone over every run until its id is enqueued again: no claim takes it, even from a snapshot that still shows it, and no fence holds |
| `JobTable.Table.Claim` | migrations/versions/0092_org_units.py:81-145 | takes exactly the jobs whose fields allow it, within their units' limits, that fewer such jobs than the batch come sooner than; with others' steps between its three updates, it leaves the table the run of its steps leaves |
| `JobTable.Undisturbed` | migrations/versions/0092_org_units.py:81-145 | with nothing in between, that is the claim of the laws of one claim |
| `JobTable.Table.ClaimOldest` | migrations/versions/0092_org_units.py:57-77 | the claim of four arguments takes exactly the jobs whose fields allow it, the oldest first, within its batch: each is the claimant's from now on, one attempt more, its hold gone; every other row is as it was |
| `JobTable.Table.Enqueue` | src/taktus/adapters/driven/postgres/queue.py:62-78 | an id is enqueued once, a job available from now on and nobody's, with the attempts it brings; a second time is refused and changes nothing |
| `JobTable.Table.Extend` | src/taktus/adapters/driven/postgres/queue.py:107-121 | renews exactly the claimant's own claim that is no longer ago than a lease, is not a take-over's, and that no other transaction has fenced |
| `JobTable.Table.Fence` | src/taktus/adapters/driven/postgres/queue.py:123-135 | holds exactly where the job names the claimant and the attempt, and then shares the row until the transaction ends |
| `JobTable.Table.End` | src/taktus/adapters/driven/postgres/queue.py:123-135 | the end of a transaction frees exactly the rows it had fenced |
| `JobTable.Table.Release` | src/taktus/adapters/driven/postgres/queue.py:137-143 | gives the holder's claim back, its hold with it |
| `JobTable.Table.Defer` | src/taktus/adapters/driven/postgres/queue.py:145-156 | gives the holder's claim back for later, counted as a deferral, its hold kept |
| `JobTable.Table.Complete` | src/taktus/adapters/driven/postgres/queue.py:158-164 | deletes the job exactly where the claimant holds it |
| `JobTable.Table.AskTakeover` | src/taktus/adapters/driven/postgres/queue.py:166-180 | only the first asker succeeds, and only while a runner holds the job |
| `JobTable.Table.Withdraw` | src/taktus/adapters/driven/postgres/queue.py:195-201 | withdraws the asker's own request, and no other's |
| `JobTable.Table.PassClaim` | src/taktus/adapters/driven/postgres/queue.py:203-224 | moves exactly the claim named to the holder asked for, as a new attempt that counts as none |
| `ClaimOnce.PerRowTakesOnce` | migrations/versions/0010_claim_once.py:6-15 | with its pick executed again for every row, in whatever order the table is scanned, a claim takes all that the pick executed once takes |
| `ClaimOnce.PerRowTakesEverything` | migrations/versions/0010_claim_once.py:6-15 | scanned by age, and whatever its batch, it takes every due job |
| `ClaimOnce.SameOnlyWithinBatch` | migrations/versions/0010_claim_once.py:31-72 | the two take the same jobs in every order of the scan exactly where the due jobs fit the batch |
| `Json.PyEqArr` | tools/contract_compat.py:151-154 | two lists are equal exactly where they are as long and equal place by place |
| `Json.PyEqObj` | tools/contract_compat.py:151-154 | two objects are equal exactly where they have the same members, equal name by name, in any order |
| `Json.PyEqScalar` | tools/contract_compat.py:151-154 | of what is neither a list nor an object, only a boolean equals what is not the same: `true` 1, and `false` 0 |
| `Json.PunnedExactly` | tools/contract_compat.py:151-154 | of two values equal to Python, they are the same value exactly where no boolean meets a number |
| `Compat.KeywordsRecognised` | tools/contract_compat.py:64-104 | the keyword lists meet what the theorems ask of a reading of keywords: each keyword looked up by name is read as itself, and nothing else is |
| `Pointers.FoundAtKey` | tools/contract_compat.py:164-167 | what two objects' comparison reports under a member is what that member's change reports, and nothing else stands there |
| `PlainVerdicts.AnnotationVerdict` | tools/contract_compat.py:172-173 | a changed `title`, `description`, `$comment`, `examples`, `default`, `deprecated`, `readOnly` or `writeOnly`: one compatible finding at it, whatever else changed |
| `PlainVerdicts.IdentityVerdict` | tools/contract_compat.py:174-175 | a changed `$id`, `$schema`, `$anchor`, `$dynamicAnchor`, `$ref` or `$dynamicRef`, and a changed `if` or `not`: one breaking finding at it |
| `PlainVerdicts.UnlistedVerdict` | tools/contract_compat.py:217-218 | a change of any name that is not listed: one breaking finding at it |
| `PlainVerdicts.ConstraintVerdict` | tools/contract_compat.py:205-209 | a changed `pattern`, `format`, `multipleOf`, `contentEncoding` or `const`: breaking exactly where it is not removed |
| `PlainVerdicts.UniqueItemsVerdict` | tools/contract_compat.py:210-214 | a changed `uniqueItems`: breaking exactly where it is set to something that is not false, zero or empty |
| `PlainVerdicts.LowerVerdict` | tools/contract_compat.py:268-275 | a changed minimum of any kind: breaking exactly where it is added or raised |
| `PlainVerdicts.UpperVerdict` | tools/contract_compat.py:268-275 | a changed maximum of any kind: breaking exactly where it is added or lowered |
| `PlainVerdicts.SetVerdict` | tools/contract_compat.py:131-148 | a changed `type` or `enum`: compatible exactly where it is removed, or admits all it admitted and more |
| `PlainVerdicts.RequiredVerdict` | tools/contract_compat.py:182-186 | a changed `required`: breaking, and reported exactly where some property is required on one side only |
| `PlainVerdicts.DependentRequiredVerdict` | tools/contract_compat.py:187-192 | a changed `dependentRequired`: breaking, at each name exactly where its list differs |
| `PlainSubschemas.NameRemovedVerdict` | tools/contract_compat.py:224-226 | a property or a definition removed: one breaking finding at its name |
| `PlainSubschemas.NameAddedVerdict` | tools/contract_compat.py:227-228 | one added: one compatible finding at its name |
| `PlainSubschemas.NameKeptVerdict` | tools/contract_compat.py:229-230 | one on both sides: there stands the comparison of the two |
| `PlainSubschemas.SubschemaVerdict` | tools/contract_compat.py:195-198 | of each keyword that holds one schema, there stands the comparison of the two, `true` for one that is absent |
| `PlainSubschemas.BooleanVerdict` | tools/contract_compat.py:153-160 | two schemas one of which is a boolean: breaking exactly where everything was admitted or nothing is now |
| `PlainSubschemas.NoSchemaVerdict` | tools/contract_compat.py:161-163 | what is no schema on one side: one breaking finding |
| `PlainSubschemas.AlternativesVerdict` | tools/contract_compat.py:259-263 | `anyOf` or `oneOf` on one side only: breaking exactly where it is added |
| `PlainSubschemas.GainedVerdict` | tools/contract_compat.py:252-254 | more subschemas at a list's end: one finding at the place of each, breaking exactly in `allOf` and `prefixItems` |
| `PlainSubschemas.LostVerdict` | tools/contract_compat.py:249-251 | fewer at its end: one finding at the place of each, breaking exactly in `anyOf` and `oneOf` |
| `PlainSubschemas.FileVerdict` | tools/contract_compat.py:287-296 | a file on one side only: one finding, breaking exactly where it is gone and no higher major version of it is there |
| `PlainSubschemas.FileKeptVerdict` | tools/contract_compat.py:297-298 | a file on both sides: there stands the comparison of the two |
| `Compat.RemoveMatched` | tools/contract_compat.py:242-248 | the removal in place leaves what the specification leaves: each old subschema takes its first equal |
| `CompatOrder.UnmatchedIsDifference` | tools/contract_compat.py:242-248 | the removal leaves on each side exactly what the other side lacks, with multiplicities |
| `CompatOrder.RearrangedIffMatched` | tools/contract_compat.py:242-248 | nothing is left on either side exactly where one list rearranges the other |
| `CompatOrder.RearrangedIsSilent` | tools/contract_compat.py:233-265 | a combination whose subschemas stand in any other order is not reported |
| `CompatSound.SetWidens` | tools/contract_compat.py:131-148 | a silent `type` or `enum` admits at least what it admitted |
| `CompatSound.BoundLoosens` | tools/contract_compat.py:268-275 | a silent bound was there and is no tighter |
| `CompatSound.RequiredKept` | tools/contract_compat.py:182-186 | a silent `required` names exactly the same properties |
| `CompatSound.NamesKept` | tools/contract_compat.py:221-230 | a silent list of properties or definitions keeps each name, compared, and adds a property only where the old node refused unlisted names |
| `CompatSound.AllOfCovered` | tools/contract_compat.py:233-265 | every new branch of a silent `allOf` has an old one at least as narrow |
| `CompatSound.AnyOfCovered` | tools/contract_compat.py:233-265 | every old branch of a silent `anyOf` has a new one at least as wide |
| `CompatSound.PrefixKept` | tools/contract_compat.py:233-256 | silent positional subschemas are no more than before, compared place by place, and fewer only without `items` |
| `CompatMeaning.SameAccepts` | tools/contract_compat.py:151-154 | a schema whose references are answered alike in two sets of files accepts the same documents in both |
| `References.Congruent` | tools/contract_compat.py:278-298 | so an unchanged schema that refers, through any number of references, to nothing that changed accepts the same documents |
| `References.DepthSettles` | tools/contract_compat.py:278-298 | where references do not come back to themselves, looking deeper than they are long gives one answer, whatever an endless chain would be taken to answer |
| `CompatTheorem.ReferenceWidens` | tools/contract_compat.py:278-298 | a reference, read from its file, that led to a schema leads to one at least as wide |
| `CompatTheorem.Sound` | tools/contract_compat.py:151-275 | a document the old schema accepts, a schema compared in silence accepts, by induction over all keywords and through references |
| `CompatTheorem.CompatibleKeepsDocuments` | tools/contract_compat.py:278-298 | for any set of files closed under references: with no breaking change and none of the kinds it misjudges in them, every document one of them accepted, the file at its path accepts |
| `CompatTheorem.CompatibleTreeKeepsDocuments` | tools/contract_compat.py:278-298 | the same where the whole report has no breaking change and none of those kinds |
| `CompatPrecision.BoundExactly` | tools/contract_compat.py:268-275 | a changed bound on a number is called compatible exactly where it keeps every document |
| `CompatPrecision.EnumExactly` | tools/contract_compat.py:138-148 | a changed `enum` keeps every document exactly where it admits all it admitted, and is silent exactly where Python calls the lists equal or more is admitted |
| `CompatPrecision.BoundMeans` | tools/contract_compat.py:78-85 | what each bound asks of a value, by its name: of numbers, of lengths of texts, of items, and of members |
| `CompatExamples.LoosenedBehindReference` | tools/contract_compat.py:278-298 | a maximum raised behind a reference, beside a `oneOf` and an `if` of another reference and among any other files, meets all the theorem asks, so its conditions can be met |
| `CompatLimits.ConstExactly` | tools/contract_compat.py:205-209 | a changed `const` keeps every document exactly where it is the same value, and is silent exactly where Python calls the two equal or the new one is null |
| `CompatLimits.ConstTrueBecomesOne` | tools/contract_compat.py:153-154 | `true` changed to `1` yields no finding, and a document is lost |
| `CompatLimits.AddedPropertyAnywhere` | tools/contract_compat.py:227-228 | in any node, a property added that the node does not refuse by name is reported as compatible, and every document is kept exactly where the node's documents give that name only values its schema accepts |
| `CompatLimits.AddedPropertyExactly` | tools/contract_compat.py:227-228 | in a node of only these two keywords that is exactly where its schema accepts every value the node let an unlisted name have |
| `CompatLimits.ShortenedPrefixExactly` | tools/contract_compat.py:249-251 | in a node of only these two keywords, a positional subschema dropped is reported as compatible, and keeps every document exactly where `items` accepts what it did, or an earlier position accepts nothing |
| `CompatLimits.ContainsTrueExactly` | tools/contract_compat.py:195-198 | `contains: true` added to any node yields no finding, and keeps every document exactly where the node refused the empty array |
| `CompatLimits.LostEvaluationExactly` | tools/contract_compat.py:195-198 | in a node of only these two keywords, `additionalProperties` removed beside `unevaluatedProperties` is reported as admitting more, or not at all, and keeps every document exactly where what it had accepted the other accepts |
| `CompatCounts.LostMinimumExactly` | tools/contract_compat.py:268-270 | in a node of only these two keywords, `minContains` removed is reported as compatible, and keeps every document exactly where it asked for more than none |
| `CompatCounts.WidenedUnderMaximumExactly` | tools/contract_compat.py:195-198 | in a node of only these two keywords, `contains` widened under a `maxContains` of one or more is reported as the widening by itself is, and keeps every document exactly where it was not widened |
| `CompatCounts.GainedBranchExactly` | tools/contract_compat.py:252-254 | in a node of only this keyword, a branch gained by `oneOf` is reported as compatible, and keeps every document exactly where it accepts none accepted before |
| `CompatCounts.WidenedBranchExactly` | tools/contract_compat.py:242-256 | in a node of only this keyword, a `oneOf` branch widened in place is reported as the widening by itself is, and keeps every document exactly where the wider branch accepts none that another accepted alone |
| `CompatCounts.WidenedBranchLoses` | tools/contract_compat.py:242-256 | either at most 5 or at least 6, changed to at most 7 or at least 6: only a loosened bound is reported, and 6.5 is lost |
| `CompatFiles.NotThroughReferenceExactly` | tools/contract_compat.py:215-216 | a file of an unchanged `not` of a reference adds nothing to the report of the file referred to, and keeps every document exactly where that one accepts nothing new |
| `CompatFiles.NotThroughBoundReversed` | tools/contract_compat.py:215-216 | for a bound on a number behind it: the change is called breaking exactly where every document is kept |
| `CompatFiles.IfThroughReferenceExactly` | tools/contract_compat.py:215-216 | a file of an unchanged `if` of a reference adds nothing to the report of the file referred to, and keeps every document exactly where one that the change sends to the other alternative is accepted there as well |
| `CompatBehind.OneOfThroughReferenceExactly` | tools/contract_compat.py:233-265 | a file of an unchanged `oneOf` with one reference adds nothing to the report of the file referred to, and keeps every document exactly where what that file accepted alone it still accepts, and what another branch accepted alone it still refuses |
| `CompatBehind.CountedThroughReferenceExactly` | tools/contract_compat.py:195-198 | a file of an unchanged `contains` of a reference under a `maxContains` of one or more adds nothing to that report, and keeps every document exactly where the file referred to accepts just what it accepted |
| `CompatBehind.LeavingThroughReferenceExactly` | tools/contract_compat.py:195-198 | a file of a reference beside an unevaluated keyword, both unchanged, adds nothing to that report, and keeps every document exactly where the file referred to still accepts it, and what that file no longer speaks of the keyword accepts |
| `CompatFiles.RetiredExactly` | tools/contract_compat.py:290-295 | a retired schema is compatible, and a schema referring to it keeps every document exactly where it accepted none |
| `CompatFiles.LostDefinitionsExactly` | tools/contract_compat.py:155-159 | a file that becomes `true` is reported as admitting more, and a schema referring to a place inside it keeps every document exactly where what stood there accepted none |
| `Retention.Expired` | deploy/backup/backup.py:151-169 | in order, exactly the objects whose name reads as a time before the days kept, 86400 seconds each, and that another object's is later than; refused exactly where the retention is negative |
| `Retention.NewestKept` | deploy/backup/backup.py:151-169 | the newest backup is never deleted, whatever the clock and the retention |
| `Retention.NeverSplit` | deploy/backup/backup.py:151-169 | the objects of one backup go together or stay together, an object of another form stays |
| `Retention.SecondPassFindsNothing` | deploy/backup/backup.py:151-169 | what one pass leaves, a second with the same limit leaves |
| `Retention.OldestIsOldest` | deploy/backup/backup.py:179-188 | the base backup taken for a cluster's oldest is one of it, and none of it is older |
| `Retention.WalExpired` | deploy/backup/backup.py:172-197 | exactly the segments no kept base backup's cluster names or that lie before its oldest one's first; nothing without a base backup |
| `Retention.NeededSegmentsStay` | deploy/backup/backup.py:172-197 | no segment a kept base backup needs is deleted, where no base backup starts before the one taken for the oldest |
| `Retention.RiseMeansFirst` | deploy/backup/backup.py:172-197 | that holds where first segments rise with time within a cluster, ties included |
| `Retention.RecoverableExactly` | deploy/backup/backup.py:172-197 | and only there: otherwise some archive loses a segment a kept base backup needs, its first |
| `BackupStore.Store.KeepRetention` | deploy/backup/backup.py:596-619 | a backup, and a drill's report, goes exactly where its name reads as a time before the days kept and another's there is later; the segments then go that no backup kept needs, nothing else goes, and refused, nothing does |
| `BackupStore.PassTwice` | deploy/backup/backup.py:596-619 | a second pass at the same time deletes nothing |
| `BackupStore.KeptBasesStayRecoverable` | deploy/backup/backup.py:596-619 | over every run of uploads, archiving and passes, a segment a base backup needs stays as long as the base backup does |
| `BackupStore.PassLeavesExactly` | deploy/backup/backup.py:172-197 | a pass leaves a segment exactly where no base backup is kept, or one that needs it |
| `BackupStore.SegmentStaysExactly` | deploy/backup/backup.py:596-619 | over every run, a segment once archived is there at the end exactly where every pass kept no base backup, or one that needs it |
| `BackupStore.LaterBaseFindsSegments` | deploy/backup/backup.py:596-619 | so a base backup uploaded later finds the segments archived before it, where every pass in between kept an older one of its cluster |
| `BackupStore.ArchivedTooEarly` | deploy/backup/backup.py:596-619 | a segment archived before the first base backup of its cluster, with another cluster's kept, is deleted by the next pass, and the base backup then uploaded lacks it |
| `Reserve.Highest` | tools/reserve.py:160 | the highest of the numbers held, 0 for none |
| `Reserve.RefsNeverChange` | tools/reserve.py:122-133 | over every interleaving a created ref is never changed or lost |
| `Reserve.ReturnedOnce` | tools/reserve.py:122-166 | over every interleaving no identifier is returned to two sessions, nor one reserved before |
| `Reserve.ReturnedIsAbove` | tools/reserve.py:87-107 | the number returned is above every number the session's snapshot held |
| `Reserve.AboveAllKnown` | tools/reserve.py:87-107 | over every interleaving, the number returned is of its prefix, above every record's and above every listed ref's that the remote held when the session looked, and has four digits at most |
| `Reserve.GivingUpMeansTaken` | tools/reserve.py:160-166 | a session that gives up found each of fifty numbers in a row taken, by another or too high to be listed |
| `Reserve.AloneExactly` | tools/reserve.py:136-166 | alone, a session gets the number above the highest held exactly where that has four digits; otherwise it gives up with fifty refs created |
| `Reserve.AloneIsNext` | tools/reserve.py:136-166 | alone, the number returned is 1, or one above a record's or a listed ref's of its prefix, and above all of them |
| `Reserve.AskedExactly` | tools/reserve.py:110-133 | a session alone that asks for one identifier gets it exactly where it has four digits, is not on the main branch, and has no ref |
| `Remote.Register.Claim` | tools/reserve.py:122-133 | true exactly where the remote, read back after any steps of others, names this session's commit |
| `Remote.Register.ReserveNext` | tools/reserve.py:136-166 | the loop over fifty tries is a run of the protocol with the others' steps in between; the number returned is of the prefix, has four digits at most, and is above every record's and every listed ref's on the remote at the look |
| `MachineLock.InvAlways` | tools/machine_lock.py:48-84 | in every reachable state each lock is held exactly by the processes that stand where it is held |
| `MachineLock.ExclusiveRunsAlone` | tools/machine_lock.py:65-84 | in every reachable state, time-outs and deaths included, a command under a process with the exclusive lock runs beside none whose process took the lock and lives |
| `MachineLock.SharedRunTogether` | tools/machine_lock.py:65-84 | any number of shared callers run at once |
| `MachineLock.EnabledExactly` | tools/machine_lock.py:48-84 | when each step is possible: a lock is taken where it is free, a shared one beside shared ones |
| `MachineLock.GivingUpRuns` | tools/machine_lock.py:48-84 | a caller that gives up waiting runs its command all the same, without the lock; a shared one past the turnstile opens it |
| `MachineLock.DeadRunsBeside` | tools/machine_lock.py:65-84 | the command of a process that died can run beside it: of two exclusive ones, the second is let in |
| `MachineLock.NotStarved` | tools/machine_lock.py:65-84 | while an exclusive caller stands in the turnstile the shared holders only get fewer, and once there are none it can enter |
| `MachineLock.SomeoneCanStep` | tools/machine_lock.py:48-84 | while any process has not gone, one of them can step without a time-out and without dying |
| `Lanes.ReachedFrom` | tools/lanes.py:280-285 | the worklist ends, with exactly the files that reach a changed one through imports |
| `Lanes.SelectTests` | tools/lanes.py:260-291 | every test exactly where a path asks for all; otherwise, in order, exactly the test files that reach a changed file |
| `Lanes.AffectedIsLeast` | tools/lanes.py:276-285 | a file is affected exactly where it is in every set that holds the changed files of the graph and each importer of what it holds |
| `Lanes.SelectionMonotone` | tools/lanes.py:260-291 | more changed paths never select fewer tests |
| `Lanes.UnselectedSeesNoChange` | tools/lanes.py:260-291 | every file an unselected test reaches holds what it held |

## Left out

- Canonical JSON, SHA-256, time stamps, regular expressions, git, the object store and PostgreSQL's planner, row-level security and grants: documents, digests, instants, names read by a given function, and the state they act on stand for them.
- EnumExactly: takes 1 and 1.0 for one value, as everything in `Json` does; the code compares the spelling of an `enum`'s values, and so calls that change breaking.
- The OpenAPI half of the classifier, the reading of files, and the change reported when bytes differ and the contract does not.
- `$dynamicRef` has no meaning in `Schema`; the theorem is about schemas without it. `patternProperties` and the other keywords the classifier does not list have none either: a change of them is breaking, and the theorem is about schemas without them.
- CompatibleKeepsDocuments: asks, of the files in its set, for the listed keywords with values of their own kind; a `const` that is not null, a `contains` that is not `true`, no boolean where Python finds it equal to a number, `oneOf` and match counts unchanged, nodes with unevaluated keywords unchanged, references through properties and definitions, to what is there on both sides, and to what did not change where they stand in `oneOf`, `not`, `if`, a counted `contains` or a node with unevaluated keywords. `CompatLimits`, `CompatCounts`, `CompatFiles` and `CompatBehind` show the claim failing for a `const` that becomes null, `true` taken for 1, `contains: true`, `oneOf` changed in two ways, both match counts, `additionalProperties` removed beside `unevaluatedProperties`, changed references in `not`, `if`, `oneOf`, a `contains` with a maximum and beside unevaluated keywords, and references whose target is gone, and exactly when it does. There is no such lemma for malformed values or for references by other paths.
- CompatibleTreeKeepsDocuments: asks the same.
- LostEvaluationExactly: is one change of a node with unevaluated keywords; other changes of such nodes have no lemma.
- One tenant's ledger and jobs are modelled. Other tenants appear as steps that take positions from the shared sequence.
- Savepoints, statement time-outs, a lost connection and the head's refusal of another isolation level: a transaction commits as a whole or aborts as a whole, and releases its locks afterwards.
- The writers that give `record` a fact of kind `ledger.anchored` by another way than `anchor`, and the tenant's migration to the per-run chains beyond the state it starts from.
- The queue's statements take effect one at a time, the three updates of a claim each by itself; what a claim sees late is its snapshot and the set of rows it finds locked, both arbitrary. The advisory lock around a claim with limits is not a step: that no other claim comes between a claim's snapshot and its update is a condition on the run.
- LockKeepsUnitLimit: asks that every claim that takes jobs of the unit passes one limit for it, which the previous release's claim of four arguments does not know; and where a lease is revived between a claim's snapshot and its update, that the claim could not pass the bound with any batch.
- AskTakeover: takes the job's id, where the code finds the jobs of a run by their kind and their payload.
- Messages to a running step, and the reading of an asked take-over.
- The polling loop of the machine's lock and its clock: each call that takes, drops or gives up a lock is a step, and a time-out may come at any moment of a wait. Processes outside the lock are not modelled.
- Locks that PostgreSQL makes a statement wait for: a statement whose row another transaction has fenced is a step that is not possible yet.
- The building of the import graph from source files, the selection of lanes by claims, and the fetch of the remote before a reservation.
- Which backup a restore chooses, the dump, the drill and the reports' contents.
