# phantom-skills, verified model

phantom-skills is a skill registry: a daemon keeps versioned skills in Postgres, agents mirror the
promoted ones into a local directory, daemons replicate versions to each other, and agents write usage
and proposals back through an offline queue. This project models its four stateful protocols and the
codecs under them in Dafny, and proves what they keep over every run.

A SQL table is a map or an append-only sequence, a transaction is one atomic step, and a directory of
skills is a map from slug to the text of its `SKILL.md`. Code that updates fields in place is a class
whose methods are proved against a function on values; the laws are lemmas about those functions, and
the protocols are state machines whose steps use the same functions.

| file | models |
|---|---|
| `Keyset.dfy` | `WHERE key > $1 ORDER BY key LIMIT n`, and why its pages have no gap and no repeat |
| `Text.dfy`, `Cursor.dfy` | `strconv` and `strings` pieces, the change-feed cursor and its file |
| `SkillFile.dfy` | the `SKILL.md` codec and slugs |
| `Registry.dfy` | registrations, status changes and imports over skills and versions |
| `Proposals.dfy` | the human gate in front of the registry |
| `Feed.dfy` | the change feed, its handler, and the keyset listing |
| `Syncer.dfy`, `SyncLaws.dfy` | one Sync over a feed, and its laws: dry runs, resets, ownership |
| `Mirror.dfy` | Syncs interleaved with registry writes, aborts and restarts |
| `Ulid.dfy`, `NodeSync.dfy` | ULIDs, and the peer-to-peer merge of versions |
| `Usage.dfy` | deduplicating ingestion of usage events |
| `WriteQueue.dfy`, `Drainer.dfy` | the offline queue, its backoff, and its two actors |
| `QueueProtocol.dfy` | those actors racing on one queue, with lost requests and responses |
| `Ratchets.dfy` | auto-fire guards and their ledger |
| `Scopes.dfy` | reloading the bearer-token registry |

## Main results

1. **The mirror.** In every state of every run that interleaves registry transactions, page fetches,
   single-entry steps, aborts, restarts and the user's edits of unmanaged files, each skill is after the
   cursor (saved and in memory) or shown correctly in the directory, as long as the user empties no
   hand-authored slot whose promoted skill has gone by; that condition is exact. After any such history
   one undisturbed Sync leaves the managed files equal to the promoted skills with their current content,
   less the slots a hand-authored file holds, and a Reset Sync after it writes and deletes nothing. After
   any edits whatever one undisturbed Reset Sync does the same (`Mirror.EveryRunKeepsInv`,
   `Mirror.EditKeepsInvIff`, `Mirror.AnyHistoryThenQuietSync`, `Mirror.AnyHistoryThenResetSync`,
   `Mirror.ResetAfterSyncIsQuiet`).
2. **Nothing lost, usage counted once.** Under every interleaving, statement by statement, of in-line
   attempts, drainers, crashes, purges and responses lost after the commit, each enqueued write is live, dead, purged or arrived, and
   the usage table holds each key asked for exactly once (`QueueProtocol.EveryRunKeepsInv`,
   `QueueProtocol.EmptyQueueIsExact`).
3. **Convergence.** Any sequence of imports is union on (profile, name, sha). After any schedule of full
   pulls a node holds what it began with and the stamped content of its sources, past the nodes that hold
   an item without a ULID and so cannot pass it on; after a thorough schedule all nodes agree exactly when
   no content was stranded without a ULID. Which ULIDs survive a batch, and which version numbers its items
   get, is proved in closed form for batches of any length, and with it exactly when all orders of a batch
   come to the same (`NodeSync.ImportIsUnion`, `NodeSync.SyncedIsUnion`, `NodeSync.AllNodesConverge`,
   `NodeSync.UlidsAfter`, `NodeSync.NumbersAfter`, `NodeSync.UlidsDependOnOrderIff`,
   `NodeSync.NumbersDependOnOrderIff`).
4. **Gates.** A proposal is decided at most once and the registry is the fold of the approved ones
   (`Proposals.DecidedAtMostOnce`, `Proposals.RegistryIsFoldOfApprovals`); auto-fire keeps one run in
   flight per skill, a cap per profile and a bound per time window (`Ratchets.RunsKeepLedger`,
   `Ratchets.WindowBound`).

5. **What each operation does.** The functions that the methods are proved against have laws that do not
   mention them: a registration records what it was given (`Registry.RegistrationRecords`), an approval
   what was proposed (`Proposals.ApprovedCreateMeans`), an import what was on the wire, as a draft
   (`NodeSync.ImportCreatesDrafts`, `Registry.PublishedBySomebody`), a page is what the feed holds
   (`Feed.FeedMeans`), a file is read as its text says (`SkillFile.ParseMeans`, `SyncLaws.SlotMeans`), and
   a ratchet is held back exactly by its guards (`Ratchets.SuppressedIff`).

## Assumptions

- `Mirror.Usable`: slugs are `Slugify(name)`, not empty, and distinct within a profile; timestamps are
  past the epoch and fit the cursor's 64-bit nanoseconds; a version's sha is not empty. An imported row
  may bring its own slug, so this is required of every write; `Mirror.GoodWriteIsAllowed` reduces it to
  checks on the write itself.
- `Mirror.Allowed`: every committed transaction has a strictly later timestamp than all before it, and a
  status step publishes (promotes or retires). The latter is what the code does:
  `Proposals.PublishedStays`. The user neither touches managed files nor writes files with a readable
  marker, and may write or remove any other file at any time.
- `Mirror.Trusted`: the content of the registry's versions, and the empty content, can be rendered and
  its marker read back, for the markers that a Sync writes with it. `SkillFile.Faithful` is a sufficient
  condition on the YAML library (`Mirror.FaithfulIsLegible`), with which the whole file parses back: its output is not blank, ends in a newline, has no line that starts with
  `---`, and decodes to what was encoded.
- `NodeSync.Coherent`: one ULID names one payload network-wide, and every version's skill exists, as the
  foreign key demands. Versions without a ULID, from before migration 0007, are allowed everywhere; an
  empty ULID stands for NULL. Imports keep this, and without it a row arrives exactly when its ULID is not
  taken (`NodeSync.ImportDeliversIff`).
- Ratchets: one worker at a time, positive limits, a row stamped no earlier than its guards were checked,
  and no finished run reopened;
  `Ratchets.UpdateKeepsLedgerIff` says when reopening is harmless.
- The hash behind a version's sha is an arbitrary function; no theorem needs it to be injective.

## Where the code and its documentation differ

- `internal/skillfile/skillfile.go:7-9` says that only marked directories are ever removed. A retired
  skill whose name has no letter or digit has an empty slug, and removing that removes the whole skills
  directory if a managed file lies at its top: `SyncLaws.RunSparesHandAuthoredIff` says exactly when a run
  does it, and `SyncLaws.WipeIsReachable` shows one.
- `internal/syncer/syncer.go:6-8` says that a skill without the marker is never overwritten. One with a
  frontmatter block that does not decode is, and only such a one (`SyncLaws.UnmarkedIsOverwrittenIff`, with an input
  in `SyncLaws.GarbledIsOverwritten`).
- `internal/client/wqueue/wqueue.go:26-28` speaks of roughly a day of retries. On schedule an item
  can be given up 3846 seconds after its first failure, and no sooner
  (`WriteQueue.DeadLetteredNoSoonerThan`). A race of the two actors can count failures faster, or lose one
  (`QueueProtocol.RaceOutrunsBackoff`, `QueueProtocol.RaceUndercounts`).
- `internal/nodesync/nodesync.go:76-77` calls imports order-independent. Content is. The ULIDs that survive
  a batch are the same in all orders exactly when no two rows carry one new item under different ULIDs, the
  version numbers exactly when no two rows carry different new items of one skill
  (`NodeSync.UlidsDependOnOrderIff`, `NodeSync.NumbersDependOnOrderIff`, each with an input that shows it).
- `internal/nodesync/nodesync.go:41-42` says that a peer can resume from its cursor. It then gets everything
  exactly when all that the exporter has gained since sorts after the cursor
  (`NodeSync.ResumedPullIsCompleteIff`, with an input that misses a row in `NodeSync.ResumedPullMayMiss`).
- An import moves no head (`Registry.ImportKeepsHeadsIff`), so the feed does not show what it brought:
  `Feed.ShipsEmptyIff` says exactly when a promoted skill is shipped without content, and
  `Feed.ImportedSkillShipsEmpty` shows one.
- `internal/nodesync/nodesync.go:13-14` says that identical content converges. Content held without a ULID
  is never exported, nor stamped by a later import (`NodeSync.OldContentNeverTravels`,
  `NodeSync.ImportStamps`).
- `migrations/0004_proposals.up.sql:4-5` says nothing mutates skills without a decision. Registration,
  retirement and import do; they are the `Direct` steps of `Proposals.Step`
  (`Proposals.SkillsNeedNoProposal`).
- `internal/pgstore/pgstore.go:191-193` calls registering identical content a no-op. It touches the row's
  timestamp, so the change feed shows the skill again (`Registry.RegisteredForGood`).
- `ApplyResult.NewStatus` is "local" for every approved create; when the skill exists already its status
  stays what it was (`Proposals.ReportedStatusIsStoredIff`, with an input in
  `Proposals.StatusMayBeMisreported`).
- A dry run (`internal/syncer/syncer.go:41`) judges every entry by the directory as it finds it. Where
  slugs collide the real run may act differently: `SyncLaws.DryRunAgreesIff` says exactly when a whole run
  has the effects that were announced, `SyncLaws.DryRunPredictsPairIff` decides it for two entries from the slot and the
  shas, and `SyncLaws.DryRunMissesDeletion` shows a deletion that is not announced.
- `internal/server/improver.go:21-24` promises a rate limit. A candidate of a kind the ledger refuses is
  launched without limit (`Ratchets.UnrecordedKindsAreUnbounded`).

## Model

| member | source | states |
|---|---|---|
| `Keyset.ScanAllIsSortedRest` | internal/pgstore/pgstore.go:347-355 | A keyset query without its limit is the strictly ascending enumeration of exactly the keys after the cursor. |
| `Keyset.SortedRestIsUnique` | internal/pgstore/pgstore.go:347-355 | That characterization leaves no freedom: any ascending sequence of those keys is the scan. |
| `Keyset.RowPagesAreTheScan` | internal/pgstore/pgstore.go:336-375 | For every page size at least one and every start, the pages concatenate to the sorted rows after the start: no gap, no repeat. |
| `Keyset.PageMeans` | internal/pgstore/pgstore.go:347-355 | A page holds keys after the cursor in order, at most n, and a key is only left out behind a full page of smaller ones. |
| `Text.ParseOfFormat` | internal/server/handlers_sync.go:64 | Parsing a formatted 64-bit integer returns it, sign included. |
| `Text.ParseMeans` | internal/server/handlers_sync.go:78-79 | A text parses to n exactly when it is a numeral of the 64-bit integer n: an optional sign, leading zeros, its digits. |
| `Cursor.DecodeOfEncode` | internal/server/handlers_sync.go:63-84 | Decoding an encoded position returns it, for all 64-bit positions. |
| `Cursor.DecodeMeans` | internal/server/handlers_sync.go:67-84 | A text that is two such numerals with a dot between decodes to them, and any other to the epoch. |
| `Cursor.CanonicalSettles` | internal/server/handlers_sync.go:31-42 | Re-rendering whatever string a client holds keeps its position and settles after one round: the reason an empty page ends the loop one round later at the latest. |
| `Cursor.LoadOfSave` | internal/syncer/syncer.go:180-193 | A rendered cursor survives being written to and trimmed from the cursor file. |
| `SkillFile.Render` | internal/skillfile/skillfile.go:36-57 | The copying loop, which drops a smuggled-in marker, produces the specified layout, or an error when YAML does. |
| `SkillFile.BodyIsKept` | internal/skillfile/skillfile.go:53-56 | Rendering takes trailing newlines off a body and nothing else. |
| `SkillFile.ParseMeans` | internal/skillfile/skillfile.go:59-86 | For every text: Parse fails exactly when there is a closed frontmatter block that is not blank and does not decode; otherwise frontmatter and body are those of the layout, and a text without a block, an unclosed `---` included, is all body. |
| `SkillFile.ClosingIsFound` | internal/skillfile/skillfile.go:67-73 | The first closing delimiter Parse finds is the one Render wrote. |
| `SkillFile.ParseOfRender` | internal/skillfile/skillfile.go:36-86 | Parsing a rendered file returns the frontmatter with the given marker in place of the caller's, and the body with its trailing newlines made one, for every body. |
| `SkillFile.MarkerReadBack` | internal/skillfile/skillfile.go:36-104 | The marker read back from a rendered file is the one written, its sha included. |
| `SkillFile.Slugify` | internal/skillfile/skillfile.go:129-145 | The character loop computes the maximal runs of letters and digits of the trimmed, lowered name, joined by single hyphens. |
| `SkillFile.SlugMeans` | internal/skillfile/skillfile.go:129-145 | The slug is the maximal runs of letters and digits of the trimmed, lowered name, in order, with one hyphen between each two. |
| `SkillFile.SlugShape` | internal/skillfile/skillfile.go:126-145 | A slug has no leading, trailing or doubled hyphen and no character outside a-z, 0-9 and the hyphen. |
| `SkillFile.SlugIdempotent` | internal/skillfile/skillfile.go:126-145 | Slugifying a slug changes nothing. |
| `SkillFile.SlugEmptyIff` | internal/skillfile/skillfile.go:129-145 | A slug is empty exactly when no character of the trimmed name lowers to a letter or digit. |
| `Registry.RegisterVersionTx` | internal/pgstore/pgstore.go:214-287 | Statement by statement on the transaction's copy, the upsert, the dedup by sha, the next number and the head move amount to one registration step; each error is the specified one. |
| `Registry.Store.RegisterVersion` | internal/pgstore/pgstore.go:194-209 | Commits exactly the state of a successful registration, and changes nothing on error. |
| `Registry.RegisterFailsIff` | internal/pgstore/pgstore.go:214-241 | Exactly when a registration is refused and why; it then changes nothing. |
| `Registry.RegistrationRecords` | internal/pgstore/pgstore.go:243-271 | Content the skill has adds no version; other content adds exactly one, with the fields of the call, the next number and the ULID of the stamp trigger; no other skill changes. |
| `Registry.RegistrationLeavesRow` | internal/pgstore/pgstore.go:232-277 | A new skill has the status, origin and tags asked for, with the defaults, and its slug; an old one keeps all but timestamp and head; new content becomes the head. |
| `Registry.Store.RetireSkill` | internal/pgstore/pgstore.go:379-389 | Sets the status and touches the timestamp of an existing skill, and reports a missing one. |
| `Registry.NumbersAreExact` | internal/pgstore/pgstore.go:257-262 | A skill's version numbers are exactly 1..n and MAX finds n. |
| `Registry.RunKeepsWellFormed` | internal/pgstore/pgstore.go:214-287 | Over every mix of registrations, status changes and imports: numbers are 1..n, shas unique per skill, ULIDs unique, a head is null or an own version, and no version is changed or dropped. |
| `Registry.HeadIsNewestWithoutImports` | internal/pgstore/pgstore.go:243-277 | Without imports every head is the newest version, also after old content is registered again. |
| `Registry.RegisteredForGood` | internal/pgstore/pgstore.go:190-253 | Content registered once keeps its number: registering it again after any run returns that number with created=false, adds no version, moves no head and changes no status; only the row's timestamp moves. |
| `Registry.ImportKeepsHeadsIff` | internal/nodesync/nodesync.go:123-140 | An import leaves the heads newest exactly when it drops its row. |
| `Registry.ImportRecords` | internal/nodesync/nodesync.go:84-140 | One imported row leaves every skill there is as it was; a skill it creates has the column defaults, and the version it stores has the fields of the row. |
| `Registry.PublishedBySomebody` | internal/nodesync/nodesync.go:93-97 | Over any run a skill that ends up promoted or retired was so before, or a status step or a registration said so: an import publishes nothing. |
| `Registry.ApplyEvolves` | internal/pgstore/pgstore.go:232-277 | A later transaction keeps all rows and versions, never moves a published skill back, and gives every row it changes a timestamp after all before it. |
| `Proposals.Gate.CreateProposal` | internal/pgstore/proposals.go:59-81 | Appends a pending row and returns its id, or rejects an unknown kind or an empty name and changes nothing. |
| `Proposals.Gate.RejectProposal` | internal/pgstore/proposals.go:123-134 | Rejects a pending proposal of the profile; anything else is not found. |
| `Proposals.Gate.ApproveProposal` | internal/pgstore/proposals.go:139-207 | Working on the transaction's copies, applies the proposal to the registry and the promotion records and marks it, all or nothing. |
| `Proposals.ApprovedCreateMeans` | internal/pgstore/proposals.go:160-176 | After an approved create the skill has the proposed content under the reported number; if it is new, one version with the proposal's frontmatter, body, author and id; the row says who decided and when. |
| `Proposals.ApprovedCreateLeavesRow` | internal/pgstore/proposals.go:162-171 | A skill so created is local and proposed, one that exists keeps its status, and new content is the head. |
| `Proposals.ApprovedStatusMeans` | internal/pgstore/proposals.go:177-196 | After an approved promotion or removal the status and timestamp of that skill have changed and nothing else in the registry; a promotion is recorded with who and when. |
| `Proposals.ApprovalFailsIff` | internal/pgstore/proposals.go:146-193 | Exactly when an approval fails, and with which error. |
| `Proposals.FailureChangesNothing` | internal/pgstore/proposals.go:139-207 | A decision that fails leaves the whole state as it was. |
| `Proposals.DecidedAtMostOnce` | internal/pgstore/proposals.go:123-207 | Over every run each proposal has at most one successful decision, exactly one if it ends decided; a request never changes and a decided row never changes at all. |
| `Proposals.RegistryIsFoldOfApprovals` | internal/pgstore/proposals.go:136-207 | When the gate is the only writer, the registry is the approved proposals applied in decision order, each once and each doing what its row asks. |
| `Proposals.RunIsRegistryRun` | internal/pgstore/proposals.go:159-205 | In a mixed run an approval counts as one registry operation at the moment of its decision, and nothing else the gate does touches the registry. |
| `Proposals.MixedRunsKeepVersions` | internal/pgstore/pgstore.go:214-287 | Over every mix of register, approve, reject, retire and import steps the numbers stay 1..n, versions stay, and without imports the heads stay newest. |
| `Proposals.PublishedStays` | internal/pgstore/proposals.go:177-193 | A skill once promoted or retired stays within these two over every mix of steps. |
| `Proposals.ApprovalSucceedsIff` | internal/pgstore/proposals.go:146-196 | An approval succeeds exactly when the proposal is pending and its target allows it: a name for a create, an existing skill otherwise. |
| `Proposals.BlankNameIsStuck` | internal/pgstore/proposals.go:63-65 | A name of white space is accepted as a proposal and can never be approved. |
| `Proposals.ReportedStatusIsStoredIff` | internal/pgstore/proposals.go:159-190 | The reported new status is the stored one unless a create met an existing skill with another status. |
| `Proposals.StatusMayBeMisreported` | internal/pgstore/proposals.go:159-190 | An input where they differ: a promoted skill and a pending create of it. |
| `Proposals.SkillsNeedNoProposal` | internal/pgstore/pgstore.go:194-209 | An input where a skill comes into being without a proposal. |
| `Proposals.PromotionsAreRecorded` | internal/pgstore/proposals.go:177-188 | With the gate as only writer, every promoted skill has a promotion record, and a skill with a record is promoted or was retired since. |
| `Feed.HandleSync` | internal/server/handlers_sync.go:25-60 | The loop over a page splits it into promotions and deletions and returns the cursor of its last row, or the request's cursor re-rendered. |
| `Feed.FeedMeans` | internal/pgstore/pgstore.go:336-375 | The rows of a page are skills of the profile after the cursor with the content of their head, by timestamp and id; one is only left out behind a full page of earlier ones. |
| `Feed.AnswerMeans` | internal/server/handlers_sync.go:36-60 | The response holds the promoted rows of its page one for one with their content, the names of the retired ones, and the position of the last row as cursor. |
| `Feed.ImportLeavesFeedRows` | internal/nodesync/nodesync.go:123-140 | An import leaves the feed row of every existing skill as it was. |
| `Feed.ShipsEmptyIff` | internal/pgstore/pgstore.go:347-355 | After any run a promoted skill is shipped without content exactly when it had no head and no registration of the run made a version of it. |
| `Feed.ImportedSkillShipsEmpty` | internal/pgstore/pgstore.go:347-355 | An input where that happens: a skill imported and then promoted. |
| `Feed.ListingIsComplete` | internal/pgstore/pgstore.go:96-128 | The pages of a filtered listing are exactly the matching rows after the first id, in id order, for every page size. |
| `Feed.ListPageMeans` | internal/pgstore/pgstore.go:96-128 | A page of the listing holds skills that pass status and tag filter, by id, and leaves one out only behind a full page of smaller ids. |
| `SyncLaws.PartitionIsExact` | internal/server/handlers_sync.go:43-54 | The promotions of a page are its promoted rows and the deletions its retired ones, nothing else. |
| `SyncLaws.SlotMeans` | internal/skillfile/skillfile.go:59-104 | What a slot is, told from the text of its file alone: garbled exactly when a frontmatter block does not decode, managed exactly when the frontmatter carries a marker. |
| `Syncer.Syncer.Materialize` | internal/syncer/syncer.go:98-143 | One promoted skill: skip a hand-authored slot, skip a current one, else write the rendered file; the counters and change lines follow, and a dry run writes nothing. |
| `SyncLaws.PutMeans` | internal/syncer/syncer.go:98-143 | Told from the text in the slot: the user's own file is left alone, one whose marker names the sha is current, anything else is replaced by the rendered skill. |
| `Syncer.Syncer.Remove` | internal/syncer/syncer.go:147-176 | One retired skill: leave missing, garbled and hand-authored slots, remove a managed one; the counters follow, and a dry run removes nothing. |
| `SyncLaws.DropMeans` | internal/syncer/syncer.go:147-176 | Only a file with a marker is removed, alone, or with the whole directory for an empty slug. |
| `SyncLaws.ReportMeans` | internal/syncer/syncer.go:108-176 | Every effect is counted once under its heading, and a dry run lists each write and each delete. |
| `Syncer.Syncer.Sync` | internal/syncer/syncer.go:59-94 | From every cursor text the loop over a frozen feed terminates, does exactly the entries after that cursor in order, reports them, and moves the saved cursor only at the end of a complete real run. |
| `Syncer.PageStep` | internal/syncer/syncer.go:66-85 | The loop's measure: a round leaves fewer rows ahead, or only puts the cursor into canonical form, or ends the loop. |
| `Syncer.Plan.Round` | internal/syncer/syncer.go:66-85 | Each round reaches the goal of the run or stands at a later cursor with the same goal. |
| `SyncLaws.AllEntriesExact` | internal/syncer/syncer.go:66-85 | A Sync goes through every published row after its cursor and nothing else. |
| `SyncLaws.RunSparesHandAuthored` | internal/syncer/syncer.go:96-176 | No run, finished or failed, touches a file that decodes and has no marker, as long as every entry has a slug. |
| `SyncLaws.RunSparesHandAuthoredIff` | internal/syncer/syncer.go:96-176 | Over any readable entries, empty slugs included, a run loses hand-authored files exactly when there are any and a removal meets an empty slug while the top of the skills directory is managed. |
| `SyncLaws.WipeIsReachable` | internal/syncer/syncer.go:147-176 | A run that does: a skill named "!" is promoted and then retired, and the whole directory is gone. |
| `SyncLaws.UnmarkedIsOverwrittenIff` | internal/syncer/syncer.go:106-142 | A file without a marker in the way of a promoted skill is overwritten exactly when it has a frontmatter block that is not blank and does not decode. |
| `SyncLaws.PlainFilesSurvive` | internal/syncer/syncer.go:106-113 | No run, finished or failed, touches a file without a frontmatter block, as long as every entry has a slug. |
| `SyncLaws.UnclosedIsKept` | internal/skillfile/skillfile.go:70-73 | An input at the edge: a file with an opening `---` and no closing one is kept. |
| `SyncLaws.GarbledIsOverwritten` | internal/syncer/syncer.go:106-142 | An input where a file that does not decode is lost. |
| `SyncLaws.RemoveSparesHandAuthoredIff` | internal/syncer/syncer.go:147-176 | A removal spares all hand-authored files except when its slug is empty, the top of the skills directory is managed, and there is one to lose. |
| `SyncLaws.DryRunPredicts` | internal/syncer/syncer.go:98-176 | Over entries with distinct slots, dry and real runs have the same effects and fail alike, whatever the YAML library does. |
| `SyncLaws.DryRunAgrees` | internal/syncer/syncer.go:39-94 | On a frozen feed with good slugs a dry run reports the counts and cursor of the real run and changes no file. |
| `SyncLaws.DryRunPredictsIff` | internal/syncer/syncer.go:98-176 | Over any readable entries, however their slots collide, dry and real runs have the same effects exactly when no entry would act differently on a slot as an earlier one leaves it. |
| `SyncLaws.DryRunAgreesIff` | internal/syncer/syncer.go:39-94 | So for a whole Sync on a frozen feed with any slugs: the condition is exact for the effects. When it holds the counts agree as well, and cursor and files agree in any case. |
| `SyncLaws.DistinctIsPredictable` | internal/syncer/syncer.go:98-176 | Distinct slots meet that condition. |
| `SyncLaws.DryRunPredictsPairIff` | internal/syncer/syncer.go:98-176 | For any two entries on one slot, promotions or removals in either order, the slot and the shas decide whether a dry run predicts the effects. |
| `SyncLaws.DryRunMissesDeletion` | internal/syncer/syncer.go:147-176 | A promoted "foo" and a retired "Foo": the real run writes the slot and deletes it, the dry run announces the write alone. |
| `SyncLaws.ReconcilingSettles` | internal/syncer/syncer.go:106-142 | After an entry was reconciled, reconciling it again would do nothing. |
| `SyncLaws.ResetIsQuiet` | internal/syncer/syncer.go:59-94 | After a complete run on a frozen feed, from a cursor up to which the directory is mirrored, a run with Reset or from any cursor writes and deletes nothing. |
| `Mirror.GoodWriteIsAllowed` | internal/pgstore/pgstore.go:232-277 | A write that comes later, publishes if it sets a status, brings legible content with a sha, and whose name has a slug of its own leaves the registry in the state the mirror relies on. |
| `Mirror.FaithfulIsLegible` | internal/skillfile/skillfile.go:36-104 | A YAML library that is faithful to the frontmatters a Sync writes makes content legible. |
| `Mirror.WriteKeepsInv` | internal/pgstore/pgstore.go:336-342 | A registry transaction at any moment keeps the mirror invariant: the rows it changes move ahead of every cursor. |
| `Mirror.FetchKeepsInv` | internal/server/handlers_sync.go:25-60 | A fetch keeps it: each row is past the page's cursor, already shown, or among the page's entries; rows of other statuses may be skipped. |
| `Mirror.ApplyKeepsInv` | internal/syncer/syncer.go:71-80 | One entry keeps it, also when the registry has moved on since the page was fetched. |
| `Mirror.AdvanceKeepsInv` | internal/syncer/syncer.go:81-92 | Taking the page's cursor, or saving the cursor at the end, keeps it. |
| `Mirror.EditKeepsInvIff` | internal/syncer/syncer.go:96-115 | The user's edit of an unmanaged file keeps the invariant exactly when it does not take a hand-authored file out of a slot whose promoted skill has gone by, running Syncs included. |
| `Mirror.RemovalIsNotNoticed` | internal/syncer/syncer.go:59-94 | After such a removal a Sync without Reset does nothing and the mirror is not exact. |
| `Mirror.LintIsCaughtUp` | internal/syncer/syncer.go:59-94 | A concrete machine where such a removal can happen. |
| `Mirror.EveryRunKeepsSound` | internal/syncer/syncer.go:96-176 | Over every run, with any edits of unmanaged files, managed files and the entries on their way show content of published skills. |
| `Mirror.EveryRunKeepsInv` | internal/syncer/syncer.go:59-176 | Over every interleaving of writes, fetches, entries, aborts, restarts and gentle edits each row is ahead of the cursor or reflected, and managed files show published content only. |
| `Mirror.CaughtUpIsExact` | internal/syncer/syncer.go:96-176 | Whenever nothing is left ahead of the saved cursor, the managed files are exactly those of the promoted skills, less hand-authored slots, with current content. |
| `Mirror.QuietSyncMirrors` | internal/syncer/syncer.go:59-94 | A Sync under its contract, while nobody writes, is a run of the interleaved machine, succeeds and ends exact, whatever happened before. |
| `Mirror.AnyHistoryThenQuietSync` | internal/syncer/syncer.go:59-176 | From a machine without managed files, after any run whose edits are gentle, one undisturbed Sync ends with the exact mirror. |
| `Mirror.ResetRepairs` | internal/syncer/syncer.go:39-94 | One undisturbed Reset Sync repairs the mirror of any sound idle machine, whatever its cursor. |
| `Mirror.AnyHistoryThenResetSync` | internal/syncer/syncer.go:39-94 | From a machine without managed files, after any run with any edits of unmanaged files, one undisturbed Reset Sync ends with the exact mirror. |
| `Mirror.InvIsMirrored` | internal/syncer/syncer.go:59-94 | In every state of every run the directory is mirrored up to the saved cursor. |
| `Mirror.SavedCursorMeetsReset` | internal/syncer/syncer.go:59-94 | So a Sync from the saved cursor always meets the conditions of `SyncLaws.ResetIsQuiet`. |
| `Mirror.CaughtUpIsQuiet` | internal/syncer/syncer.go:106-118 | Once nothing is ahead of the saved cursor, a Sync from any cursor, dry or not, writes and deletes nothing and lists no change. |
| `Mirror.ResetAfterSyncIsQuiet` | internal/syncer/syncer.go:59-94 | After any history (with any edits, if that Sync is itself a Reset) and one undisturbed Sync, a following Reset Sync writes nothing and deletes nothing. |
| `Ulid.Generate` | migrations/0007_p2p_substrate.up.sql:35-53 | The two loops produce ten base-32 digits of the time, most significant first, and the sixteen drawn characters. |
| `Ulid.GeneratedAt` | migrations/0007_p2p_substrate.up.sql:35-53 | The i-th of ten characters is the digit of 32^(9-i) in the time, each later one is the one drawn. |
| `Ulid.DigitsOrder` | migrations/0007_p2p_substrate.up.sql:44-47 | In range, lexicographic order of the digits is numeric order, and equal digits mean equal numbers. |
| `Ulid.UlidsSortByTime` | migrations/0007_p2p_substrate.up.sql:33-53 | ULIDs of earlier milliseconds below 2^50 sort first whatever the random part, and equal ULIDs have equal times. |
| `Ulid.TimePartRepeats` | migrations/0007_p2p_substrate.up.sql:38-47 | The time part repeats exactly modulo 2^50 milliseconds. |
| `NodeSync.ImportSkillVersions` | internal/nodesync/nodesync.go:84-143 | The loop, each statement on its own, imports the rows one after the other and counts the versions that were inserted. |
| `NodeSync.ImportCreatesDrafts` | internal/nodesync/nodesync.go:88-105 | After a batch every old skill is as it was, and every new one is a draft with the column defaults and the slug of the first row that names it. |
| `NodeSync.ImportStoresRows` | internal/nodesync/nodesync.go:123-140 | Every old version is as it was, and every new one has the fields of some stamped row and belongs to the skill it names. |
| `NodeSync.ImportPublishesNothing` | internal/nodesync/nodesync.go:93-97 | A batch leaves exactly the same skills promoted or retired. |
| `NodeSync.ImportDeliversIff` | internal/nodesync/nodesync.go:109-121 | A stamped row's content is there afterwards exactly when it was there before or its ULID was free. |
| `NodeSync.ImportKeepsCoherent` | internal/nodesync/nodesync.go:76-143 | Imports keep one payload per ULID. |
| `NodeSync.ImportIsUnion` | internal/nodesync/nodesync.go:76-143 | Importing any sequence of rows is union on (profile, name, sha) content. |
| `NodeSync.ImportOrderIsIrrelevant` | internal/nodesync/nodesync.go:76-82 | Two batches with the same items, in any order, grouping or repetition, leave the same content. |
| `NodeSync.ImportStamps` | internal/nodesync/nodesync.go:109-121 | What is stamped after imports is what was, and what was offered and not there at all: content that came first without a ULID stays without. |
| `NodeSync.UlidsAfter` | internal/nodesync/nodesync.go:84-121 | After a batch of any length the ULIDs are the old ones and those of the rows that are first in it with an item the node lacks. |
| `NodeSync.UlidsDependOnOrderIff` | internal/nodesync/nodesync.go:76-121 | All orders of a batch leave the same ULIDs exactly when no two rows carry one new item under different ULIDs. |
| `NodeSync.UlidsMayDependOnOrder` | internal/nodesync/nodesync.go:76-121 | An input where they do. |
| `NodeSync.NumbersAfter` | internal/nodesync/nodesync.go:123-140 | Each such first row makes its skill one larger and its item takes the next number: the size, plus one, plus the first rows of the skill before it. |
| `NodeSync.NumbersDependOnOrderIff` | internal/nodesync/nodesync.go:123-140 | All orders of a batch give the same version numbers exactly when no two rows carry different new items of one skill. |
| `NodeSync.NumbersMayDependOnOrder` | internal/nodesync/nodesync.go:123-140 | An input where they do. |
| `NodeSync.PagesAreTheFullPull` | internal/nodesync/nodesync.go:44-74 | Paging a frozen exporter by last ULID yields all its rows once, for every page size. |
| `NodeSync.FullPullOffers` | internal/nodesync/nodesync.go:44-74 | A full pull offers exactly the profile's stamped content. |
| `NodeSync.ExportMeans` | internal/nodesync/nodesync.go:44-74 | An export holds stamped versions of the profile after the cursor with all their fields, in ULID order, and leaves one out only behind a full page of smaller ones. |
| `NodeSync.RegisteredIsOffered` | migrations/0007_p2p_substrate.up.sql:57-80 | A version registered under a ULID is offered by a full pull from then on, with all its fields. |
| `NodeSync.ResumedPullGetsIff` | internal/nodesync/nodesync.go:51-55 | A pull resumed from a cursor gets a row exactly when its ULID sorts after it: rows imported behind it are missed. |
| `NodeSync.ResumedPullIsCompleteIff` | internal/nodesync/nodesync.go:41-55 | A peer that pulled everything and resumes later misses nothing exactly when every stamped version the exporter gained since sorts after the cursor. |
| `NodeSync.ResumedPullMayMiss` | internal/nodesync/nodesync.go:41-55 | An input where it misses one: an import behind the cursor. |
| `NodeSync.RunGrows` | internal/pgstore/pgstore.go:214-287 | Any run of an exporter's registry is such a gain: versions are added, skills keep their ids. |
| `NodeSync.ExportInTimeOrder` | internal/nodesync/nodesync.go:53-54 | Rows stamped in different milliseconds are exported in time order. |
| `NodeSync.SyncedIsUnion` | internal/nodesync/nodesync.go:76-143 | After any schedule of full pulls a node holds exactly what it began with and the stamped content of its sources, direct or behind nodes that can pass it on; ULIDs still name one payload. |
| `NodeSync.NodesAgreeIff` | internal/nodesync/nodesync.go:76-143 | For every schedule, all nodes agree exactly when whatever one began with is there, or arrives, at every other. |
| `NodeSync.AllNodesConverge` | internal/nodesync/nodesync.go:8-14 | After a schedule that carries every node's content to every other, all nodes agree exactly when no content was held by some nodes only, all of them without a ULID. |
| `NodeSync.DirectPullsAreThorough` | internal/nodesync/nodesync.go:41-43 | A schedule in which every node pulls from every other, in any order, is such a one. |
| `NodeSync.StampedNodesConverge` | internal/nodesync/nodesync.go:8-14 | Between fully stamped nodes gossip through others is enough, and all nodes come to hold the union. |
| `NodeSync.OldContentNeverTravels` | internal/nodesync/nodesync.go:41-43 | A node whose only version has no ULID never brings it to a new node, whatever the schedule. |
| `Usage.Store.IngestUsage` | internal/pgstore/usage.go:24-61 | Fails exactly when an event that is not skipped has an unknown kind, and then changes nothing; else the accepted count is the table's growth. |
| `Usage.IngestRecords` | internal/pgstore/usage.go:34-55 | Every event that names a skill and a kind has a row under its key, and a new row has machine and context of the first event with that key. |
| `Usage.IngestIsUnion` | internal/pgstore/usage.go:34-60 | A batch keeps every row, holds each key once, and adds exactly the keys it offers. |
| `Usage.BatchesAreUnion` | internal/pgstore/usage.go:20-61 | Over any sequence of batches, failed ones included, accepted counts sum to growth and the keys are the old ones and those of the whole batches. |
| `Usage.RegroupingIsIrrelevant` | internal/pgstore/usage.go:20-61 | With explicit timestamps, order, grouping and repetition of batches change neither the final keys nor the accepted total. |
| `Usage.RepeatIsRecognisedIff` | internal/pgstore/usage.go:39-51 | A repeated event is recognised exactly when it carries a timestamp or arrives within the same microsecond. |
| `WriteQueue.BackoffIsTheSchedule` | internal/client/wqueue/wqueue.go:209-222 | BackoffFor is min(2^n, 1800) seconds for every n from one on, and two seconds below, despite 64-bit overflow and either out-of-range conversion. |
| `WriteQueue.Queue.Enqueue` | internal/client/wqueue/wqueue.go:92-106 | Adds a fresh live row, due at once, under the next id, or rejects the kind. |
| `WriteQueue.EnqueuedMeans` | internal/client/wqueue/wqueue.go:92-106 | The new row holds kind, payload and time, no attempt and no error, and is due whatever the clock; all others stay. |
| `WriteQueue.Queue.MarkAttempt` | internal/client/wqueue/wqueue.go:136-159 | Counts a failure, then gives up at the twelfth or schedules the next try; a deleted row is left alone. |
| `WriteQueue.Queue.Purge` | internal/client/wqueue/wqueue.go:189-207 | Removes everything or the dead rows, and returns how many went. |
| `WriteQueue.NextEligibleMeans` | internal/client/wqueue/wqueue.go:115-132 | The listing holds due live items only, oldest first, and leaves one out only behind a full page of older ones. |
| `WriteQueue.QueueStaysOk` | internal/client/wqueue/wqueue.go:92-207 | Every operation keeps ids below the next one, kinds valid, and an item dead exactly when its twelve attempts are used up. |
| `WriteQueue.LateWriteKeepsQueueOkIff` | internal/client/wqueue/wqueue.go:136-159 | A write with a count read earlier keeps "dead exactly after twelve" exactly when it does not put a lower count on a row given up meanwhile. |
| `WriteQueue.LifeOfAnItem` | internal/client/wqueue/wqueue.go:136-159 | An item failing on schedule is dead exactly after its twelfth failure, and n failures are spread over at least the first n-1 delays. |
| `WriteQueue.DeadLetteredNoSoonerThan` | internal/client/wqueue/wqueue.go:26-28 | On schedule at least 3846 seconds lie between an item's first failure and its dead-lettering. |
| `WriteQueue.DeadLetteringBoundIsMet` | internal/client/wqueue/wqueue.go:136-159 | The bound is met: failing at the first moment the schedule allows, an item is dead exactly 3846 seconds after its first failure. |
| `Drainer.Drainer.DrainOnce` | internal/client/drainer.go:60-78 | Delivers items until the first failure, deletes those, marks the failed one, counts, and notes each contact. |
| `Drainer.DrainDeliversPrefix` | internal/client/drainer.go:56-78 | What a drain delivers is a prefix of the due items in id order; beyond it only the item that failed changes, and it is the oldest one left. |
| `Drainer.DeliveredMeans` | internal/client/drainer.go:66-89 | Delivered are the due items up to the first that the daemon refuses or whose kind is unknown. |
| `Drainer.ContactTellsLastReplay` | internal/client/connectivity.go:28-56 | After a drain that replayed something the client counts as online exactly when no failure stopped it, and knows when it last got through, when it last failed, and why. |
| `Drainer.DrainSpends` | internal/client/drainer.go:60-78 | Each replay uses up retry budget, and a drain replays something exactly when something is due. |
| `Drainer.ReplaysAreBounded` | internal/client/wqueue/wqueue.go:26-28 | Over any run of a single drainer replays are at most twelve per item added plus what the initial items had left, and after that many effective drains nothing is left alive. |
| `Drainer.Writer.EnqueueAndAttempt` | internal/mcp/wqueue_helper.go:24-55 | Persists the write, tries it, then deletes or marks the row; reports queue errors only, unless there is no queue. |
| `Drainer.AttemptedMeans` | internal/mcp/wqueue_helper.go:37-54 | A write that got through leaves no row; one that did not is live with one attempt, due in two seconds, and all other rows are as before. |
| `QueueProtocol.ServedArrives` | internal/server/handlers_usage.go:26-51 | A request the daemon answers well has its events in the table, or its proposal stored, and adds no other key. |
| `QueueProtocol.NextKeepsInv` | internal/client/wqueue/wqueue.go:136-165 | Every step of any actor, the operator, the network or another agent keeps the protocol invariant; MarkAttempt's read and its write are two steps. |
| `QueueProtocol.EveryRunKeepsInv` | internal/client/drainer.go:60-78 | Over every interleaving of statements, beside other agents, no enqueued write is lost, and each usage key in the table is held once and is an old one, was asked for, or came from another agent. |
| `QueueProtocol.EmptyQueueIsExact` | migrations/0003_usage_events.up.sql:3-7 | With an empty queue and nothing purged the table holds exactly the old keys, those asked for and those of other agents, once each, and every proposal is stored at least once. |
| `QueueProtocol.ProposalsMayRepeat` | internal/client/drainer.go:84-86 | A lost response makes the daemon store a proposal twice. |
| `QueueProtocol.CopiesAreCommits` | internal/pgstore/proposals.go:69-80 | A proposal is stored once for each request that is committed, acknowledged or not, so exactly once when a single one gets through. |
| `QueueProtocol.RaceOutrunsBackoff` | internal/mcp/wqueue_helper.go:37-43 | The in-line attempt and a drainer can both fail at once and have both failures counted in one instant. |
| `QueueProtocol.RaceUndercounts` | internal/client/wqueue/wqueue.go:136-159 | When both read the row before either writes it, one of two failures is not counted. |
| `QueueProtocol.DrainOnceIsARun` | internal/client/drainer.go:60-78 | An undisturbed DrainOnce is a run of the protocol, with the queue its contract says. |
| `QueueProtocol.AttemptIsARun` | internal/mcp/wqueue_helper.go:29-55 | So is an undisturbed in-line attempt. |
| `Ratchets.Daemon.AutoFireRatchet` | internal/server/improver.go:28-80 | The guards in order, the call, and the ledger row amount to the specified attempt; a guard suppresses without error. |
| `Ratchets.SuppressedIff` | internal/server/improver.go:29-58 | A candidate is held back exactly when auto-fire or the store is not configured, the skill has an unfinished run, it had one within the cooldown, or the profile has as many unfinished ones as the cap; the first of these is the reason. |
| `Ratchets.UnsuppressedMeans` | internal/server/improver.go:60-79 | Otherwise the call is made, and when it gets through a run of an accepted kind is recorded with what the candidate and the call say. |
| `Ratchets.Daemon.RecordRatchet` | internal/pgstore/ratchets.go:29-40 | Appends a row with the default status, or refuses a kind or status outside the constraints. |
| `Ratchets.Daemon.UpdateRatchetStatus` | internal/pgstore/ratchets.go:82-90 | Sets the status, and the PR address when one is given; an unknown id changes nothing. |
| `Ratchets.UpdateKeepsLedgerIff` | internal/pgstore/ratchets.go:81-90 | A status update keeps the caps exactly when it does not reopen a run of a busy skill or of a full profile. |
| `Ratchets.RunsKeepLedger` | internal/server/improver.go:37-79 | Over every serial run that reopens nothing: one run in flight per skill, at most the cap per profile, and a skill's runs a cooldown apart, the row being stamped after the call. |
| `Ratchets.WindowBound` | internal/pgstore/ratchets.go:55-67 | In any closed window of width W a skill has at most W/cooldown + 1 recorded fires. |
| `Ratchets.LaunchIsRecordedIff` | migrations/0006_ratchet_runs.up.sql:23 | A launched ratchet has its row exactly when the ledger accepts its kind. |
| `Ratchets.EveryLaunchIsRecorded` | internal/server/improver.go:71-79 | With accepted kinds the ledger grows by one row for each launch of a run. |
| `Ratchets.UnrecordedKindsAreUnbounded` | internal/server/improver.go:71-78 | A candidate of another kind is launched every time it is seen. |
| `Scopes.Registry.Load` | internal/server/registry.go:87-138 | The scan builds both maps aside and swaps them in on success; the first problem leaves the registry as it was. |
| `Scopes.ScanIsBijectionIff` | internal/server/registry.go:112-137 | A scan succeeds exactly when every profile is readable with a token that is not blank and no token is used twice; then tokens and scopes are in bijection, one binding for each profile directory, with what its files say and the defaults, and no other. |
| `Scopes.FailureBlames` | internal/server/registry.go:112-128 | A scan that fails reports the first directory that cannot be read or whose token is taken. |

## Left out

- HTTP transport, error envelopes, authentication headers, the router, daemon lifecycle and the command line: plumbing around the modelled calls.
- brainbox, brainlink and the ratchet task text: a remote call succeeds or fails, and its prose carries no state.
- YAML, JSON, TOML and SHA-256 internals: function values with the stated assumptions.
- Read errors other than a missing file, disk errors and a crash between a temporary file and its rename: an `Abort` step of the mirror at most.
- Two syncers on one directory at once, and two importers on one node at once: the latter the source rules out (internal/nodesync/nodesync.go:81-82).
- Postgres below the transaction, such as commits that become visible with an earlier timestamp.
- SQLite and Postgres I/O errors on the queue and the tables: a call that fails so does not happen; for the actors this is a `Crash` step.
- The sync columns node_id and sync_updated_ms, the ULIDs of skill rows, and created_at: nothing modelled reads them. The stamp trigger is a registration's `ulid` parameter.
- List and detail queries (`ListVersions`, `GetSkill`, `ListProposals`, `ListRatchets`, `Queue.List`, `Scopes`): single queries whose only law is the one proved for `ListSkills`. Row-scanning loops are part of the query.
- Diff, rationale, evidence, score and verifier report of a proposal: stored and returned unread.
- `formatQueueNotice` and `humanizeAge`: text for people; the pending count they show is in `EnqueueAndAttempt`.
- Exactly-once proposals, order-independent ULIDs or version numbers, and a complete resumed pull: the code does not give them. Instead `QueueProtocol.CopiesAreCommits`, `NodeSync.UlidsDependOnOrderIff`, `NodeSync.NumbersDependOnOrderIff` and `NodeSync.ResumedPullIsCompleteIff` say when they hold.
- SkillFile.Slugify: of Unicode case folding it has only what a slug can see, the ASCII letters and the two other characters that lower to ASCII letters; the rest separates words either way.
- Usage.Store.IngestUsage: event context is opaque text, since its JSON encoding never fails the batch.
- Syncer.Syncer.Sync: stated for a feed that does not change during the run; the interleaved case is `Mirror`.
