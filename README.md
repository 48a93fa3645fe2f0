# Backlog hygiene rules, modelled in Dafny

This project models the core of *prioritize*, a set of rules that keep a Jira
backlog in order. The rules re-rank a team's backlog, derive priorities from
rank, propagate due dates, target dates, status, priority, labels, components
and fix versions between related issues, and flag non-compliant issues. Every
rule works on an in-memory snapshot of the issues. The model states what each
rule computes and proves the properties the rules promise.

An issue is an immutable record (`Common.Issue`). Its parent, the issues it blocks and
its children are already attached to it, so no rule needs the network. The
tracker writes a rule makes (rank moves, field updates, comments, transitions)
are values of `Common.Write`, appended to an output list. Messages are values of
`Common.Msg` that carry their parameters. The per-issue context the rules fill
in (updates, comments, the non-compliant verdict) is the class `Common.Context`.

The modules follow the source files:

- **Re-ranking engine.** Four variants share one move emitter, `MoveEmitter`.
  It ranks each issue of the new order after the previous one, starting at the
  first place where the new order leaves the old one.
  - `TeamRank` covers src/rules/team/rank.py: blocks by parent, a stable
    per-project insertion by parent rank, then in-progress blocks first.
  - `TeamRankScenarios` replays the repository's rank fixture.
  - `TimeSensitiveRank` covers the due-date, inert and RICE blocks.
  - `FixVersionRank` covers the fix-version block and the catch-all block.
  - `LegacyRank` covers the older slot and queue variant in src/rules/rank.py.
  - `Sorting` holds the stable insertion sort that all of these, and Python's
    `sorted`, come down to.
- **Priority from rank.** `PriorityFromRank` applies the 1/16, 1/8, 1/4 and 1
  position tiers. `PriorityByComponent` applies the same tiers per component
  and takes the best one.
- **Per-issue rules:**
  - `Status` rolls status up from children.
  - `DueDate` and `LegacyDueDate` propagate the earliest due date.
  - `DueDateByFixVersion` pulls the due date in to the earliest fix version.
  - `TargetEnd` takes the latest child target end, behind a 75% estimation gate.
  - `Components` reconciles the issue's components with its children's.
  - `TeamPriority` takes the maximum priority of the related issues.
  - `QuarterLabel` reconciles quarter labels with the parent's.
  - `OutcomeVersion` reconciles fix versions.
  - `TargetDates` warns about target dates.
  - `ParentLink` requires a parent link.
- **Utilities.** `JiraUtils` covers the query builders, the field-id lookup,
  the non-compliant label state machine and `update`. `Configuration` covers
  config validation.

Where the source loops, appends or removes in place, the model is a method
with loop invariants, proved against a specification function. Where the
source computes a value, the model is a function with lemmas.

## Model

| member | source | states |
|---|---|---|
| MoveEmitter.FirstDivergence | src/rules/team/rank.py:70-74 | the rankings agree before the index returned, and differ at it unless it is the end |
| MoveEmitter.MovesBetween | src/rules/team/rank.py:75-80 | one move per index in the range, each ranking the issue there directly after its predecessor in the new ranking |
| MoveEmitter.SetRank | src/rules/team/rank.py:59-80 | a live run sends exactly the moves "new[i] after new[i-1]" for every i from max(1, first divergence) on; a dry run sends nothing and lists the same issues |
| MoveEmitter.UnchangedRankingHasNoMoves | src/rules/team/rank.py:70-80 | an unchanged ranking produces no move and lists nothing |
| MoveEmitter.DryRunListsMovedIssues | src/rules/team/rank.py:75-79 | a dry run lists exactly the issues a live run would move, in the same order |
| MoveEmitter.KeysPermutation | src/rules/team/rank.py:48-53 | reordering the issues reorders their keys |
| MoveEmitter.MovesRealizeNewRanking | src/rules/team/rank.py:59-80 | when the new ranking is a permutation of the old one without repeated keys, applying the moves to the old order gives exactly the new order |
| TeamRank.FindBlock | src/rules/team/rank.py:116-120 | the index returned is that of the first block with the given parent, or the number of blocks when none has it |
| TeamRank.GroupedKeepsEveryIssue | src/rules/team/rank.py:103-124 | grouping neither loses nor duplicates an issue: the blocks' issues are a permutation of the input |
| TeamRank.GroupedShape | src/rules/team/rank.py:108-124 | no block is empty, each orphan opens a block of its own, and no two blocks share a parent |
| TeamRank.GroupedParentBlock | src/rules/team/rank.py:108-124 | the block of a parent holds exactly the issues with that parent, in input order; a parent without issues has no block |
| TeamRank.FindBlockAfterAdd | src/rules/team/rank.py:116-123 | adding an issue keeps an existing parent block where it is and opens a parent's block only at the end |
| TeamRank.FlattenAppend | src/rules/team/rank.py:128-138 | the listing of two runs of blocks is the listing of the first followed by that of the second |
| TeamRank.FlattenPermutation | src/rules/team/rank.py:128-138 | reordering the blocks only reorders the listing |
| TeamRank.FlattenWithoutAnchors | src/rules/team/rank.py:130-135 | when no parent shares its first child's project, the listing is just the blocks' issues |
| TeamRank.BuildQueuesEntry | src/rules/team/rank.py:152-170 | after the first loop there is a queue for the orphans and for exactly the projects some parent belongs to, and each is that project's blocks stably sorted by parent rank |
| TeamRank.OtherProjectUntouched | src/rules/team/rank.py:159-170 | a block only changes the queue of its own parent's project |
| TeamRank.BuildQueuesFit | src/rules/team/rank.py:152-179 | every slot's project has a queue, each queue is exactly as long as its project's slots, and holds only blocks of that project, so no pop(0) fails |
| TeamRank.RethreadSlots | src/rules/team/rank.py:174-181 | the second loop yields one block per slot, of the same parent project as the block that held the slot |
| TeamRank.RethreadOfProject | src/rules/team/rank.py:174-181 | the blocks of one project come out in exactly the order of that project's queue |
| TeamRank.ByProjectRankKeepsSlots | src/rules/team/rank.py:144-181 | blocks only swap with blocks of the same parent project: every position keeps its project (orphans theirs) |
| TeamRank.ByProjectRankPerProject | src/rules/team/rank.py:144-181 | the blocks of each project, read in order, are that project's blocks stably sorted by parent rank |
| TeamRank.ByProjectRankOrdersEachProject | src/rules/team/rank.py:159-170 | each project's blocks end up sorted by parent rank, and blocks of equal rank keep their input order |
| TeamRank.ByProjectRankKeepsOrphans | src/rules/team/rank.py:155-157 | orphan blocks keep their order |
| TeamRank.ByProjectRankPermutation | src/rules/team/rank.py:144-181 | reranking by project only permutes the blocks |
| TeamRank.StatusOrderPermutation | src/rules/team/rank.py:183-195 | the status pass only permutes the blocks |
| TeamRank.StatusOrderIsStableSort | src/rules/team/rank.py:183-195 | the status pass is the stable sort that puts blocks with an in-progress parent first |
| TeamRank.SortedPermutation | src/rules/team/rank.py:140-142 | sorting permutes the blocks and keeps the length of the listing |
| TeamRank.SortedWellFormed | src/rules/team/rank.py:140-142 | sorting keeps every block non-empty, so the listing's first-issue lookup stays defined |
| TeamRank.GroupedNonEmpty | src/rules/team/rank.py:149 | there is a first block exactly when there is an issue |
| TeamRank.Blocks.constructor | src/rules/team/rank.py:103-106 | the blocks are the input grouped issue by issue |
| TeamRank.Blocks.AddIssue | src/rules/team/rank.py:108-124 | an orphan opens a block at the end; an issue joins its parent's block, opened at the end when missing |
| TeamRank.Blocks.GetIssues | src/rules/team/rank.py:126-138 | returns the listing: each block's parent when it shares its first issue's project, then the block's issues |
| TeamRank.Blocks.InsertBlock | src/rules/team/rank.py:162-168 | the block goes before the first block of strictly higher parent rank, else at the end |
| TeamRank.Blocks.RankPerProject | src/rules/team/rank.py:152-170 | the loop builds exactly the per-project queues |
| TeamRank.Blocks.FillSlots | src/rules/team/rank.py:174-179 | each slot takes the front of its project's queue |
| TeamRank.Blocks.SortByProjectRank | src/rules/team/rank.py:144-181 | fails on no blocks (the rank field lookup of the first block); otherwise the blocks become their per-project rank order |
| TeamRank.Blocks.SortByStatus | src/rules/team/rank.py:183-195 | blocks with an in-progress parent first, both groups in their previous order |
| TeamRank.Blocks.Sort | src/rules/team/rank.py:140-142 | the blocks become their project-rank order followed by the status pass; fails on no blocks |
| TeamRank.CheckRank | src/rules/team/rank.py:39-56 | fails iff there is no issue; otherwise moves exactly the issues from the first divergence between the old and sorted listings on, or only lists them in a dry run |
| TeamRankScenarios.GroupedDistinctParents | src/rules/team/rank.py:108-124 | when no two issues share a parent, grouping gives every issue a block of its own, in input order |
| TeamRankScenarios.StatusOrderIdle | src/rules/team/rank.py:183-195 | when no block's parent is in progress, the status step keeps the block order |
| TeamRankScenarios.ByProjectRankFive | src/rules/team/rank.py:144-181 | with the middle three blocks in one project, the orphans keep their slots and the project's slots take its blocks in insertion order |
| TeamRankScenarios.FixtureBlocks | src/tests/conftest.py:30-41 | the fixture groups into five single-story blocks: child0, parent1's, parent2's, parent3's, child4 |
| TeamRankScenarios.FixtureInsertion | src/rules/team/rank.py:162-168 | parent3's block is queued before parent1's when ranked below 1, between parent1's and parent2's when ranked in [1, 3), and last otherwise |
| TeamRankScenarios.QueuesOfFive | src/rules/team/rank.py:152-170 | with the middle three blocks in one project, the orphans' queue is the two orphans in order and the project's queue is built by insertion |
| TeamRankScenarios.RethreadFixture | src/rules/team/rank.py:174-179 | the orphan slots keep their orphans and the three project slots take the queue's blocks in order |
| TeamRankScenarios.SortedFive | src/rules/team/rank.py:140-195 | with no parent in progress, sorting the five blocks gives the orphans in place and the project's queue in the middle slots |
| TeamRankScenarios.FixtureSortedLast | src/rules/team/rank.py:140-195 | when parent3 ranks at or after parent2, sorting leaves the fixture's blocks unchanged |
| TeamRankScenarios.FixtureSortedFirst | src/rules/team/rank.py:140-195 | when parent3 ranks before parent1, its block moves to the first project slot and the other two shift down |
| TeamRankScenarios.FixtureListing | src/rules/team/rank.py:126-138 | the fixture is listed child0, parent1, child1, parent2, child2, parent3, child3, child4 |
| TeamRankScenarios.SingleMoveListing | src/tests/test_rank.py:19-25 | after sorting with parent3 first, the listing is child0, parent3, child3, parent1, child1, parent2, child2, child4 |
| TeamRankScenarios.RankIdempotence | src/tests/test_rank.py:4-9 | with parent3 ranked at or after parent2 (the test ranks it 5) the listing is unchanged by sorting and no move is issued |
| TeamRankScenarios.RankSingleMove | src/tests/test_rank.py:12-25 | with parent3 ranked before parent1 (the test ranks it 0) the listing changes, child0 stays first and parent3's block follows it |
| TimeSensitiveRank.Tier | src/rules/team/timesensitive_rank.py:154-164 | the block an issue lands in is one that claims it, and no earlier block claims it |
| TimeSensitiveRank.TierIsFirstClaim | src/rules/team/timesensitive_rank.py:98-145 | an issue lands in the due-date block iff it is due before the deadline, in the RICE block iff it is not and sits in the bottom third, and in the inert block otherwise |
| TimeSensitiveRank.Blocks.constructor | src/rules/team/timesensitive_rank.py:149-152 | each of the three blocks holds exactly the input issues that land in it, in input order |
| TimeSensitiveRank.Blocks.AddIssue | src/rules/team/timesensitive_rank.py:154-164 | the issue is appended to the first block that claims it and no other block changes; some block always claims it |
| TimeSensitiveRank.Blocks.GetIssues | src/rules/team/timesensitive_rank.py:166-172 | the due-date block sorted by due date, then the inert block as is, then the RICE block by descending score |
| TimeSensitiveRank.CheckTimeSensitiveRank | src/rules/team/timesensitive_rank.py:21-38 | the old ranking is the input; moves (or, in a dry run, listed keys) are those of the shared emitter for the new ranking, which has the input's length |
| TimeSensitiveRank.BlockOfStep | src/rules/team/timesensitive_rank.py:151-152 | each further input issue extends exactly its own block by itself |
| TimeSensitiveRank.BlocksPartition | src/rules/team/timesensitive_rank.py:149-164 | the three blocks together hold every input issue exactly as often as the input does |
| TimeSensitiveRank.BlockMembership | src/rules/team/timesensitive_rank.py:154-164 | an issue is in a block exactly when it is in the input and lands in that block |
| TimeSensitiveRank.NewRankingPermutation | src/rules/team/timesensitive_rank.py:166-172 | the new ranking is a permutation of the input |
| TimeSensitiveRank.DueDatedIssuesComeFirst | src/rules/team/timesensitive_rank.py:127-145 | every issue due before the deadline is in the ranking's head, which is sorted by due date (missing last) and keeps input order among equal dates |
| TimeSensitiveRank.RiceTailDescending | src/rules/team/timesensitive_rank.py:105-121 | the RICE block closes the ranking, by descending score (missing counts as 0), stable among equal scores |
| TimeSensitiveRank.InertKeepsInputOrder | src/rules/team/timesensitive_rank.py:92-99 | two issues of the inert block keep their input order |
| TimeSensitiveRank.RiceClaimsTail | src/rules/team/timesensitive_rank.py:115-121 | on an input without repeats, position i of n is claimed iff i / n > 0.66, so the RICE claim covers a suffix of the input |
| TimeSensitiveRank.MovesRealizeTimeSensitiveRanking | src/rules/team/timesensitive_rank.py:41-76 | when no key repeats, applying the emitted moves to the input's order yields the new ranking |
| FixVersionRank.ReleaseDates | src/rules/team/fixversion_rank.py:111-115 | exactly the release dates that the fix versions carry |
| FixVersionRank.MinDate | src/rules/team/fixversion_rank.py:118 | the first of the sorted dates: one of them, and no later than any |
| FixVersionRank.EarliestFixVersionDate | src/rules/team/fixversion_rank.py:107-118 | none iff no fix version has a release date; otherwise the earliest release date among them |
| FixVersionRank.Blocks.constructor | src/rules/team/fixversion_rank.py:130-133 | the fix-version block holds the claimed issues in input order, followed by one catch-all block with the rest when there are any |
| FixVersionRank.Blocks.AddIssue | src/rules/team/fixversion_rank.py:135-146 | a claimed issue joins the fix-version block; any other joins the first plain block, created at the end on first need |
| FixVersionRank.Blocks.GetIssues | src/rules/team/fixversion_rank.py:148-154 | corrected, see Findings: lists the blocks in order, the fix-version block by ascending due date (missing last) |
| FixVersionRank.Blocks.Sort | src/rules/team/fixversion_rank.py:156-170 | the fix-version blocks first, the others after, each group in its order |
| FixVersionRank.CheckFixVersionRank | src/rules/team/fixversion_rank.py:12-29 | corrected, see Findings: the old ranking is the input; moves (or, in a dry run, listed keys) are those of the shared emitter for the new ranking, which has the input's length |
| FixVersionRank.ClaimedSnoc | src/rules/team/fixversion_rank.py:139-146 | one more issue goes to exactly one of the two blocks, as the fix-version test decides |
| FixVersionRank.LayoutStep | src/rules/team/fixversion_rank.py:135-146 | adding one issue to the blocks of a prefix gives the blocks of the longer prefix |
| FixVersionRank.ClaimedPartition | src/rules/team/fixversion_rank.py:130-146 | the two blocks together hold every input issue exactly as often as the input does |
| FixVersionRank.ClaimedMembers | src/rules/team/fixversion_rank.py:120-146 | an issue is in the fix-version block iff it is an input issue whose earliest release date is before the deadline, and in the catch-all block iff it is an input issue without one |
| FixVersionRank.SortKeepsLayout | src/rules/team/fixversion_rank.py:159-170 | the sort leaves the blocks as built, since the fix-version block is already first |
| FixVersionRank.NewRankingShape | src/rules/team/fixversion_rank.py:93-97 | corrected, see Findings: the new ranking is the claimed issues sorted stably by due date, then the other issues in input order |
| FixVersionRank.NewRankingPermutation | src/rules/team/fixversion_rank.py:148-170 | corrected, see Findings: the new ranking is a permutation of the input |
| FixVersionRank.ListingFailsWithoutFixVersionIssue | src/rules/team/fixversion_rank.py:95 | the listing as written fails iff no issue is claimed; otherwise it equals the corrected listing |
| FixVersionRank.OneUndatedIssueFails | src/rules/team/fixversion_rank.py:95 | a single issue without fix versions makes the listing as written fail, where the corrected listing is just that issue |
| FixVersionRank.YieldAsWritten | src/rules/team/fixversion_rank.py:93-97 | as written, listing a block fails exactly when it is the fix-version block and holds no issue; otherwise it lists what the corrected listing lists |
| FixVersionRank.ListAllAsWritten | src/rules/team/fixversion_rank.py:148-154 | as written, get_issues fails exactly when some fix-version block is empty; otherwise it returns the corrected listing |
| FixVersionRank.MovesRealizeFixVersionRanking | src/rules/team/fixversion_rank.py:32-67 | corrected, see Findings: when no key repeats, applying the emitted moves to the input's order yields the new ranking |
| LegacyRank.Orphans | src/rules/rank.py:63-68 | exactly the input issues without a parent |
| LegacyRank.Children | src/rules/rank.py:112-116 | exactly the input issues whose parent is the given one |
| LegacyRank.RankingDataOf | src/rules/rank.py:54-78 | the loop records, issue by issue, a slot per orphan and per first sight of a parent, and the per-project queues |
| LegacyRank.SortParentsByRankPerProject | src/rules/rank.py:81-92 | every project queue but the orphans' is replaced by its stable sort by rank |
| LegacyRank.SetRank | src/rules/rank.py:95-133 | each slot takes the front of its project's queue; each placed issue is ranked after the issue placed or anchored just before it |
| LegacyRank.RankSlot | src/rules/rank.py:107-132 | an orphan is placed alone; a parent's children are placed in input order, after the parent when it shares the first child's project |
| LegacyRank.RankBlock | src/rules/rank.py:127-132 | each issue of a block is ranked directly after the previous one, the first after whatever came before the block |
| LegacyRank.CheckRank | src/rules/rank.py:39-52 | fails iff there is no issue; a dry run writes nothing; otherwise the queues fit the slots and the writes are the moves of the whole slot stream |
| LegacyRank.GetRankingDataConsistent | src/rules/rank.py:54-78 | the slots and queues agree: one queue entry per slot of its project, orphans in input order, each parent queued once under its project and with a child |
| LegacyRank.SortQueuesConsistent | src/rules/rank.py:81-92 | sorting the project queues keeps the data consistent with the issues |
| LegacyRank.ConsistentFits | src/rules/rank.py:107-123 | on consistent data no pop(0) runs out and every popped parent has a child, so the first-child lookup is defined |
| LegacyRank.EveryIssuePlaced | src/rules/rank.py:95-133 | an issue is placed by the re-ranking iff it is an input issue |
| LegacyRank.BlocksKeepTheirProject | src/rules/rank.py:107-116 | each slot is taken by a parent of its own project, and an orphan slot by the orphan of that position in input order |
| LegacyRank.ProjectBlocksFollowRank | src/rules/rank.py:84-111 | within a project, the parents' blocks come in ascending rank order |
| Status.UpdatedStatus | src/rules/team/status.py:99-119 | "To Do" iff the set is exactly {To Do}, "Done" iff it is exactly {Done}, "In Progress" iff it is neither |
| Status.ChildCategories | src/rules/team/status.py:91-96 | the set collected over at least one child is never empty |
| Status.ChildCategoriesMembers | src/rules/team/status.py:91-96 | a category is in the set iff one of the children visited ends with it |
| Status.TransitionId | src/rules/team/status.py:169-172 | an id is found iff the first offered transition with the name has a non-empty id (an empty id is falsy and counts as none), and then it is that id |
| Status.IndexOfName | src/rules/team/status.py:170-172 | the position of the first offered transition with the name, or the length when none has it |
| Status.SetStatusFromChildren | src/rules/team/status.py:41-71 | returns the category the issue ends with (its own without children, the roll-up of its children's otherwise); appends its descendants' lines and then its own, and the transitions in the same order |
| Status.GetChildrenStatusCategories | src/rules/team/status.py:74-96 | processes each child in turn and returns exactly the set of categories they end with |
| Status.UpdateStatus | src/rules/team/status.py:122-176 | appends exactly one update line, and outside a dry run the transition when one with the mapped name is offered |
| Status.LeafIsLeftAlone | src/rules/team/status.py:63-65 | an issue without children keeps its own category and causes no line and no transition |
| Status.ParentFollowsChildren | src/rules/team/status.py:63-71 | a parent ends "To Do" iff every child ends "To Do", and "Done" iff every child ends "Done" |
| Status.AllChildrenIn | src/rules/team/status.py:91-96 | the categories of the first n children are exactly {c} iff each of them ends in c |
| Status.OwnUpdateIsLast | src/rules/team/status.py:67-69 | the issue gets its own line iff it has children and its roll-up differs from its category; that line comes last |
| Status.KeyOnlyInDryRun | src/rules/team/status.py:152-165 | the line names the issue key iff in a dry run, and names one of "New", "In Progress" or "Closed" |
| Status.NoTransitionWithoutOffer | src/rules/team/status.py:167-176 | with no offered transition of the mapped name, or in a dry run, no transition is sent |
| Status.SettledTreeIsLeftAlone | src/rules/team/status.py:41-71 | a tree whose every parent already shows its children's roll-up gets no line and no transition |
| DueDate.FirstEarliest | src/rules/team/due_date.py:32-39 | the choice, when there is one, is an element of the list and carries a date |
| DueDate.FirstEarliestIsFirstMinimum | src/rules/team/due_date.py:32-39 | nothing is chosen iff no element is dated; otherwise the chosen element is dated, no dated element is earlier, and every dated element before it is strictly later (ties keep the first) |
| DueDate.FirstEarliestIgnoresUndated | src/rules/team/due_date.py:34-36 | dropping elements without a date does not change the choice |
| DueDate.Related | src/rules/team/due_date.py:24-27 | the related list is empty iff the issue blocks no issue and has no parent; a present parent is its last element |
| DueDate.EarliestDueDate | src/rules/team/due_date.py:32-39 | the loop ends with the first earliest related issue as the source and that issue's due date as the target |
| DueDate.CheckDueDate | src/rules/team/due_date.py:12-65 | appends exactly the rule's updates, comments and writes; compliance unchanged |
| DueDate.IgnoredIssueOnlyNoticed | src/rules/team/due_date.py:15-22 | an ignored issue gets the single "Ignoring" notice, no comment and no write |
| DueDate.NothingRelatedNoChange | src/rules/team/due_date.py:24-29 | when the issue blocks no issue and has no parent there is no update, comment or write, even when a due date is set |
| DueDate.TargetIsEarliest | src/rules/team/due_date.py:32-39 | the target is absent iff no related issue has a due date; otherwise it is the due date of a related issue and no related due date is earlier |
| DueDate.UpdateExactlyWhenDifferent | src/rules/team/due_date.py:41-54 | a comment is made iff the target differs from the current due date (a missing target clears it); the same line goes to updates and comments; the write of the target happens iff not dry run and they differ |
| DueDate.MessageNamesSource | src/rules/team/due_date.py:45-48 | the update line names a source issue iff there is a target |
| DueDate.WarningExactlyWhenTargetEndLater | src/rules/team/due_date.py:60-65 | the "Target Date exceeds Due Date" line appears iff the issue is not ignored, has related issues, and its target end is later than the target due date |
| DueDate.ApplyingTheTargetSettles | src/rules/team/due_date.py:41-54 | once the target is the issue's due date, the rule makes no comment and no write |
| LegacyDueDate.Minimum | src/rules/due_date.py:17-23 | absent iff no related issue is dated; otherwise the due date of one of them, no later than any other |
| LegacyDueDate.MinimumDueDate | src/rules/due_date.py:17-23 | the loop ends with the minimum related due date |
| LegacyDueDate.CheckDueDate | src/rules/due_date.py:8-31 | appends exactly the rule's update and write; comments and compliance unchanged |
| LegacyDueDate.NothingRelatedNoChange | src/rules/due_date.py:9-14 | when the issue blocks no issue and has no parent there is no update and no write |
| LegacyDueDate.UpdateExactlyWhenDifferent | src/rules/due_date.py:25-31 | one update iff the minimum differs from the current due date (a missing minimum clears it); the write of the minimum happens iff not dry run and they differ |
| LegacyDueDate.AgreesWithTeamRule | src/rules/due_date.py:17-23 | the older loop's minimum is the due date of the team rule's first-earliest choice |
| LegacyDueDate.SameTargetAsTeamRule | src/rules/due_date.py:8-23 | the older rule and the team rule set the same due date on every issue |
| DueDateByFixVersion.EarliestFixVersion | src/rules/team/due_date_by_fixversion.py:13-22 | the version picked, when there is one, is one of the issue's fix versions and has a release date |
| DueDateByFixVersion.EarliestIsFirstEarliest | src/rules/team/due_date_by_fixversion.py:13-22 | sorting the dated versions stably by release date and taking the head picks the same version as a left-to-right scan for the first earliest release date |
| DueDateByFixVersion.SortedHeadIsFirstEarliest | src/rules/team/due_date_by_fixversion.py:22 | among dated versions, the head of the stable sort by release date is the first one holding the earliest date |
| DueDateByFixVersion.EarliestIsFirstMinimum | src/rules/team/due_date_by_fixversion.py:13-22 | nothing is picked iff no fix version is dated; otherwise the pick holds the earliest release date, and every dated version before it is strictly later |
| DueDateByFixVersion.CheckDueDateByFixVersion | src/rules/team/due_date_by_fixversion.py:25-62 | appends exactly the rule's updates, comments and writes; compliance unchanged |
| DueDateByFixVersion.IgnoredIssueOnlyNoticed | src/rules/team/due_date_by_fixversion.py:28-35 | an ignored issue gets the single "Ignoring" notice, no comment and no write |
| DueDateByFixVersion.NoDatedVersionNoChange | src/rules/team/due_date_by_fixversion.py:37-39 | with no dated fix version there is no update, comment or write |
| DueDateByFixVersion.NeverPushedLater | src/rules/team/due_date_by_fixversion.py:52-62 | a write sets the earliest release date, and only over a missing due date or a later one |
| DueDateByFixVersion.MessageKinds | src/rules/team/due_date_by_fixversion.py:52-59 | "Setting" is used for a missing due date and "Pulling in" for a later one; an earlier or equal due date gets no line |
| DueDateByFixVersion.ApplyingTheReleaseSettles | src/rules/team/due_date_by_fixversion.py:52-62 | once the written date is the issue's due date, the rule prints and writes nothing more |
| TargetEnd.FirstLatest | src/rules/program/target_end.py:27-34 | the choice, when there is one, is one of the children and has a target end |
| TargetEnd.CountEstimated | src/rules/program/target_end.py:27-31 | the count never exceeds the number of children |
| TargetEnd.LatestTargetEnd | src/rules/program/target_end.py:27-34 | the loop ends with the first latest child as the source, its target end as the latest date, and the number of children with a target end |
| TargetEnd.CheckTargetEndDate | src/rules/program/target_end.py:10-59 | appends exactly the rule's update and write; comments and compliance unchanged |
| TargetEnd.KeptChildrenAreTheCountedOnes | src/rules/program/target_end.py:17-25 | a child is kept iff it is not Done or has a target end |
| TargetEnd.FirstLatestIsFirstMaximum | src/rules/program/target_end.py:27-34 | nothing is chosen iff no child has a target end; otherwise the choice holds the latest target end, and every estimated child before it is strictly earlier (ties keep the first) |
| TargetEnd.CountIsEstimatedChildren | src/rules/program/target_end.py:27-31 | the count is the number of children that have a target end |
| TargetEnd.TargetFollowsGate | src/rules/program/target_end.py:36-43 | with no kept children, or fewer than 75% of them estimated, the target is absent; otherwise it is the first latest kept child's target end |
| TargetEnd.FullyEstimatedPropagates | src/rules/program/target_end.py:36-43 | when every kept child is estimated, the latest target end is propagated |
| TargetEnd.UpdateExactlyWhenDifferent | src/rules/program/target_end.py:45-59 | an update iff the target differs from the current target end (a missing target clears it); the line depends on the gate; the write happens iff not dry run and they differ |
| TargetEnd.ApplyingTheTargetSettles | src/rules/program/target_end.py:45-59 | once the target is the issue's target end, the rule prints and writes nothing more |
| QuarterLabel.AddQuarterLabels | src/rules/team/quarter_label.py:19-24 | reports exactly the labels `Added` gives; a live run appends them to the issue's labels, a dry run leaves the labels alone |
| QuarterLabel.AddedAreMissingParentQuarterLabels | src/rules/team/quarter_label.py:19-24 | every label added is a quarter label of the parent that the issue lacks, each such label is added, and a live run adds each only once |
| QuarterLabel.StaleAndKeptMembers | src/rules/team/quarter_label.py:25-30 | the reported labels are exactly the issue's quarter labels absent from the parent; the kept ones are exactly the others |
| QuarterLabel.RemoveStaleQuarterLabels | src/rules/team/quarter_label.py:25-30 | corrected, see Findings: every stale label is reported, in order; a live run leaves exactly the labels that are not stale, a dry run leaves the labels unchanged |
| QuarterLabel.ReconcileQuarterLabels | src/rules/team/quarter_label.py:19-30 | corrected, see Findings: the second loop sees the labels the first loop left: it reports the stale ones among them and a live run keeps the rest |
| QuarterLabel.CheckQuarterLabel | src/rules/team/quarter_label.py:10-32 | corrected, see Findings: returns the final labels and appends exactly the rule's lines and write; comments and compliance unchanged |
| QuarterLabel.ParentlessIsLeftAlone | src/rules/team/quarter_label.py:13-15 | without a parent there is no line, no write and no label change |
| QuarterLabel.LiveRunReconciles | src/rules/team/quarter_label.py:19-30 | corrected, see Findings: after a live run the issue holds a quarter label iff the parent does, and any other label iff it held it before |
| QuarterLabel.DryRunChangesNothing | src/rules/team/quarter_label.py:22-32 | a dry run changes no label and writes nothing |
| QuarterLabel.ApplyingTheLabelsSettles | src/rules/team/quarter_label.py:17-32 | corrected, see Findings: once the reconciled labels are written, a second live run reports and writes nothing |
| QuarterLabel.AsWrittenSkipsTheNextLabel | src/rules/team/quarter_label.py:25-30 | with two stale quarter labels, the loop as written reports and removes only the first, while every stale label should go |
| QuarterLabel.RemoveAsWritten | src/rules/team/quarter_label.py:25-30 | as written, every reported label is a quarter label the parent lacks; a dry run removes nothing; a live run removes exactly one copy of each reported label |
| OutcomeVersion.Names | src/rules/team/outcome_version.py:28 | the names of the versions, one per version, in order |
| OutcomeVersion.RemovingMessagesNameEach | src/rules/team/outcome_version.py:22-26 | one removal line per removed version, naming it, in order |
| OutcomeVersion.RemoveOtherKeyVersions | src/rules/team/outcome_version.py:22-26 | walking a copy, the list left is the versions that are kept and the versions reported are those dropped, each in list order |
| OutcomeVersion.ReconcileVersions | src/rules/team/outcome_version.py:21-37 | the removal loop, then the target version appended iff it is a non-empty name missing from what is left |
| OutcomeVersion.SetFixVersion | src/rules/team/outcome_version.py:7-47 | returns the issue's final versions and appends exactly the rule's lines and write; comments and compliance unchanged |
| OutcomeVersion.IssueKeyLikeIsPrefixMatch | src/rules/team/outcome_version.py:21 | a name is key-like iff it starts with a run of capitals followed by a hyphen, which is what the pattern `[A-Z]*-[0-9]*` matches at the start |
| OutcomeVersion.IssueKeyIsKeyLike | src/rules/team/outcome_version.py:21 | "ABC-123" and "-" are key-like; "v1.0" and "ABC" are not |
| OutcomeVersion.ParentlessIsLeftAlone | src/rules/team/outcome_version.py:8-10 | a parentless issue keeps its versions and gets no line and no write |
| OutcomeVersion.RemovedAreOtherKeyVersions | src/rules/team/outcome_version.py:12-26 | a version is removed iff it is key-like and not named after the Outcome grandparent; each removal has its own line, first in the updates |
| OutcomeVersion.Reconciles | src/rules/team/outcome_version.py:12-37 | afterwards the only key-like version is the target, the target is there whenever it is a non-empty name, every version that is not key-like is kept, and nothing else appears |
| OutcomeVersion.RemainingMembers | src/rules/team/outcome_version.py:22-26 | the versions left are exactly the issue's versions that are not dropped |
| OutcomeVersion.TargetPresent | src/rules/team/outcome_version.py:28-37 | a non-empty target name is among the final version names |
| OutcomeVersion.UpdatedExactlyWhenChanged | src/rules/team/outcome_version.py:22-47 | something is reported iff the list changes, and a live run writes iff the list changes |
| OutcomeVersion.ApplyingTheVersionsSettles | src/rules/team/outcome_version.py:7-47 | running the rule on its own result reports and writes nothing |
| TeamPriority.Level | src/rules/team/priority.py:4-15 | a name has a level iff it is on the priority scale, and the level is its position on the scale; an unknown name is an error carrying that name |
| TeamPriority.MaxLevelIsUpperBound | src/rules/team/priority.py:14-20 | when the maximum is defined, every issue's priority is known and its level is at most the maximum |
| TeamPriority.MaxLevelIsAttained | src/rules/team/priority.py:16-19 | the maximum is 0 for no issues and otherwise the level of one of the issues |
| TeamPriority.MaxPriorityIsHighest | src/rules/team/priority.py:14-20 | the result is on the scale, no issue's priority is above it, and it is one of the issues' priorities (or "Undefined" for none) |
| TeamPriority.UnknownNameIsError | src/rules/team/priority.py:15 | the maximum fails iff some issue's priority name is not on the scale, and the error names the first such issue's priority |
| TeamPriority.CheckPriority | src/rules/team/priority.py:23-35 | succeeds iff every related priority is known; appends exactly the rule's message and write, nothing else |
| TeamPriority.MessageOnChangeWriteAlways | src/rules/team/priority.py:30-35 | a message appears iff the priority changes; in live mode the write is issued even when nothing changes |
| TeamPriority.NothingRelatedIsUndefined | src/rules/team/priority.py:16-20 | when the issue blocks no issue and has no parent the target priority is "Undefined" |
| TeamPriority.ApplyingTheTargetSettles | src/rules/team/priority.py:29-33 | after the target priority is set, the rule prints nothing more |
| Components.LexTransitive | src/rules/program/components.py:11-15 | the string order used by `sort` is transitive |
| Components.LexTotal | src/rules/program/components.py:11-15 | the string order is total on distinct names |
| Components.SortNamesFacts | src/rules/program/components.py:9-11 | the children's names sorted are strictly ascending and hold exactly the names some child carries |
| Components.SortedIsUnique | src/rules/program/components.py:11-30 | two strictly ascending lists with the same names are equal |
| Components.ChildNames | src/rules/program/components.py:9 | a name is collected iff some child carries it |
| Components.CheckComponents | src/rules/program/components.py:6-33 | appends the add/remove messages and the write the rule decides on; comments and compliance unchanged |
| Components.DifferencesAreMembership | src/rules/program/components.py:17-18 | a name is to be added iff some child has it and the issue does not; it is to be removed iff the issue has it and no child does |
| Components.NothingToDoIffSameNames | src/rules/program/components.py:17-25 | no message iff the issue's name set equals the children's; a write happens iff not dry run and some difference exists |
| Components.WrittenListIsSortedChildNames | src/rules/program/components.py:25-33 | the list written is strictly ascending and holds exactly the children's names |
| Components.ApplyingTheNamesSettles | src/rules/program/components.py:17-33 | once the written names are the issue's components, the rule reports and writes nothing |
| Components.WrittenListIsDetermined | src/rules/program/components.py:11-30 | any strictly ascending list of exactly the children's names is the list written |
| TargetDates.CheckTargetDates | src/rules/team/target_dates.py:8-33 | appends exactly the warnings of the decision table to the updates; comments, compliance and writes stay as they were |
| TargetDates.DecisionTable | src/rules/team/target_dates.py:16-33 | at most two lines; "start obsolete" iff the start is set, before today and the status is New or Refinement; "start unset" iff it is unset and the parent is in progress; likewise for the end date without the status condition |
| TargetDates.CurrentDatesAreQuiet | src/rules/team/target_dates.py:23-33 | when both dates are set and not before today, nothing is reported |
| TargetDates.MissingDatesNeedParentInProgress | src/rules/team/target_dates.py:16-33 | with both dates unset, both "unset" lines appear iff the parent is present and in progress, and nothing otherwise |
| TargetDates.ObsoleteStaysObsolete | src/rules/team/target_dates.py:23-31 | a later run day never drops an "obsolete" line |
| ParentLink.CheckParentLink | src/rules/team/parent.py:7-20 | appends exactly the rule's notices and comments, sets the non-compliant flag when the rule flags the issue and keeps it otherwise, and writes nothing |
| ParentLink.IgnoredIssueOnlyNoticed | src/rules/team/parent.py:10-17 | an ignored issue gets the single "Ignoring" notice; it is not flagged and gets no comment |
| ParentLink.ParentPresentNoChange | src/rules/team/parent.py:18 | an issue with a parent is never flagged and gets no comment |
| ParentLink.MissingParentFlagged | src/rules/team/parent.py:10-20 | an issue without a parent is flagged iff the ignore expression is empty or does not hold, and the flag comes with exactly the missing-link comment |
| ParentLink.EmptyExpressionIsNotEvaluated | src/rules/team/parent.py:10 | with an empty ignore expression the outcome does not depend on the expression's value, and no notice is produced |
| Configuration.MissingKey | src/utils/configuration.py:19-21 | the error for a missing `jira/<key>` setting carries the key's name right after its fixed prefix |
| Configuration.FirstMissing | src/utils/configuration.py:17-18 | none is reported iff every required key is present; otherwise the reported key is one of the required keys and is absent |
| Configuration.Validate | src/utils/configuration.py:14-22 | raises exactly when `Validated` reports an error, leaving the configuration untouched; otherwise leaves the configuration as `Validated` returns it |
| Configuration.ErrorsNameWhatIsMissing | src/utils/configuration.py:15-21 | validation fails iff `jira`, `jira/project-id` or `jira/token` is missing; the first missing one, checked in that order, is named |
| Configuration.UrlDefaultsOrIsKept | src/utils/configuration.py:3-22 | after validation the url is the configured one when present and `https://issues.redhat.com` otherwise |
| Configuration.OnlyTheUrlChanges | src/utils/configuration.py:14-22 | validation changes no section other than `jira` and no setting other than `jira/url` |
| Configuration.ValidationIsIdempotent | src/utils/configuration.py:14-22 | validating a validated configuration succeeds and changes nothing |
| JiraUtils.OpenOfType | src/utils/jira.py:32 | the shared filter ends with "ORDER BY rank ASC" |
| JiraUtils.QueryIssuesShape | src/utils/jira.py:29-34 | with a non-empty subquery the query starts with it followed by " AND "; without one it starts with the project; it always ends with the rank order |
| JiraUtils.QueryChildIssuesShape | src/utils/jira.py:49-56 | the children scope starts with the project and ends with " AND " and the subquery only when the subquery is non-empty; the query ends with the rank order |
| JiraUtils.FirstId | src/utils/jira.py:120 | none iff no field has the display name; otherwise the id of the first field that has it |
| JiraUtils.LookUp | src/utils/jira.py:120-130 | a successful lookup holds exactly the wanted keys |
| JiraUtils.LookUpSucceeds | src/utils/jira.py:120-130 | the lookup succeeds iff every wanted display name is present, and then each key maps to the id of the first field with that name |
| JiraUtils.LookUpFailsAtFirstMissing | src/utils/jira.py:120-130 | on failure the error is the first wanted display name, in order, that no field has |
| JiraUtils.FieldIdsFacts | src/utils/jira.py:111-132 | get_fields_ids succeeds iff all five display names are present; then it maps exactly the five keys to the id of the first field with each name; otherwise it fails at the first missing name in table order |
| JiraUtils.Update | src/utils/jira.py:180-191 | the write is sent, and the issue keeps its labels and its attached context |
| JiraUtils.SetNonCompliantFlag | src/utils/jira.py:194-215 | the labels, comments and writes become those of the flag state machine; the context stays attached |
| JiraUtils.DryRunChangesNothing | src/utils/jira.py:199-201 | a dry run changes neither labels nor comments and writes nothing |
| JiraUtils.FlagFollowsCompliance | src/utils/jira.py:201-215 | after a live run the flag is present iff the issue is non-compliant, at most once, and every other label is untouched |
| JiraUtils.WrittenExactlyWhenChanged | src/utils/jira.py:201-215 | the labels are written iff a live run changes them |
| JiraUtils.FlaggedIssueIsNotCommentedAgain | src/utils/jira.py:202-211 | for an issue already flagged, the comments are dropped, and replaced by "Issue is now compliant" only when the flag is removed |
| JiraUtils.FlagSettles | src/utils/jira.py:201-215 | running the flag step again with the same verdict writes nothing |
| PriorityFromRank.TierAt | src/rules/team/priority_from_rank.py:77-95 | position i of a non-empty list of n lands in a block that claims it (i/n at most 1/16, 1/8, 1/4 or 1), and no earlier block claims it |
| PriorityFromRank.Blocks.constructor | src/rules/team/priority_from_rank.py:86-97 | after construction each of the four blocks holds exactly the issues whose first claiming block it is, in input order |
| PriorityFromRank.Blocks.AddIssue | src/rules/team/priority_from_rank.py:108-118 | the issue is appended to the first block that claims it and no other block changes; some block always claims, so the RuntimeError is never raised |
| PriorityFromRank.Blocks.Rank | src/rules/team/priority_from_rank.py:102-103 | the rank is the position of the issue's first occurrence in the input |
| PriorityFromRank.Blocks.Size | src/rules/team/priority_from_rank.py:105-106 | the size is the length of the input |
| PriorityFromRank.Blocks.GetIssues | src/rules/team/priority_from_rank.py:120-126 | the result is the blocks' issues, block by block, in block order |
| PriorityFromRank.PriorityUpdate | src/rules/team/priority_from_rank.py:34-57 | nothing is printed or written iff the issue already has the priority; otherwise the message cites the 1-based position of n, and the priority update and the comment are written iff the run is not a dry run |
| PriorityFromRank.CheckPriorityFromRank | src/rules/team/priority_from_rank.py:13-31 | given a footer in the context (see Left out), the printed messages and the writes are those of every issue, block by block, each set to its block's priority |
| PriorityFromRank.SetBlockPriority | src/rules/team/priority_from_rank.py:27-31 | visiting a block's issues in order extends the printed messages and the writes by each issue's outcome at its block's priority |
| PriorityFromRank.EveryPositionClaimed | src/rules/team/priority_from_rank.py:92 | the Minor block claims every position of a non-empty list, so every issue receives one of the four priorities |
| PriorityFromRank.TiersAreMonotone | src/rules/team/priority_from_rank.py:88-92 | the top of the backlog is Critical, and a lower position never gets a more urgent block than a higher one |
| PriorityFromRank.TenIssues | src/rules/team/priority_from_rank.py:88-92 | of ten issues, position 1 is Critical, 2 Major, 3 Normal and the other seven Minor |
| PriorityFromRank.BlockMembers | src/rules/team/priority_from_rank.py:96-97 | an issue is in block b iff it is in the input and b is the first block that claims it |
| PriorityFromRank.BlocksAreContiguous | src/rules/team/priority_from_rank.py:88-97 | for an input without repeats, the four blocks concatenated are the input prefix itself: the blocks cut the backlog into contiguous runs |
| PriorityFromRank.OrderIsInput | src/rules/team/priority_from_rank.py:120-126 | for an input without repeats, get_issues returns the input unchanged and the issue at position k has the block of position k |
| PriorityFromRank.ReportedExactlyWhenOff | src/rules/team/priority_from_rank.py:27-52 | for an input without repeats, the issue at position k is reported with position k+1 of n exactly when its priority differs from its block's |
| PriorityFromRank.NoticeSource | src/rules/team/priority_from_rank.py:47-52 | every printed message is the message of some visited issue |
| PriorityFromRank.SettledBacklogIsLeftAlone | src/rules/team/priority_from_rank.py:44-45 | once every issue has its block's priority, a run prints nothing and writes nothing |
| PriorityFromRank.DryRunWritesNothing | src/rules/team/priority_from_rank.py:53-57 | a dry run sends no write to the tracker |
| PriorityByComponent.Find | src/rules/team/priority_from_rank_by_component.py:76-78 | the lookup returns the first component with the name, or the end of the list when no component has it |
| PriorityByComponent.Components.FromIssues | src/rules/team/priority_from_rank_by_component.py:71-80 | after construction the components are exactly those that from_issues builds, issue by issue and component by component |
| PriorityByComponent.Components.FromSubset | src/rules/team/priority_from_rank_by_component.py:82-86 | the new object holds the given components |
| PriorityByComponent.Components.Add | src/rules/team/priority_from_rank_by_component.py:76-79 | the issue is appended to the component of that name, which is created at the end first when it is missing |
| PriorityByComponent.AddToEffect | src/rules/team/priority_from_rank_by_component.py:76-79 | adding changes only the named component's issues, by one more issue, and adds the name to the names only when it was new |
| PriorityByComponent.BuildIsTagged | src/rules/team/priority_from_rank_by_component.py:71-80 | from_issues creates one component per distinct name that any issue lists, and each holds the issues listing it, in input order, once per listing |
| PriorityByComponent.TaggedIsFilter | src/rules/team/priority_from_rank_by_component.py:74-79 | when no issue lists a component twice, the component holds exactly the issues listing it, in input order |
| PriorityByComponent.TaggedMembers | src/rules/team/priority_from_rank_by_component.py:74-79 | an issue is in a component iff it is in the input and lists that component |
| PriorityByComponent.Relevant | src/rules/team/priority_from_rank_by_component.py:26-28 | the relevant components are exactly the components that hold the issue |
| PriorityByComponent.Assess | src/rules/team/priority_from_rank_by_component.py:91-93 | one assessment per component, naming it, with its length as the total and the issue's first position in it as the index |
| PriorityByComponent.RankedBounds | src/rules/team/priority_from_rank_by_component.py:96-97 | sorting by percentile keeps every assessment, and each places the issue inside its component |
| PriorityByComponent.NoComponentsIsUndefined | src/rules/team/priority_from_rank_by_component.py:98-104 | an issue of the backlog is held by no component iff it lists none, and then its priority is "Undefined" with the no-components message |
| PriorityByComponent.PercentileAtMost | src/rules/team/priority_from_rank_by_component.py:127-136 | index / total at most 1/d is the integer comparison d * index <= total, so the thresholds are decided exactly |
| PriorityByComponent.TierFollowsPercentile | src/rules/team/priority_from_rank_by_component.py:127-136 | a smaller percentile never gets a less urgent priority |
| PriorityByComponent.PriorityIsBestTier | src/rules/team/priority_from_rank_by_component.py:120-138 | the priority is the leading assessment's block, and no other component's assessment has a smaller percentile or a more urgent block; the "How did we get here?" error cannot be raised |
| PriorityByComponent.LeaderIsFirstBest | src/rules/team/priority_from_rank_by_component.py:97-99 | because the sort is stable, the leader is the assessment of the first component with the smallest percentile |
| PriorityByComponent.PriorityUpdate | src/rules/team/priority_from_rank_by_component.py:39-56 | nothing happens iff the issue already has the priority; otherwise the given message is printed, and the update and the comment are written iff the run is not a dry run |
| PriorityByComponent.CheckPriorityFromRankByComponent | src/rules/team/priority_from_rank_by_component.py:15-36 | given a footer in the context (see Left out), the printed messages and writes are those of every issue in input order, each assessed in the components that hold it |
| PriorityByComponent.SettledIssuesAreLeftAlone | src/rules/team/priority_from_rank_by_component.py:48-49 | issues already at their computed priority cause no message and no write |
| PriorityByComponent.DryRunWritesNothing | src/rules/team/priority_from_rank_by_component.py:52-56 | a dry run sends no write to the tracker |
| Sorting.InsertionPoint | src/rules/team/rank.py:162-168 | the insertion point is the first position whose key is strictly greater than the new element's; every element before it has a key at most the new one's |
| Sorting.SortByPermutation | src/rules/rank.py:90-92 | a sort keeps every element: the result is a permutation of the input |
| Sorting.SortBySorted | src/rules/rank.py:90-92 | the result is in ascending key order |
| Sorting.SortByStable | src/rules/team/priority_from_rank_by_component.py:97 | elements with equal keys keep their input order, as Python's sorted does |
| Sorting.StableSortIsUnique | src/rules/team/timesensitive_rank.py:133 | two orderings of the same elements that are both ascending and keep equal keys in the same order are equal, so SortBy is Python's sorted |
| Sorting.SortBySortedIsIdentity | src/rules/team/rank.py:153-170 | inserting, in order, elements that are already in ascending order leaves them where they are |
| Sorting.SortByHead | src/rules/team/priority_from_rank_by_component.py:123 | the first element of the sort is the first element of the input with the smallest key |
| Sorting.InsertBySelect | src/rules/team/rank.py:162-168 | inserting before the first strictly greater key places the new element after every element with an equal key |
| Common.Context.constructor | src/automation.py:99-104 | a fresh per-issue context has no updates, no comments, is not marked non-compliant and has sent no write |
| Common.IndexOf | src/rules/team/priority_from_rank.py:80 | list.index: the position of the element's first occurrence |
| Common.RemoveFirstMultiset | src/rules/team/quarter_label.py:29 | list.remove takes out exactly one copy of the element when there is one and nothing otherwise |
| Common.FilterSplitPermutation | src/rules/team/rank.py:186-195 | splitting a list by a test and by its negation loses and duplicates nothing |

## Left out

- Network access to the tracker is not modelled: searching, ranking, transitions, posting comments, and fetching parents, children and blocked issues. Related issues are fields of the issue record, and writes are output values.
- `preprocess` (src/utils/jira.py) is not modelled: the context it attaches is taken as given.
- The fix-version lookup of `set_fix_version` is not modelled: the outcome issue and the version are inputs.
- Response caching and the retry helper are not modelled, because they depend on time, sleep and randomness.
- The ignore expressions are not evaluated. Each rule takes the expression and its truth value as parameters, and an empty expression is not evaluated, as in the source.
- `today` and the due-date horizons (120 days for the time-sensitive ranking, 90 days for the fix-version ranking) are parameters. Dates are integers YYYYMMDD, which order like the ISO strings the source compares; the "9999-99-99" sentinel is 99999999.
- Jira rank values are lexicographic strings. The model represents them as integers that keep their order.
- RICE scores are optional exact rationals. The parsing of the text field into a float is not modelled, and a missing score counts as 0.
- Thresholds are compared exactly: the 0.66 tail, the 1/16, 1/8, 1/4 and 1 tiers, the 75% estimation gate. Floating-point rounding at a boundary is not modelled.
- TargetEnd.CheckTargetEndDate: the percentage printed in the "too few estimated" message is not modelled. The message carries the counts instead, so `int(proportion * 100)` rounding is not part of the model.
- Messages are structured values, not formatted strings. Their wording, the footer being joined after a blank line, and the 1-based positions are not rendered as text.
- The model does not print progress output, the diff between the old and the new ranking, the comments printed by `set_non_compliant_flag`, or the "No transition" notice.
- TeamPriority.CheckPriority: refreshing the parent issue from the tracker is not modelled. The parent as attached to the issue is used.
- Components are identified by name. Component objects of the tracker are not modelled.
- TargetDates.CheckTargetDates: the source tests whether the status resource itself is in the list ["New", "Refinement"] (src/rules/team/target_dates.py:24), unlike line 20, which reads a name. Whether a status resource can equal a string depends on the tracker library, which is not part of this model. The model assumes the test compares the status name. If it never holds, the source never reports "Target Start Date is obsolete", while the model reports it for a past start date in status New or Refinement.
- Configuration values are strings, and loading the configuration file is file I/O and is not modelled.
- DueDateByFixVersion.CheckDueDateByFixVersion: the ValueError for a fix version without a release date is not modelled. It cannot be raised, because only fix versions with a release date are candidates.
- The command-line and orchestration scripts are not modelled: argument parsing and loops over network results.
- src/rules/team/rank_with_order_by.py is not modelled: it is driven entirely by tracker queries.
- The legacy stubs src/rules/outcome_version.py, src/rules/parent.py and src/rules/target_dates.py are not modelled. They divide by zero, or read context and field ids that nothing produces.
- The time-sensitive `Blocks.sort()` is the inherited list sort on an empty list, so it does nothing. The model keeps the blocks in their fixed order.
- FixVersionRank.Blocks.GetIssues, FixVersionRank.CheckFixVersionRank, FixVersionRank.NewRankingShape, FixVersionRank.NewRankingPermutation, FixVersionRank.MovesRealizeFixVersionRanking: these describe the listing with the empty-block guard restored. As written, src/rules/team/fixversion_rank.py:95 raises IndexError when no issue is claimed (see Findings); that behaviour is modelled only by FixVersionRank.ListAllAsWritten.
- QuarterLabel.RemoveStaleQuarterLabels, QuarterLabel.ReconcileQuarterLabels, QuarterLabel.CheckQuarterLabel, QuarterLabel.LiveRunReconciles, QuarterLabel.ApplyingTheLabelsSettles: these describe the removal loop walking a copy of the labels. As written, src/rules/team/quarter_label.py:25-30 skips the label after each removed one (see Findings); that behaviour is modelled only by QuarterLabel.RemoveAsWritten.
- Issues are compared by value: `==`, membership, `IndexOf` and `RemoveFirst` compare whole snapshots. The source compares tracker resources with the library's own equality: the comparison with the old ranking (src/rules/team/rank.py:71), the parent-block lookup (src/rules/team/rank.py:116-120) `issues.index` (src/rules/team/priority_from_rank.py:103 and src/rules/team/timesensitive_rank.py:119), the parent membership test (src/rules/rank.py:74), the parent equality (src/rules/rank.py:115) and `fix_versions.remove(fv)` (src/rules/team/outcome_version.py:25). The two agree when every key has one snapshot. The model assumes this: two children whose attached parents share a key but differ in another field, such as the rank, get two blocks in the model.
- PriorityFromRank.CheckPriorityFromRank, PriorityByComponent.CheckPriorityFromRankByComponent: the footer is a parameter here. The source reads `context["footer"]` before anything else (src/rules/team/priority_from_rank.py:20, src/rules/team/priority_from_rank_by_component.py:22). The only driver, src/automation.py, never puts that key in a context: lines 99-104 build each context without it, and lines 110-111 hand the last one to the group rules. Driven that way, both rules raise KeyError before any write, or UnboundLocalError when there is no issue. The model does not capture this failure and describes the rules as they behave when a context supplies the footer.
- OutcomeVersion.SetFixVersion: looking up the target version may create it in the tracker when no version of that name exists (src/utils/jira.py:163-172). The source does this whenever the target is added (src/rules/team/outcome_version.py:31-36), before the dry-run test, so even a dry run can create a version. The model takes the version as an input and emits no write for the lookup, so `Writes` of a dry run is empty.

## Findings

| source | as written | input that shows it | evidently intended | confidence | as-written member | corrected member |
|---|---|---|---|---|---|---|
| src/rules/team/fixversion_rank.py:95 | the fix-version block's `yield_issues` reads `issues[0]` without checking that the block has an issue | one issue without fix versions: nothing is claimed by the fix-version block, and listing the blocks raises IndexError | an empty fix-version block yields nothing, as the due-date block of the time-sensitive ranking does (`if not self.issues`) | not executed | FixVersionRank.ListAllAsWritten, FixVersionRank.ListingFailsWithoutFixVersionIssue, FixVersionRank.OneUndatedIssueFails | FixVersionRank.ListAll, FixVersionRank.NewRankingPermutation |
| src/rules/team/quarter_label.py:25-30 | stale quarter labels are removed from the list that is being iterated, so the label right after a removed one is never visited | labels ["2023Q1", "2023Q2"] and a parent without quarter labels: only "2023Q1" is removed, and "2023Q2" stays | every quarter label the parent lacks is removed | not executed | QuarterLabel.RemoveAsWritten, QuarterLabel.AsWrittenSkipsTheNextLabel | QuarterLabel.RemoveStaleQuarterLabels, QuarterLabel.LiveRunReconciles |
