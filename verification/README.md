# A verified model of the Banjar dictionary API

This project models the parts of the Kamus Banjar API that are state machines, and proves what they promise. Every result
is for all inputs, all runs and all database states; where the code does not do what one would expect, a lemma says exactly
when it does, and another names an input or a run for which it does not.

The modules follow the program:

- `Dictionary`, `Queries`: the words, definitions and examples tables, and one method for each SQL statement that changes them.
- `Seeder`: the seeding loop of `scripts/seed/main.go`. A run is shown to perform a plan that can be computed from the file
  without running it, with the last entry for a word winning; idempotence follows. Any statement of a run may fail, and a
  run that failed is repaired by the next that does not.
- `WordRepository`: the word aggregate and its repository. `Update` deletes and re-inserts children in two loops without a
  transaction; each statement may fail.
- `Merges`: what an approved contribution or AI answer does to the dictionary, one at a time and over whole runs.
- `Contributions`, `AiRequests`: the two review workflows as machines in which every repository call is one atomic step
  and copies of rows are in flight, so that any interleaving of commands and goroutines is a run.
- `Moderation`, `ModerationRuns`, `AccountRuns`: the moderation commands, serial runs of them with any call failing, and
  the audit log; the commands of the enrichment service are among them.
- `Enrichment`: the enrichment service, and its commands as runs of the `AiRequests` machine.
- `Identity`, `Sessions`: accounts, the token store, the identity commands, and the descent of refresh tokens over whole runs.
- `RateLimit`: the Redis counter and the limiters, over timed traces.
- `Extractor`: `join_blocks` and `group_entries` of the dictionary extractor.
- `Pagination`: page arithmetic and what the listing queries cut with it.
- `SeedEffects`, `WordEffects`, `MergeEffects`, `ReviewEffects`, `AccountEffects`, `ExtractorEffects`: what each operation does,
  told in terms of its inputs and of what is stored before and after, without the functions that compute it: which inputs are
  accepted, what is written then, and what is left when a call fails.

Code that changes state step by step is modelled by classes and methods with loops (`Queries.Queries`,
`WordRepository.PostgresWordRepository`, the aggregates, the services, `RateLimit.RedisCounter`), each proved equal to a
function; the theorems are about those functions.

Conventions. A UUID is the next number of a supply, so that a new id is one nobody holds. A connection is a `Link`: a list of
what becomes of the calls to come, each of which goes well, or fails with or without having taken effect; so every pattern of
failing calls is a link. Clocks, random tokens, password salts and the language model's answer are parameters. Texts are
sequences of bytes.

Where code and documentation disagree, the model follows the code: the counter interface says that the expiry is set on the
first increment (pkg/ratelimit/middleware.go:13), and the limiter is described as a sliding counter
(pkg/ratelimit/middleware.go:53), but every call renews the expiry, so that the count starts again only after a silent gap
of a whole window (`RateLimit.AdmittedIffEarlyInBurst`, `RateLimit.SteadyCallerIsRefused`).

What turned out not to hold, and exactly when it does:

- A settled contribution can be overturned (`Contributions.ApprovalCanBeOverturned`): it never is in a run exactly when all
  commands that write it decided the same (`Contributions.NeverOverturnedIff`).
- A stored AI answer can be lost (`AiRequests.AnswerCanBeLost`): it stays exactly when no review that loaded the request
  before the answer is stored after it (`AiRequests.AnswerSurvivesIff`). An AI approval can be undone by the goroutine
  (`AiRequests.ApprovalCanBeLost`): it stays exactly when neither a rejection nor a goroutine that loaded the request before
  it is stored after it (`AiRequests.ApprovalSurvivesIff`).
- A contribution can be merged again, in serial runs when a status write fails (`ModerationRuns.RetryMergesAgain`) and in
  races though nothing fails (`Contributions.RacingApprovalsMergeTwice`): under every interleaving its merges are its recorded
  approvals, those lost after their merge and those still to end (`Contributions.MergedOnceIff`); in serial runs at most one
  is recorded (`ModerationRuns.MergedOnceIff`, `ModerationRuns.NoneLostIff`).
- An AI answer can be merged again, when a status write fails (`AiRequests.RetryMergesAgain`) and, fault-free, when it is
  rejected in between (`Enrichment.ReapprovalMergesAgain`): under every interleaving with any call failing its merges are
  its approvals, those lost after their merge and those still to end (`AiRequests.MergedOnceIff`); in serial runs it is merged
  at most once exactly when none is lost and it is never approved again after a rejection, or one is lost and none recorded
  (`AiRequests.SerialMergedOnceIff`).
- A login can have several live refresh tokens: at most one, and one more for each revocation its refreshes lost
  (`Sessions.LiveTokensOfLogin`); a refresh leaves two exactly when it loses one (`Sessions.RefreshLeavesBothIff`).
- A merge that races others on its word overwrites what they added since it loaded the word (`Merges.LastWriteWins`).
- The audit log can miss a ban (`AccountRuns.UnloggedBan`): it tells every standing throughout a run exactly when no change's
  entry is lost after its write (`AccountRuns.AuditReplayIff`).
- A failed update can leave a word without definitions: `WordRepository.UpdateLeaves` says what is left for every failure,
  `WordRepository.NoDefinitionLostIff` when nothing is lost.
- A new word is numbered with gaps (`Merges.NewWordSortedIff`); sort orders wrap after 32767 definitions (`Merges.SortedIff`);
  the last admin can be demoted (`AccountRuns.MutualDemotion`, `AccountRuns.LastAdminLostIff`); homonyms with equal numbers
  overwrite each other in `group_entries` (`Extractor.HomonymsCanCollide`, `Extractor.GroupingForest`), and a root spelled
  like the key of a derived form can disorder it (`Extractor.ClashCanDisorder`, `Extractor.FirstComeThroughoutIff`); far page
  numbers wrap the 32-bit offset (`Pagination.OffsetCanWrap`, `Pagination.ServedIff`).

## Model

| member | source | states |
|---|---|---|
| Seeder.SeedIdempotent | scripts/seed/main.go:95-119 | From any database that meets the schema, for any file and any clocks, a second run leaves the same words (ids and every column but updated_at) and, up to child ids and times, the same definitions and examples. |
| Seeder.SeedPerformsPlan | scripts/seed/main.go:95-119 | A run performs exactly the writes the file prescribes: each word ends with the facts of the last entry that resolves to it, other words keep theirs, and no word appears that the file does not name. |
| Seeder.SeedValid | scripts/seed/main.go:95-119 | The seeding loop keeps primary keys, the five-column key and the foreign keys. |
| Seeder.SeedOverValid | scripts/seed/main.go:95-119 | So it does whichever statements fail, with or without having taken effect. |
| Seeder.SeedRepairs | scripts/seed/main.go:95-119 | After a run in which any statements failed, a run without failures performs the whole plan, and one more changes nothing but ids and times of children and updated_at. |
| Seeder.GoodSeed | scripts/seed/main.go:95-119 | Over a link that is up the loop with failing statements is the loop of the other results. |
| Seeder.WordClassAccepted | scripts/seed/main.go:276-304 | A word class is accepted exactly when it is one of the nine codes followed by quote marks only. |
| Seeder.Import | scripts/seed/main.go:95-119 | The nested loop over roots and derived forms, with any statements failing: a refused word class or a failing word statement skips the entry, and for a root its derived forms. |
| Seeder.ImportEntry | scripts/seed/main.go:183-272 | One entry, over any link: upsert the word, whose failure is an error, then delete and re-insert its children under new ids, whose failures are ignored. |
| Seeder.RebuildChildren | scripts/seed/main.go:237-269 | Definitions, then examples; every statement is tried whatever became of the others. |
| Seeder.ReplaceDefinitions | scripts/seed/main.go:237-253 | Over any link: a delete and an insert for each meaning that is not blank, which keeps its place in the file as sort order; each that takes effect shows. |
| Seeder.ReplaceExamples | scripts/seed/main.go:255-269 | Over any link: a delete and an insert for each example that has a Banjar sentence, in order. |
| SeedEffects.ClassIff | scripts/seed/main.go:276-304 | An entry is of a class exactly when its class text is the code of it followed by quote marks only. |
| SeedEffects.TargetIff | scripts/seed/main.go:183-235 | In a table without double keys an accepted entry lands on a word exactly when the word has its spelling, its homonym number (cut to 16 bits, at least one), its root, and is a root if it has none or is not derived. |
| SeedEffects.EntryLands | scripts/seed/main.go:183-235 | Over any link an entry is skipped exactly if its class is unknown or its word statement fails; else its word is the one it names, with its class and reference, every other column kept or, if the word is new, active, seeded and syllabified as the entry says; no other word changes. |
| SeedEffects.ChildrenLeft | scripts/seed/main.go:237-269 | Over any link the word has what its deletes spared and those of its listed definitions and examples whose statements take effect, in order; other words keep theirs. What is listed: each non-blank meaning with its place, each sentence with its own translation. |
| SeedEffects.EntryChildren | scripts/seed/main.go:183-272 | When no statement fails, the entry's word has its meanings and examples and nothing else. |
| SeedEffects.ChildrenStamped | scripts/seed/main.go:219-269 | And they are as old as the entry's word statement. |
| SeedEffects.FileIsThere | scripts/seed/main.go:95-119 | After a run every accepted root has a word of its name and every accepted derived form one under that word. |
| SeedEffects.RootsApartIff | scripts/seed/main.go:95-119 | Two accepted roots end in one word exactly when they have the same spelling and count as the same homonym. |
| SeedEffects.LastRootWins | scripts/seed/main.go:95-119 | The last accepted entry of a root gives the root's word its class, reference, meanings and examples, whatever the database held. |
| Dictionary.UpsertWordValid | internal/dictionary/infrastructure/postgres/queries/words.sql:100-113 | An upsert by key keeps keys unique and roots present. |
| Dictionary.DeleteEmptiesOnlyItsWord | internal/dictionary/infrastructure/postgres/queries/definitions.sql:14-15 | A delete by word empties that word's rows and no other's. |
| Queries.Queries.UpsertWord | internal/dictionary/infrastructure/postgres/queries/words.sql:100-113 | The statement finds the row with the key, or inserts; it changes word class, reference and updated_at only. |
| Queries.Queries.UpsertDefinition | internal/dictionary/infrastructure/postgres/queries/definitions.sql:17-24 | Insert, or replace meaning and sort order under the same id; nothing at all if the call has no effect. |
| WordRepository.UpdateThenFind | internal/dictionary/infrastructure/postgres/word_repository.go:122-158 | After a successful Update, FindByID returns the same updated columns, the same definitions and the same examples as multisets, definitions in order of sort order and net score. |
| WordRepository.UpdateStores | internal/dictionary/infrastructure/postgres/word_repository.go:168-199 | A successful Update stores exactly the aggregate: its columns, its definitions and its examples in order. |
| WordRepository.UpdateLeavesOthers | internal/dictionary/infrastructure/postgres/word_repository.go:122-158 | Whether it succeeds or breaks off at any statement, Update leaves every other word and its children as they were. |
| WordRepository.CreateLeavesOthers | internal/dictionary/infrastructure/postgres/word_repository.go:28-39 | So does Create. |
| WordRepository.CreateStores | internal/dictionary/infrastructure/postgres/word_repository.go:28-39 | A successful Create stores exactly the aggregate under its id. |
| WordRepository.NothingLostIff | internal/dictionary/infrastructure/postgres/word_repository.go:168-199 | Replacing a word's children keeps every one of them exactly when their ids are distinct and no other word holds one. |
| WordRepository.UpdateLeaves | internal/dictionary/infrastructure/postgres/word_repository.go:122-158 | Whatever fails, by the number of statements that take effect: the row is old or new, and definitions and examples are the old ones before their delete and after it those of the new ones that were reached. |
| WordRepository.NoDefinitionLostIff | internal/dictionary/infrastructure/postgres/word_repository.go:150-158 | An update that appends to the definitions it loaded loses none exactly when there were none, or fewer than two statements take effect, or all up to the last of the old definitions do. |
| WordRepository.UpdateValid | internal/dictionary/infrastructure/postgres/word_repository.go:122-158 | Update keeps the schema's constraints whatever fails. |
| WordRepository.CreateValid | internal/dictionary/infrastructure/postgres/word_repository.go:28-39 | So does Create. |
| WordRepository.UpsertAllAppends | internal/dictionary/infrastructure/postgres/word_repository.go:168-199 | Upserts under distinct unused ids are appends, up to the statement at which the link broke. |
| WordRepository.Stored | internal/dictionary/infrastructure/postgres/word_repository.go:168-182 | A definition reads back unchanged exactly when its sort order fits 16 bits and its votes 32. |
| WordRepository.OrderByOrders | internal/dictionary/infrastructure/postgres/queries/definitions.sql:9-12 | ORDER BY returns ordered rows. |
| WordRepository.PostgresWordRepository.Update | internal/dictionary/infrastructure/postgres/word_repository.go:122-158 | The code: one UPDATE, two deletes and two upsert loops, stopping at the first error. |
| WordRepository.PostgresWordRepository.Create | internal/dictionary/infrastructure/postgres/word_repository.go:28-39 | The code: one INSERT and the two upsert loops; a taken key is a conflict. |
| WordRepository.PostgresWordRepository.UpsertChildrenOf | internal/dictionary/infrastructure/postgres/word_repository.go:168-199 | The two loops: definitions, then examples, up to the first error, leaving what was upserted before it. |
| WordRepository.PostgresWordRepository.FindByID | internal/dictionary/infrastructure/postgres/word_repository.go:43-52 | The code: the row unless deleted, then its definitions and examples, in three statements. |
| WordRepository.PostgresWordRepository.FindByBanjar | internal/dictionary/infrastructure/postgres/word_repository.go:54-63 | The code: a word so spelled that is not deleted, then its definitions and examples, in three statements; which one, of several, is left open. |
| WordRepository.WordAggregate.AddDefinition | internal/dictionary/domain/word.go:61-69 | Appends a definition with the word's source and no votes, or refuses a meaning of more than 2000 bytes and changes nothing. |
| WordRepository.WordAggregate.AddExample | internal/dictionary/domain/word.go:72-76 | Appends an example with the word's source. |
| WordEffects.CodeRoundTrip | internal/dictionary/domain/value_objects.go:6-34 | A word class is read from its own code and from nothing else. |
| WordEffects.DefinitionUpserted | internal/dictionary/infrastructure/postgres/queries/definitions.sql:17-24 | Under an id that is there an upsert replaces meaning, sort order and time of update; word, source, votes, creation time and every other row stay. |
| WordEffects.ExampleUpserted | internal/dictionary/infrastructure/postgres/queries/examples.sql:14-21 | The same for the two sentences of an example. |
| WordEffects.FoundExactly | internal/dictionary/infrastructure/postgres/word_repository.go:43-52 | FindByID answers exactly when the word is there and not deleted and its three statements go well, with the columns of its row and, in some order, its rows of each kind. |
| WordEffects.FoundIsOrdered | internal/dictionary/infrastructure/postgres/queries/definitions.sql:9-12 | Definitions come by sort order, those with the better net score first, examples by age. |
| WordEffects.UpdateSucceedsIff | internal/dictionary/infrastructure/postgres/word_repository.go:122-158 | Over a good link Update succeeds exactly when the word is there and not deleted, its root is there and no other word has its five columns; what fails changes nothing. |
| WordEffects.UpdateStamps | internal/dictionary/infrastructure/postgres/word_repository.go:168-199 | The children an update stores keep their ids and are as old as the update. |
| WordEffects.CreateSucceedsIff | internal/dictionary/infrastructure/postgres/word_repository.go:28-39 | Create is a conflict exactly when the id or the five columns are taken, and otherwise fails only for a missing root. |
| WordEffects.CreateThenFind | internal/dictionary/infrastructure/postgres/word_repository.go:28-39 | Create, then FindByID: the same columns, definitions and examples. |
| Merges.MergesConserve | internal/moderation/application/commands/moderation_service.go:165-227 | Any serial run of contribution and AI merges on any words keeps a word numbered 1..n numbered 1..m, keeps its first n definitions whole and in order, and adds one for each approval with a usable meaning for it, in order, as long as there are at most 32767 in all, beyond which the numbering is lost (`Merges.SortedIff`). |
| Merges.EditAdds | internal/ai/application/commands/enrichment_service.go:213-254 | One merge: the word's definitions stay and the merged one follows them with the next number, the right source and no votes. |
| Merges.SortedIff | internal/dictionary/infrastructure/postgres/word_repository.go:168-182 | The numbering survives a merge exactly as long as it fits the 16-bit column. |
| Merges.EditLeavesOthers | internal/moderation/application/commands/moderation_service.go:165-227 | Whatever fails, a merge on one word leaves every other word alone and keeps the schema's constraints. |
| Merges.NewWordLeavesOthers | internal/moderation/application/commands/moderation_service.go:123-163 | So does the merge of a new word. |
| Merges.EditThenFind | internal/moderation/application/commands/moderation_service.go:185-227 | After a merge that succeeded over any link the word has the edited columns and, as a multiset, its examples with the merged one. |
| Merges.NewWordReads | internal/moderation/application/commands/moderation_service.go:123-163 | A merged new word reads back with the drafted row and definitions, as the columns hold and order them; as drafted if no more than 32767 are listed. |
| Merges.NewWordSortedIff | internal/moderation/application/commands/moderation_service.go:141-150 | A new word is numbered 1..m exactly when the places of its usable definitions, cut to 16 bits, are 1..m; for lists of at most 32767, exactly when no usable definition follows an unusable one. |
| Merges.CarriedMerges | internal/moderation/application/commands/moderation_service.go:165-183 | A usable meaning for a sorted word is never refused. |
| Merges.LastWriteWins | internal/dictionary/infrastructure/postgres/word_repository.go:122-158 | A merge that loaded its word before any number of other merges on it, over any links, and updates it after them leaves the definitions it loaded and its own; if its update is refused it changes nothing. |
| MergeEffects.DefinitionContributed | internal/moderation/application/commands/moderation_service.go:165-183 | A merged definition adds the payload's meaning with the next number, the word's source and no votes; columns (but the time of update), other definitions and examples stay. |
| MergeEffects.ExampleContributed | internal/moderation/application/commands/moderation_service.go:185-202 | A merged example adds the payload's sentence and translation with the word's source, and changes nothing else. |
| MergeEffects.WordEdited | internal/moderation/application/commands/moderation_service.go:204-227 | An edited word has the payload's spelling if that is a non-empty text, its syllabification if it is a text, the class of its code if it has one; everything else stays. |
| MergeEffects.NewWordContributed | internal/moderation/application/commands/moderation_service.go:123-163 | A merged new word reads back with the payload's spelling, syllabification and class, its contributor, and each usable listed definition, with its place, and example. |
| MergeEffects.ContributionRefusedIff | internal/moderation/application/commands/moderation_service.go:165-227 | Exactly which payloads, targets and texts are refused and with which error; a refused contribution changes nothing. |
| MergeEffects.NewWordRefusedIff | internal/moderation/application/commands/moderation_service.go:123-133 | A new word is refused exactly without a spelling or a known class. |
| MergeEffects.DefinitionAnswered | internal/ai/application/commands/enrichment_service.go:222-229 | A merged answer adds its definition as the model's, and the word counts as the model's. |
| MergeEffects.ExampleAnswered | internal/ai/application/commands/enrichment_service.go:231-237 | A merged answer adds its sentence and translation as the model's, and the word counts as the model's. |
| MergeEffects.NothingAnswered | internal/ai/application/commands/enrichment_service.go:239-251 | A related word, a quality check and an answer without the expected text leave the word as it was but for the time of update. |
| MergeEffects.AnswerRefusedIff | internal/ai/application/commands/enrichment_service.go:213-229 | An answer is refused exactly if its word is not found or its definition is too long, and then changes nothing. |
| Contributions.Lifecycle | internal/community/domain/contribution.go:55-92 | Under every interleaving of reads and whole-row writes: nothing settled is ever pending again, the reviewing admin and time are set exactly on approved and rejected contributions, and type, contributor, target and payload never change. |
| Contributions.SettledForGood | internal/community/domain/contribution.go:55-92 | In runs in which no write hits a row changed since its read, serial ones among them, the three final statuses are absorbing. |
| Contributions.NeverOverturnedIff | internal/community/infrastructure/postgres/queries/contributions.sql:35-42 | In every run, a contribution not settled at its start is never overturned exactly when all commands that write it, each of which loaded it pending, hold the same copy. |
| Contributions.ApprovalCanBeOverturned | internal/community/http/handler.go:146-168 | Two racing reviews end with an approval turned into a rejection. |
| Contributions.SerialAbsorbs | internal/community/domain/contribution.go:55-92 | In every serial run of commands an approved, rejected or withdrawn contribution never changes again. |
| Contributions.MergesAccounted | internal/moderation/application/commands/moderation_service.go:64-84 | Under every interleaving of commands with any call failing: merges of a contribution are its recorded approvals that merged, those lost after their merge, and the change in those still to end. |
| Contributions.RecordedOnce | internal/moderation/application/commands/moderation_service.go:64-84 | In undisturbed runs at most one merged approval is recorded, and none once the contribution is settled. |
| Contributions.MergedOnceIff | internal/moderation/application/commands/moderation_service.go:64-84 | A contribution not merged before is merged at most once exactly when recorded, lost and unfinished approvals together are at most one. |
| Contributions.RacingApprovalsMergeTwice | internal/moderation/application/commands/moderation_service.go:64-84 | Two approvals that both load it pending merge it twice though no call fails. |
| Contributions.SerialIsUndisturbed | internal/community/application/commands/contribution_commands.go:72-86 | A serial run of commands is an undisturbed run of the machine, with the same outcome. |
| Contributions.CommandIsLoadThenStore | internal/community/application/commands/contribution_commands.go:72-86 | A command run on its own is an undisturbed load and store. |
| Contributions.Aggregate.Approve | internal/community/domain/contribution.go:55-67 | Pending only; sets status, admin, note unless empty, and time. |
| Contributions.Aggregate.Reject | internal/community/domain/contribution.go:69-81 | Pending only; sets status, admin, note unless empty, and time. |
| Contributions.Aggregate.Withdraw | internal/community/domain/contribution.go:83-92 | The contributor only, pending only; sets nothing but the status. |
| Contributions.Repository.Update | internal/community/infrastructure/postgres/contribution_repo.go:114-135 | Writes the four review columns of an existing row. |
| Contributions.Repository.Create | internal/community/infrastructure/postgres/contribution_repo.go:28-49 | Inserts the row. |
| Contributions.ContributionService.SubmitContribution | internal/community/application/commands/contribution_commands.go:42-70 | Stores a pending contribution if the address is verified, a named target exists and all but new words name one. |
| Contributions.ContributionService.WithdrawContribution | internal/community/application/commands/contribution_commands.go:72-86 | Succeeds exactly for the contributor of a pending contribution over two good calls. |
| ReviewEffects.SubmittedIff | internal/community/domain/contribution.go:40-53 | A submission is accepted exactly if it is a new word or names a target, and is pending and unreviewed. |
| ReviewEffects.DecidedIff | internal/community/domain/contribution.go:55-92 | A review or withdrawal is taken exactly of a pending contribution, a withdrawal from its contributor only; it sets status, reviewer, time and a non-empty note as it says and nothing else. |
| ReviewEffects.CommandIff | internal/community/application/commands/contribution_commands.go:72-86 | On its own a command changes its contribution that way exactly when it may, and nothing otherwise. |
| ReviewEffects.NeedsItsDecision | internal/community/domain/contribution.go:55-92 | Under every interleaving a contribution becomes approved, rejected or withdrawn only by a command of that kind on it, withdrawn only by its contributor. |
| AiRequests.Protocol | internal/ai/application/commands/enrichment_service.go:109-209 | Under every interleaving of triggers, goroutines and reviews with any call failing: in the table and in all copies in flight no quality check is approved, reviewed_by and reviewed_at are set exactly when reviewed, parsed output means completed, the question never changes, and words are written for completed requests only. |
| AiRequests.OneAnswerThroughout | internal/ai/application/commands/enrichment_service.go:179-209 | Under every interleaving a request has at most one answer: whatever copies hold one hold the same. |
| AiRequests.RunnerCanFinish | internal/ai/application/commands/enrichment_service.go:179-209 | Whatever ran before, the goroutine of a request holds it pending, so marking it completed cannot fail. |
| AiRequests.MergesCompletedOnly | internal/ai/application/commands/enrichment_service.go:109-136 | An approval that is about to write a word has loaded a completed request that is no quality check. |
| AiRequests.ApprovalsMatchRejections | internal/ai/domain/ai_request.go:93-116 | In undisturbed runs approvals and rejections of a request differ by at most one. |
| AiRequests.ReviewsAlternate | internal/ai/domain/ai_request.go:93-116 | In undisturbed runs the reviews of a request strictly alternate and its review status is the last of them. |
| AiRequests.SerialReviewsAlternate | internal/ai/domain/ai_request.go:93-116 | In every serial run of triggers, goroutines and reviews with any call failing the reviews of each request strictly alternate, its review status is the last of them, and approvals and rejections differ by at most one. |
| AiRequests.SerialIsUndisturbed | internal/ai/application/commands/enrichment_service.go:109-209 | Serial runs are undisturbed, whichever calls fail, and leave nothing in flight. |
| AiRequests.AnswerKept | internal/ai/infrastructure/postgres/queries/ai_requests.sql:15-23 | In undisturbed runs an answer, once stored, stays. |
| AiRequests.AnswerLostIff | internal/ai/application/commands/enrichment_service.go:138-153 | A step changes a stored answer exactly when it is the write of a review that loaded the request before it, and that makes the request pending again. |
| AiRequests.AnswerSurvivesIff | internal/ai/application/commands/enrichment_service.go:109-159 | Over every run a stored answer stays throughout exactly when no such write occurs. |
| AiRequests.ApprovalLostIff | internal/ai/application/commands/enrichment_service.go:208-208 | A step undoes an approval exactly when it is the write of a rejection or of a goroutine that loaded the request before it was approved. |
| AiRequests.ApprovalSurvivesIff | internal/ai/application/commands/enrichment_service.go:109-209 | Over every run an approval stays throughout exactly when no such write occurs. |
| AiRequests.ReviewCommandIsUndisturbed | internal/ai/application/commands/enrichment_service.go:138-159 | A review on its own is an undisturbed run. |
| AiRequests.MergesAreApprovals | internal/ai/application/commands/enrichment_service.go:109-136 | In every serial run with any call failing words are written for a request once for each approval that finds an extracted answer and gets as far as its merge. |
| AiRequests.MergesAccounted | internal/ai/application/commands/enrichment_service.go:109-136 | Under every interleaving of triggers, goroutines and reviews with any call failing: words written for a request are its merged reviews that were recorded, those lost after their merge, and the change in those still to end. |
| AiRequests.NoneLostIff | internal/ai/application/commands/enrichment_service.go:119-130 | No merge is lost exactly when at no step a review that has merged ends without a write that takes effect. |
| AiRequests.ApprovalsAreRecorded | internal/ai/application/commands/enrichment_service.go:109-136 | Under every interleaving, once a request has its answer and no review in flight is without it, the recorded merges are exactly the approvals in its history. |
| AiRequests.MergedOnceIff | internal/ai/application/commands/enrichment_service.go:109-136 | From there, not approved yet: under every interleaving with any call failing words are written once for each approval, each lost merge and each still to end; at most once exactly when these are at most one, and as often as approved exactly when none is lost or left. |
| AiRequests.SerialMergedOnceIff | internal/ai/domain/ai_request.go:93-116 | In serial runs with any call failing, at most once exactly when no merge is lost and the request is never approved again after a rejection, or one is lost and no approval recorded; fault-free reviews lose none. |
| AiRequests.RetryMergesAgain | internal/ai/application/commands/enrichment_service.go:119-130 | A status write that fails after the merge: approving again writes the word twice with one approval in the history. |
| AiRequests.Aggregate.MarkCompleted | internal/ai/domain/ai_request.go:77-85 | Pending only; stores the response and what was extracted. |
| AiRequests.Aggregate.MarkFailed | internal/ai/domain/ai_request.go:87-91 | From any status; stores the error. |
| AiRequests.Aggregate.ApproveBy | internal/ai/domain/ai_request.go:93-105 | Neither quality checks nor approved requests. |
| AiRequests.Aggregate.RejectBy | internal/ai/domain/ai_request.go:107-116 | Anything not rejected. |
| ReviewEffects.AskedIs | internal/ai/domain/ai_request.go:57-75 | A new request is pending and unreviewed, with what was asked, by whom and when. |
| ReviewEffects.JudgedIff | internal/ai/domain/ai_request.go:93-116 | A review is taken exactly of what is not so reviewed yet, approvals of no quality check; it sets review, reviewer and time and nothing else. |
| Moderation.ModerationService.ApproveContribution | internal/moderation/application/commands/moderation_service.go:64-84 | The code: load, approve, merge, write the status, log; stops at the first error, undoes nothing. |
| Moderation.ModerationService.RejectContribution | internal/moderation/application/commands/moderation_service.go:86-106 | The code: needs a note; load, reject, write, log. |
| Moderation.ModerationService.MergeContribution | internal/moderation/application/commands/moderation_service.go:109-121 | The code: one merger for each type. |
| Moderation.ModerationService.MergeNewWord | internal/moderation/application/commands/moderation_service.go:123-163 | The code: build the word from the payload, skipping blank and over-long meanings, and create it. |
| Moderation.ModerationService.AddDefinitions | internal/moderation/application/commands/moderation_service.go:141-150 | The loop over listed definitions; each keeps its place as sort order. |
| Moderation.ModerationService.AddExamples | internal/moderation/application/commands/moderation_service.go:152-161 | The loop over listed examples. |
| Moderation.ModerationService.MergeNewDefinition | internal/moderation/application/commands/moderation_service.go:165-183 | The code: load the word, append the definition, update. |
| Moderation.ModerationService.MergeNewExample | internal/moderation/application/commands/moderation_service.go:185-202 | The code: load the word, append the example, update. |
| Moderation.ModerationService.MergeEditWord | internal/moderation/application/commands/moderation_service.go:204-227 | The code: load the word, overwrite the columns the payload gives, update. |
| Moderation.ModerationService.BanUser | internal/moderation/application/commands/moderation_service.go:231-250 | The code: not admins; load, ban, write, log. |
| Moderation.ModerationService.UnbanUser | internal/moderation/application/commands/moderation_service.go:252-266 | The code: load, unban, write, log. |
| Moderation.ModerationService.ChangeUserRole | internal/moderation/application/commands/moderation_service.go:268-293 | The code: known roles only, not one's own; load, promote, write, log. |
| Moderation.AuditRepository.CreateAuditLog | internal/moderation/infrastructure/postgres/moderation_repo.go:106-124 | Appends an entry. |
| ReviewEffects.ApprovedExactly | internal/moderation/application/commands/moderation_service.go:64-84 | Over any links: exactly when an approval succeeds, what it merges, writes and logs, and what stays when a call fails. |
| ReviewEffects.RejectedExactly | internal/moderation/application/commands/moderation_service.go:86-106 | The same for a rejection, which needs a note and touches no word. |
| ReviewEffects.EditApproved | internal/moderation/application/commands/moderation_service.go:64-84 | An approved change of a word succeeds only with the word spelled, syllabified and classed as the payload says. |
| AccountEffects.BannedExactly | internal/moderation/application/commands/moderation_service.go:231-250 | Over any links: a ban makes anyone but an admin inactive, and is logged if its write went well; nothing else changes. |
| AccountEffects.UnbannedExactly | internal/moderation/application/commands/moderation_service.go:252-266 | The same for an unban, of anyone. |
| AccountEffects.RoleChangedExactly | internal/moderation/application/commands/moderation_service.go:268-293 | The same for a role change, to one of two roles and never of one's own. |
| ModerationRuns.WriteOrdering | internal/moderation/application/commands/moderation_service.go:64-121 | In every serial run with any call failing, for each contribution: audit entries <= approved writes <= successful merges, and at most one approved write; with no failing call all three are equal. |
| ModerationRuns.MergedOnceIff | internal/moderation/application/commands/moderation_service.go:64-84 | In every serial run with any calls failing, a contribution's merges are its approved writes, at most one, and its lost ones; every merge is recorded exactly when none is lost, and it is merged at most once exactly when lost and recorded approvals together are at most one. |
| ModerationRuns.NoneLostIff | internal/moderation/application/commands/moderation_service.go:74-80 | None is lost exactly when at no command of the run the contribution is pending and approved, is loaded, merges, and its status write does not take effect. |
| ModerationRuns.ApprovalsReachTheDictionary | internal/moderation/application/commands/moderation_service.go:64-84 | In every fault-free serial run of all commands, those of the enrichment service included, a sorted word keeps its definitions and gains exactly one for each contribution or AI request made approved that carries a usable meaning to it, in the order of the approvals. |
| AccountRuns.AuditReplay | internal/moderation/application/commands/moderation_service.go:231-293 | In every fault-free serial run of identity and moderation commands, folding the logged bans, unbans and role changes over a user's first role and activity gives the stored ones. |
| AccountRuns.UnloggedIff | internal/moderation/application/commands/moderation_service.go:231-293 | A ban, unban or role change alters a standing with nothing logged exactly when the account is loaded, it would change, its write takes effect, and the write reports an error or the entry is lost. |
| AccountRuns.AuditReplayIff | internal/moderation/application/commands/moderation_service.go:231-293 | In every serial run with any calls failing, replaying the log gives every standing at every point exactly when no command of the run is such a one. |
| AccountRuns.AdminSurvives | internal/moderation/application/commands/moderation_service.go:231-293 | In every serial run, whichever calls fail, in which each acting admin is a stored active admin, an active admin is left. |
| AccountRuns.LastAdminLostIff | internal/moderation/application/commands/moderation_service.go:268-293 | The last active admin is lost exactly by a role change to a plain user whose target is the only one and whose write takes effect. |
| AccountRuns.MutualDemotion | internal/moderation/application/commands/moderation_service.go:268-293 | Two admins who demote each other, the second with a token from before, leave no admin. |
| AccountRuns.BannedStaysOut | internal/identity/application/commands/service.go:96-120 | From a ban whose write takes effect, whatever else is done or fails, no login of the user succeeds before an unban. |
| Enrichment.ReviewRefines | internal/ai/application/commands/enrichment_service.go:109-159 | A review command over any links is the machine's load, merge and store, or never writes its request. |
| Enrichment.RunnerRefines | internal/ai/application/commands/enrichment_service.go:179-209 | The goroutine is the machine's load and store, and then it is gone. |
| Enrichment.TriggerRefines | internal/ai/application/commands/enrichment_service.go:45-91 | A trigger on a word that was found is the machine's first step: the request, made from the word, and a goroutine exactly if storing it went well. |
| Enrichment.CheckRefines | internal/ai/application/commands/enrichment_service.go:93-107 | So is the trigger of a quality check, for a contribution that was found. |
| Enrichment.QualityCheckTouchesNoWord | internal/ai/application/commands/enrichment_service.go:109-136 | In any world and over any links, no review of a quality check touches the dictionary, and no approval of one succeeds. |
| Enrichment.ReviewLeavesOthers | internal/ai/application/commands/enrichment_service.go:109-159 | Whatever fails, a review leaves every word alone but the target of an approval. |
| Enrichment.ApprovalAppends | internal/ai/application/commands/enrichment_service.go:109-136 | Over good links approving an answer with a usable definition succeeds and adds it at the end. |
| Enrichment.ObjectIsExtracted | internal/ai/application/commands/enrichment_service.go:313-323 | A JSON object wrapped in prose is cut out whole if no opening brace comes before it and no closing one after it. |
| Enrichment.RunnerStoresObject | internal/ai/application/commands/enrichment_service.go:179-209 | A reply that wraps one JSON object in prose completes a pending request with what the object decodes to. |
| Enrichment.EnrichmentService.TriggerOnWord | internal/ai/application/commands/enrichment_service.go:45-91 | The three word triggers: a word that is found gets a new pending request of the kind, with the prompt made from the word, and a goroutine if storing it went well; a word that is not found gets neither. |
| Enrichment.EnrichmentService.TriggerQualityCheck | internal/ai/application/commands/enrichment_service.go:93-107 | A contribution that is found gets a new pending quality check that targets it and no word, and a goroutine if storing it went well. |
| Enrichment.EnrichmentService.RunLLM | internal/ai/application/commands/enrichment_service.go:179-209 | The code: load, ask, mark failed or completed with what could be extracted from the reply, write; errors are ignored. |
| Enrichment.EnrichmentService.ApproveAIRequest | internal/ai/application/commands/enrichment_service.go:109-136 | The code: load, approve, merge if it targets a word, write; a failing audit entry is ignored. |
| Enrichment.EnrichmentService.RejectAIRequest | internal/ai/application/commands/enrichment_service.go:138-159 | The code: load, reject, write; a failing audit entry is ignored. |
| Enrichment.EnrichmentService.MergeAIOutput | internal/ai/application/commands/enrichment_service.go:213-254 | The code: nothing without parsed output, else load the word, edit it, which looks up a suggested related word, and update it. |
| Enrichment.EnrichmentService.EditByAnswer | internal/ai/application/commands/enrichment_service.go:222-251 | The switch over request types; a suggested related word is looked up, whatever comes of it. |
| Enrichment.AiRequestRepository.Update | internal/ai/infrastructure/postgres/ai_request_repo.go:54-64 | Writes answer and review columns; a missing row goes unnoticed. |
| Enrichment.TrimmedIs | internal/ai/application/commands/enrichment_service.go:313-323 | What is cut out of any text, braces or not. |
| ReviewEffects.RanExactly | internal/ai/application/commands/enrichment_service.go:179-209 | Over any links: a pending request is completed with the reply and its extract, any request fails with the error, and nothing else changes. |
| ReviewEffects.ReviewedExactly | internal/ai/application/commands/enrichment_service.go:109-159 | Over any links: exactly when a review succeeds, what it merges, writes and logs, and what stays when a call fails. |
| ReviewEffects.SuggestionApproved | internal/ai/application/commands/enrichment_service.go:109-136 | An approved example suggestion succeeds only with the suggested example under the word, as the model's. |
| Identity.Service.RegisterUser | internal/identity/application/commands/service.go:48-68 | The code: check, create, store a verification token for a day. |
| Identity.Service.VerifyEmail | internal/identity/application/commands/service.go:71-93 | A live token marks its user verified once and is deleted; for a user verified before, a failing delete is ignored. |
| Identity.Service.LoginUser | internal/identity/application/commands/service.go:96-120 | The code: an unknown address and a wrong password look alike, banned users are refused. |
| Identity.Service.RefreshToken | internal/identity/application/commands/service.go:123-150 | The code: a new pair is stored before the old token is revoked, and a failing revocation is ignored. |
| Identity.Service.LogoutUser | internal/identity/application/commands/service.go:153-155 | Deletes the token's key, whatever it holds. |
| Identity.Service.ForgotPassword | internal/identity/application/commands/service.go:158-172 | Stores a reset token for the address's user for an hour; an unknown address or a failing lookup is no error. |
| Identity.Service.ResetPassword | internal/identity/application/commands/service.go:175-203 | Checks the password before the token; sets the hash of the token's user, then deletes the token. |
| Identity.Service.UpdateProfile | internal/identity/application/commands/service.go:206-224 | Changes the name of the user, and nothing else but updated_at; an empty name is refused. |
| Identity.Service.ChangePassword | internal/identity/application/commands/service.go:227-248 | Checks the current password, then the new one's length; changes the hash and nothing else but updated_at. |
| Identity.UserRepository.Update | internal/identity/infrastructure/postgres/user_repository.go:69-80 | Writes all columns but e-mail and creation time of an existing row. |
| Identity.TokenStore.Get | internal/identity/infrastructure/redis/token_store.go:28-38 | A key's user until its time is up. |
| AccountEffects.LoginExactly | internal/identity/application/commands/service.go:96-120 | Over any links a login succeeds exactly when its calls go well, the account that has the address is active and has the password, and signing and minting succeed; the pair names it and its role, one refresh token is live for a week; a refused login stores nothing. |
| AccountEffects.UnknownLogin | internal/identity/application/commands/service.go:96-101 | An unknown address looks like a wrong password. |
| AccountEffects.RefreshExactly | internal/identity/application/commands/service.go:123-150 | Over any links a refresh succeeds exactly for a live token whose account is there, banned or not; the pair names the account and its role as it is now; the old token is gone exactly if its deletion takes effect. |
| AccountEffects.LogoutExactly | internal/identity/application/commands/service.go:153-155 | A logout deletes its token and nothing else. |
| AccountEffects.RegisterExactly | internal/identity/application/commands/service.go:48-68 | Over any links: exactly which registrations succeed, the account they store, and its verification token for a day. |
| AccountEffects.RegisterRefusedIff | internal/identity/domain/user.go:33-60 | What is wrong with a registration is told in the order name, address, password. |
| AccountEffects.VerifyExactly | internal/identity/application/commands/service.go:71-93 | Over any links: a live token verifies its account once, at the time of use, and is deleted. |
| AccountEffects.ForgotExactly | internal/identity/application/commands/service.go:158-172 | A known address gets a reset token for an hour. |
| AccountEffects.UnknownForgot | internal/identity/application/commands/service.go:158-172 | An unknown one gets none, without an error. |
| AccountEffects.ResetExactly | internal/identity/application/commands/service.go:175-203 | Over any links: a live reset token sets its account's password to a confirmed one of at least eight bytes, and is deleted. |
| AccountEffects.ProfileExactly | internal/identity/application/commands/service.go:206-224 | A profile update changes the name, to a non-empty one, and nothing else. |
| AccountEffects.ChangeExactly | internal/identity/application/commands/service.go:227-248 | A change of password needs the current one and a new one of at least eight bytes, and changes nothing else. |
| Sessions.OneLiveTokenPerLogin | internal/identity/application/commands/service.go:96-155 | So a login that lost no revocation has at most one, and when no call fails none is lost. |
| Sessions.LiveTokensOfLogin | internal/identity/application/commands/service.go:96-155 | In every serial run with new tokens and any calls failing, each live refresh token descends from a login whose user it names, and a login has at most one live token and one more for each lost revocation. |
| Sessions.RefreshLeavesBothIff | internal/identity/application/commands/service.go:123-150 | A refresh leaves both its old and its new token live exactly when the new one's write takes effect and that write reports an error or the revocation has no effect. |
| Sessions.SpentForGood | internal/identity/application/commands/service.go:123-155 | A rotated-out or logged-out refresh token and a used verification or reset token whose deletion took effect are never live again, whatever follows and whatever fails. |
| Sessions.ExpiredForGood | internal/identity/infrastructure/redis/token_store.go:23-43 | Nor is one whose time was up. |
| Sessions.AcceptedIffLive | internal/identity/infrastructure/redis/token_store.go:28-38 | Whatever the links do, the three token commands refuse a token that is not live; over good links a refresh accepts every live one. |
| Sessions.KeysAreApart | internal/identity/infrastructure/redis/token_store.go:77-92 | Under an injective hash different tokens have different keys and the three namespaces do not meet. |
| Sessions.EmailsStayUnique | internal/identity/infrastructure/postgres/user_repository.go:26-45 | Addresses stay unique through every run, whatever fails. |
| Sessions.RegisteredPassword | internal/identity/application/commands/service.go:48-68 | After a registration a login takes the chosen password and no other. |
| Sessions.ResetPasswordTakes | internal/identity/application/commands/service.go:175-203 | So it does after a reset, for the user the token names, unless banned. |
| Sessions.ChangedPasswordTakes | internal/identity/application/commands/service.go:227-248 | And after a change of password, which needs the current one. |
| RateLimit.WindowBound | pkg/ratelimit/middleware.go:28-51 | For any trace on one key, from any counter, every stretch shorter than the window admits at most `limit` by count, so at most `limit` plus the counter errors in it, whether or not an errored call took effect. |
| RateLimit.AdmittedIffEarlyInBurst | pkg/ratelimit/middleware.go:28-51 | Without errors a request is admitted exactly when at most `limit` requests, itself included, have come since the last silent gap of at least the window. |
| RateLimit.BurstStartExists | pkg/ratelimit/middleware.go:28-36 | Every request belongs to exactly one burst. |
| RateLimit.RefusedUntilSilent | pkg/ratelimit/middleware.go:28-51 | A refused caller that keeps asking within the window stays refused. |
| RateLimit.SteadyCallerIsRefused | pkg/ratelimit/middleware.go:53-66 | A concrete trace that a sliding log would admit is refused. |
| RateLimit.ErrorsCountIff | pkg/ratelimit/middleware.go:28-51 | A call that reports an error counts exactly if it took effect. |
| RateLimit.AdmittedIff | pkg/ratelimit/middleware.go:28-51 | Whatever errs: a request whose call errs is admitted, any other exactly when at most `limit` calls that took effect have come since the last silent gap among them. |
| RateLimit.KeysAreIndependent | pkg/ratelimit/middleware.go:28-51 | A key's verdicts in an interleaved run are those of its own requests alone. |
| RateLimit.RedisCounter.Increment | pkg/ratelimit/middleware.go:28-36 | INCR and EXPIRE: counts on if the key is alive, starts at one if not, and renews the expiry. |
| RateLimit.AdaptiveLimiter | pkg/ratelimit/middleware.go:39-51 | Refuses exactly when the call succeeds and the new count exceeds the request's own limit; fails open. |
| RateLimit.Limiter | pkg/ratelimit/middleware.go:55-66 | The same with one limit for all requests. |
| Extractor.JoinBlocks | scripts/seed/extract_dictionary.py:121-151 | The loop with its pending block returns the blocks of the kept lines, joined by spaces. |
| Extractor.SplitIff | scripts/seed/extract_dictionary.py:121-151 | The blocks are the one way to cut the kept lines, from the first entry line on, into pieces that each start with an entry line and hold no other. |
| Extractor.GroupEntries | scripts/seed/extract_dictionary.py:236-273 | Roots go in first, in order, a taken word getting its homonym number as suffix; then each derived form goes under the first host that takes it, or in on its own. |
| Extractor.FindHost | scripts/seed/extract_dictionary.py:261-267 | The inner loop finds the first host whose word is a proper suffix. |
| Extractor.GroupingForest | scripts/seed/extract_dictionary.py:236-273 | Every entry is in at most one place; only derived forms are nested, under a host whose word is a proper suffix; nothing is lost exactly when no two of the keys foreseen from words and homonym numbers are equal; and each form is under the first host that could take it if no root is spelled like a form's key or nothing is lost. |
| Extractor.GroupedFirstCome | scripts/seed/extract_dictionary.py:258-271 | Whatever is lost, every derived form is under, or stands behind none of, the hosts that could take it before where it is, unless a root is spelled like a derived word followed by _derived. |
| Extractor.FirstComeThroughoutIff | scripts/seed/extract_dictionary.py:258-271 | Without that condition: the map is in that order at every point exactly when no entry ever goes in under a taken key, in front of a form it could take. |
| Extractor.ClashCanDisorder | scripts/seed/extract_dictionary.py:249-271 | For every word x: with a root x_derived and the forms ax and x, x takes the root's place, and ax stands behind a host it should be under. |
| Extractor.DepthOne | scripts/seed/extract_dictionary.py:258-271 | A host is nested under nothing. |
| Extractor.HomonymsCanCollide | scripts/seed/extract_dictionary.py:249-254 | Two further roots of one word with the same homonym number: the first of them is lost. |
| ExtractorEffects.KeptAt | scripts/seed/extract_dictionary.py:121-151 | Every line that is no noise is kept, stripped, in its place. |
| ExtractorEffects.DroppedIs | scripts/seed/extract_dictionary.py:121-151 | What comes before the first entry line is dropped, and no more. |
| ExtractorEffects.JoinedAt | scripts/seed/extract_dictionary.py:121-151 | A block holds each of its lines whole, with one blank between two. |
| ExtractorEffects.ProperSuffixIff | scripts/seed/extract_dictionary.py:261-267 | A word fits a form exactly when the form is something and then the word. |
| ExtractorEffects.DecimalReads | scripts/seed/extract_dictionary.py:249-254 | The digits written for a number read as the number. |
| ExtractorEffects.DecimalInjective | scripts/seed/extract_dictionary.py:249-254 | So different homonym numbers give different keys. |
| ExtractorEffects.NothingIsLost | scripts/seed/extract_dictionary.py:236-273 | Every entry of a file stays if no two roots share word and number, none is spelled like another with an underscore and digits or like a form's key, and no form comes twice. |
| ExtractorEffects.ThreeHomonymsStay | scripts/seed/extract_dictionary.py:249-254 | Three homonyms with different numbers all stay. |
| ExtractorEffects.FormsInOrder | scripts/seed/extract_dictionary.py:258-271 | The forms under a host come in the order of the file. |
| ExtractorEffects.HostsInOrder | scripts/seed/extract_dictionary.py:236-273 | When no key comes up twice, roots come first, and each kind in the order of the file. |
| Pagination.PagesPartition | pkg/pagination/pagination.go:22-39 | Pages 1 to TotalPages put together are the list. |
| Pagination.NonEmptyIff | pkg/pagination/pagination.go:22-39 | A page has rows exactly when its number is at most TotalPages, and all before the last are full. |
| Pagination.TotalPagesIs | pkg/pagination/pagination.go:30-39 | TotalPages is the one number of pages that holds the list with none to spare. |
| Pagination.CeilingAgrees | internal/community/http/handler.go:112-112 | The ceiling formula of the listing gives the same number. |
| Pagination.NoPages | pkg/pagination/pagination.go:30-33 | There are no pages without a positive page size. |
| Pagination.ParseIff | pkg/pagination/pagination.go:42-67 | Query parameters are accepted exactly as a page from one and one to a hundred rows a page. |
| Pagination.QuotientTruncates | pkg/pagination/pagination.go:34-37 | Division is cut toward zero. |
| Pagination.PagesFit | internal/community/infrastructure/postgres/contribution_repo.go:89-112 | Of a list of less than 2^31 rows every page there is has an offset that fits 32 bits and is served as asked. |
| Pagination.ServedIff | internal/community/infrastructure/postgres/contribution_repo.go:89-112 | Any page is served as asked exactly when its offset fits, or wraps to one behind the list. |
| Pagination.OffsetCanWrap | internal/community/infrastructure/postgres/contribution_repo.go:91-91 | Page 2^32 + 1 of a one-row list is that row. |

## Left out

- HTTP handlers, routing, DTOs, logging, mail, configuration: they hold no state of their own.
- The approval in internal/community/http/handler.go:146-168, which merges nothing, is a step of the `Contributions` machine but not of the serial runs in `ModerationRuns`, whose approvals are the moderation service's.
- Seeder.SeedIdempotent: the admin account the seeder creates, and its inserted and updated counts, which are log output.
- The order of rows that ORDER BY leaves open: ties stay in insertion order, and child rows are kept in insertion order.
- WordRepository.UpdateThenFind: related words, which no statement stores, and the order of examples, whose creation times an update renews.
- UUID and token collisions, bcrypt, JWT signing and SHA-256: ids and tokens are new, a hash verifies the one password it was made from, key hashing is injective where that matters.
- RateLimit.RedisCounter.Increment: overflow of the 64-bit counter.
- The JSON decoder, the entry pattern, noise detection and PDF extraction are parameters.
- Soft deletion, votes, bookmarks, comments, search and listing filters: single statements without a protocol.
- The encoding of absent JSON columns and of NULL texts as empty ones beyond what reading a word back needs.
- Extractor.GroupedFirstCome: which files that do not meet its condition end in a map in order after all is left open; `Extractor.FirstComeThroughoutIff` is about every map on the way.
- Merges.LastWriteWins: other merges are whole, between the load and the update of the one that races them; updates that interleave statement by statement are not modelled.
- AiRequests.MergesAccounted: a merge is one that reports success; what a merge leaves that fails part way is told by `WordRepository.UpdateLeaves`, not counted.
