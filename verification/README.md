# Verified model of the Dream Studio event pipeline and installer

This project models, in Dafny 4.11, the parts of Dream Studio that must not lose or corrupt data, and
proves what they promise. `dafny verify dfyconfig.toml` checks everything.

## What is modelled

**The event spool** (`Documents`, `Rows`, `Correlations`, `Contexts`, `Spool`, `Conservation`,
`Recording`, `Counterexamples`, `SharedIds`, `Outcomes`, `Turns`, `Recovery`, `Lifecycle`, `Consolidation`, `ArchiveRoundTrip`,
`Calendar`, `Schedule`, `SpoolRoots`). An event is a JSON file named
after its id. It is renamed from `spool/` through `processing/` to `processed/` or `failed/`, recorded
in a raw table and in the business and AI tables its type is routed to, and later zipped by week and
by year. `Spool` is a transition system: writers, any number of overlapping ingest runs, one lifecycle
runner and any number of restores move one system call at a time; every call may fail; every process
may die. `Step` is total (an action that is not enabled does nothing), so every sequence of actions is
a run, and the main theorems are about all of them. `SpoolRoots.SpoolRoot` is the program's own form:
an object with directories as maps, methods and loops. Each of its ingest, archive and restore methods
is proved to perform a run of the transition system, given in closed form by `Turns`, `Lifecycle` and
`Consolidation`. `Correlations` and `Contexts` have correlation ids as text, and `Schedule` the daily call of the
archiver over any number of days.

**The versioned installer** (`Install`, `InstallHistory`, `InstallHome`, `Retention`, `Decimals`). The
home is a record; an install or rollback is a list of phases, each of which may go, fail (with the
clean-up the code does) or be the one at which the process dies. `InstallHome.HomeDirectory` is the
step-by-step form.

**The analytics import and the backfill** (`Upsert`, `AnalyticsImport`, `SectionHandlers`,
`SectionRows`, `LaterImport`, `Backfill`): the two conflict rules, the section handlers, the counters,
the transaction, and the offset loop.

**The findings summarizer** (`Patterns`, `Findings`, `FindingsRoundTrip`, `FindingsFormats`, `Summaries`).
`Patterns` is a small backtracking regular-expression engine with greedy and lazy runs, an optional
group and named captures; the eight patterns of the parser are written in it as they stand, so the
round-trip theorem is about what lazy matching really does. `Collections` holds what they all share.

## Findings about the code

- A file whose canonical write fails stays in `processing/` and is never picked up again. The comments
  at `spool/ingestor.py:20-21` (a locked database leaves the event in `spool/`) and
  `spool/ingestor.py:182-183` (the event goes to `failed/`) intend otherwise; the handlers at lines 110
  and 127 act on the path in `spool/`, which is gone by then. `Outcomes.IntendedOutcome` gives the exact
  condition, `Counterexamples.FreshRootStrands` a run, `Outcomes.StrandedForGood` the consequence.
- A refusal to create the database goes to `failed/`, although the comment at
  `spool/ingestor.py:490-491` says the event returns to the inbox: the raw-write handler puts it back
  and the outer handler then moves it (`Outcomes.RawFailureOutcome`, exactly for errors that are
  neither a lock nor a missing file).
- "Processed means recorded" needs the contents published under one event id to have one effect: all
  refused, or all accepted and leaving rows in the same tables (`SharedIds.OneEffectPerId`). Otherwise
  a run can finish another run's file (`SharedIds.SecondContent`, `Counterexamples.TwoContentsPerId`).
- A restore that dies while it writes a file leaves half of it in the inbox, and the next restore skips
  the member because its name is there (`scripts/spool_restore.py:79-80`): the event goes to `failed/`
  and is not rebuilt (`Recovery.TornRestoreLoses`; `Recovery.DisasterRecovery` says exactly when).
- The yearly archive misses the last week of its year unless the next New Year's Day is a Monday: that
  week is archived after the consolidation, which then never runs again for that year
  (`Schedule.YearGetsItsWeeks`, `Schedule.LeftOverForGood`; `spool/lifecycle.py:11-13` promises all).
- Two different contexts get the same correlation id exactly when they settle to the same context: a
  value that holds the mark of a later part, such as ":wf-" in a session id, is cut there
  (`Contexts.SameId`, `Contexts.MarkedSessionsCollide`). Marks of earlier parts, empty values and
  newlines do no harm to ids, though the parts cannot be read back then (`Correlations.RoundTrip`).
- With one backup kept, the dry run of retention spares a backup that the real run removes
  (`Retention.DryRunEqualsReal`, `Retention.KeepOneDisagrees`).
- A rollback that stops between recording `previous` and putting the new link in place forgets its
  target (`InstallHistory.RollbackForgets`), and no number of rollbacks brings it back
  (`InstallHistory.ForgottenForGood`); installing that commit again does.
- A VERSION with a dash in it can be installed but never rolled back to
  (`InstallHistory.DashedVersionIsStuck`, reached by `InstallHistory.DashedVersionGetsStuck`).
- On Windows a death between removing the old link and renaming the new one leaves no `current`
  (`InstallHistory.SwitchOnWindows`).
- A failed AI insert in the backfill leaves its business twin pending, and a later row's commit saves it
  alone (`Backfill.PairSurvives`). Its cause is a list or an object in a column that only the AI insert
  has, such as the trace's `session_id` (`Backfill.PairSurvivesItsValues`,
  `Backfill.FailedInsertSplitsPair`).
- The backfill records events that live ingest leaves out: those whose null type, schema version or
  severity it replaces, and those for which it makes up an id (`Backfill.BackfillDiffers`). Most legacy
  schemas declare severity NOT NULL; one that does not is at
  `tests/unit/test_phase18_0_guardrails.py:40-46`.
- The same control without a `result_id`, in two assessments, is recorded once, under the first
  (`SectionHandlers.SharedControlKeptOnce`; `SectionHandlers.SharedControlKey` says which controls share
  a key).
- A list item loses the line number of its file: in "src/a.ts:42: title" the file ends at the first colon
  and the number goes into the title (`FindingsFormats.ItemReadsBack`).
- A dash inside a path, a blank in the path of a table row, or "(fix:" inside a title, breaks printing
  and parsing of findings (`FindingsRoundTrip.PrinterParserInverse` and `Summaries.SummaryRoundTrip`
  say exactly when).

## Hypotheses

- `Recording.World`: every file published under a name carries one content, and an accepted document's
  id is its file's name (`spool/writer.py:43-44`). Conservation of names, accounting, exact outcomes,
  stranding and crash safety of archiving do not need it.
- `SharedIds` takes the second half of that and whole restores, but any number of contents.
- Restores of the transition system read undamaged zips; `SpoolRoots` has damaged ones too.
- The backfill's event types come from a text column. Other faults of its inserts are arbitrary.
- Tables use INSERT OR IGNORE, which also skips rows with a null in a NOT NULL column; the theorems say
  "exactly when the columns are filled" instead of assuming it.
- One lifecycle runner: the exists check and the replace at `spool/lifecycle.py:104` and `143` are not
  atomic together. A zip that passes its CRC pass holds only entries that were written to it.
- `Schedule` has one call a day and, where it says "busy", a file to archive in every week of the year.
- `LaterImport` takes the tables' constraints not to look at the value of a time.
- `midnight` in `Calendar` is any clock that never runs back, so days may have any length.

## Model

| member | source | states |
|---|---|---|
| Rows.ClassifyIs | spool/ingestor.py:141-168 | a content is accepted if and only if it is an object with the four required fields and, for an invoked skill, a skill id of the form "ds-" and lower-case letters, digits and dashes, at top level or in a trace that is an object; which contents escape the checks with an exception, and that all others go to failed/ |
| Rows.IdsAre | spool/ingestor.py:206-285 | each context id is the first that is not null of its places in the envelope, the trace and the payload, an object given directly or as text |
| Correlations.RoundTrip | core/correlation/composer.py:77-135 | composing a correlation id and reading it back gives the same parts if and only if every value is plain: not empty, on one line, and without a colon before a prefix and its dash |
| Correlations.SplitJoin | core/correlation/composer.py:74 | splitting at the marks undoes joining segments |
| Correlations.DecomposedIsPlain | core/correlation/composer.py:107-135 | whatever the text, the values read from it are plain |
| Correlations.NewlinesRead | core/correlation/composer.py:68-70 | one newline at the end of a segment is dropped, and a newline anywhere else makes the segment malformed |
| Contexts.SettleIs | core/correlation/composer.py:77-104 | every context shares its id with a settled one, in which no value holds the mark of a later part, and it is that one itself if and only if it is settled |
| Contexts.SameId | core/correlation/composer.py:77-104 | two contexts have the same id if and only if they settle to the same context |
| Contexts.IdDetermines | core/correlation/composer.py:77-104 | a context is settled if and only if every settled context with its id is that context; so each id belongs to exactly one settled context |
| Contexts.PlainIsSettled | core/correlation/composer.py:107-135 | values that can be read back are settled |
| Contexts.SettledNotPlain | core/correlation/composer.py:107-135 | the empty session id and the skill "x:sess-y" are settled, though they cannot be read back |
| Contexts.SameIdSameContext | spool/ingestor.py:243-285 | events whose contexts are settled are stored with the same correlation id if and only if they come from the same session, workflow, skill, agent, hook and tool |
| Contexts.IdReads | core/correlation/composer.py:77-104 | the text of an id: "sess-", "wf-", "skill-", "agent-", "hook-" and "tool-", each with its value, in this order and joined by colons; no part gives no id |
| Contexts.IdTells | spool/ingestor.py:243-285 | the id an event is stored with, read back, gives its session, workflow, skill, agent, hook and tool as they are looked up in envelope, trace and payload, if and only if they are plain |
| Contexts.MarkedSessionsCollide | core/correlation/composer.py:77-104 | a session id with a workflow mark in it composes to the same text as a session and a workflow |
| Conservation.VerifiedIsComplete | spool/lifecycle.py:55-76 | a zip that passes its CRC pass and has as many entries as were written holds exactly what was written |
| Conservation.IngestStepShape | spool/ingestor.py:102-203 | every ingest step renames within the four directories, leaves archives alone and takes nothing out of processed/ |
| Conservation.ArchiveKeeps | spool/lifecycle.py:104-191 | every step of archiving a week, failed or not, keeps every event name present |
| Conservation.YearKeeps | spool/lifecycle.py:219-308 | every step of consolidating a year keeps every event name present |
| Conservation.StepConserves | spool/ingestor.py:102-203 | every action of every process keeps every event name present and the runner's assumptions true |
| Conservation.NothingLost | spool/ingestor.py:102-203 | over every interleaving, error and death, the set of event names present in the directories, in readable weekly zips or nested in readable yearly zips never shrinks |
| Recording.CanonicalInsertOk | spool/ingestor.py:288-471 | the routed inserts keep rows right, raw first and paired, and leave the event fully recorded |
| Recording.RunInv | spool/ingestor.py:102-203 | every honest run keeps the invariant that ties rows to files, and only adds rows |
| Recording.ReachableInv | spool/ingestor.py:102-203 | the invariant holds in every state reachable from a fresh root |
| Recording.ProcessedMeansRecorded | spool/ingestor.py:141-203 | in every reachable state a file in processed/ holds an object with the four required fields; it has a raw row if and only if its type, timestamp and schema version are not null, and a business (AI) row if and only if, besides, its severity is no explicit null and its type is unregistered or registered for business (AI) |
| Recording.RowsSay | spool/ingestor.py:349-471 | in every reachable state the columns of a raw, business or AI row hold what the file published under its name says, ids looked up in envelope, trace and payload, defaults where a key is absent |
| Recording.RawFirstAndPaired | spool/ingestor.py:172-184 | in every reachable state a canonical row has a raw row, an event routed to both tables is in both or neither, and its rows carry one correlation id |
| Recording.PairedRowsAgree | spool/ingestor.py:349-471 | in every reachable state paired rows share every common column, and their project ids agree if and only if the resolved one is not an empty value the business row replaces |
| Recording.RowsNeverChange | spool/ingestor.py:474-560 | a row present in a state is in every later state, unchanged |
| Recording.BytesConserved | spool/ingestor.py:641-655 | with one content per id and whole restores, the bytes of every event survive every run |
| Counterexamples.TwoContentsPerId | spool/ingestor.py:141-203 | for every raw-only event and every event routed to business under the same id there is a run that ends with the second in processed/ and no business row |
| SharedIds.OneEffectPerId | spool/ingestor.py:102-203 | "processed means recorded" holds of a name in every run if and only if the contents published under it are all refused, or all accepted and agree on which tables they leave a row in |
| SharedIds.SecondContent | spool/ingestor.py:141-203 | for any accepted content and any second one with a different effect there is a run that ends with the second in processed/ and the rows of the first |
| SharedIds.RunAs | spool/ingestor.py:102-203 | over every run of contents with one effect, the tables hold no row beyond it, and a file in processed/ has all of its rows |
| Counterexamples.FreshRootStrands | spool/ingestor.py:179-184 | from a fresh root, one failed canonical write strands the file in processing/ with its raw row alone |
| Outcomes.ExactOutcome | spool/ingestor.py:133-203 | the whole state after one claimed file's turn, for every content and every combination of faults: place, rows and counter |
| Outcomes.ClaimOutcome | spool/ingestor.py:102-128 | a file gone before the claim only adds to skipped; a claim that fails otherwise moves it to failed/ |
| Outcomes.IntendedOutcome | spool/ingestor.py:174-184 | after its turn a claimed file is in processing/ if and only if a check chokes on it, the canonical write of a type not registered as raw only or the last rename fails, or a fallback rename fails; it is then stranded unless another run holds its name |
| Outcomes.RawFailureOutcome | spool/ingestor.py:170-178 | an accepted file whose raw write fails is back in spool/ if and only if the error is a lock or a missing file; any other error, a refusal to create the database among them, takes it to failed/ |
| Outcomes.EveryFileCountedOnce | spool/ingestor.py:100-130 | over every interleaving, a run that gets through its listing has processed + failed + skipped equal to the number of listed files |
| Outcomes.StrandedForGood | spool/ingestor.py:141-142 | a file left in processing/ with no run holding it stays there, unchanged, unless its name is published or restored again |
| Turns.TurnsCount | spool/ingestor.py:100-130 | each listed file adds one to exactly one counter |
| Turns.CountersExact | spool/ingestor.py:100-130 | each counter is the number of listed files that end its way, and lock_error is set if and only if one of them met a lock |
| Turns.RoundIsTurn | spool/ingestor.py:102-203 | the actions of one turn have the closed form Turn |
| Turns.IngestIsARun | spool/ingestor.py:84-130 | an uninterrupted run of the transition system is its turns, one after the other |
| Recovery.ExtractInverts | scripts/spool_restore.py:72-82 | extracting an archive into an empty inbox gives back exactly the archived names and bytes |
| Recovery.YearExtractInverts | scripts/spool_restore.py:199-217 | the same for a yearly archive, as long as no two of its zips disagree about a name |
| Recovery.ExtractionIsARun | scripts/spool_restore.py:127-136 | extracting a weekly archive is what the restore actions of the transition system do |
| Recovery.YearExtractionIsARun | scripts/spool_restore.py:199-217 | so is extracting the weekly zips of a yearly archive, one after the other |
| Recovery.ReadableMeans | scripts/spool_restore.py:72-82 | whether a file reaches the inbox whole is decided by the first copy there is: the one already in the inbox, or else the first zip's |
| Recovery.CalmIngest | spool/ingestor.py:84-130 | an error-free ingest run records and moves every listed event that decodes, and changes no row if all were recorded |
| Recovery.DisasterRecovery | scripts/spool_restore.py:90-141 | after every table is lost, restoring archives and one error-free ingest give an archived event the rows it had, apart from the time of receipt, if and only if its first copy is whole or it never had a row; a copy that does not parse goes to failed/ |
| Recovery.TornRestoreLoses | scripts/spool_restore.py:78-82 | a restore that dies while writing a file makes the next one skip it, and its rows are not rebuilt |
| Recovery.HealthyRestore | scripts/spool_restore.py:162-222 | on a healthy database the same procedure changes no row, and with an empty inbox adds none |
| Recovery.UntornIsReadable | scripts/spool_restore.py:78-82 | when no restore ever died half way, every archived event's file reaches the inbox whole |
| Recovery.ArchivesAreRestorable | spool/lifecycle.py:138-166 | the readable archives of every reachable state are ones recovery works on |
| Lifecycle.EveryCrashPointHolds | spool/lifecycle.py:138-191 | at every point of any sequence of archiving and consolidating, every file that was held is held byte for byte in processed/ or in a readable archive |
| Lifecycle.ArchiveIsARun | spool/lifecycle.py:138-191 | the archiving run has the closed form Archived: originals go only if the zip verified, and a zip that did not is taken back |
| Lifecycle.AbortedChangesNothing | spool/lifecycle.py:139-156 | a run that gives up while writing the zip leaves everything as it was |
| Consolidation.ConsolidationIsARun | spool/lifecycle.py:252-308 | the consolidating run has the closed form Consolidated: weekly zips go only if the yearly zip verified, and one that did not is taken back |
| Consolidation.AbortedConsolidationChangesNothing | spool/lifecycle.py:252-270 | a consolidation that gives up while writing leaves everything as it was |
| ArchiveRoundTrip.WeekRoundTrip | scripts/spool_restore.py:127-136 | archiving a week and extracting it into an empty inbox gives back exactly the selected files, names and bytes |
| ArchiveRoundTrip.YearRoundTrip | scripts/spool_restore.py:199-217 | the same for consolidating a year and extracting it, for every name the weeks agree about |
| Lifecycle.ConsolidationHolds | spool/lifecycle.py:252-308 | replacing weekly zips by a readable yearly zip that contains them holds every file |
| Calendar.PriorMondayIs | spool/lifecycle.py:41-45 | the prior Monday is the only Monday 7 to 13 days back |
| Calendar.WeeksDisjoint | spool/lifecycle.py:48-52 | two different Mondays' windows never share an instant |
| Calendar.WeeksTile | spool/lifecycle.py:113-119 | over a run of Mondays every instant is in exactly one week's window, if and only if it is between the first midnight and the last |
| Calendar.CurrentWeekKept | spool/lifecycle.py:113-119 | a file of the current week or later is never selected |
| Calendar.YearHoldsItsWeeks | spool/lifecycle.py:320-324 | every Monday of a year has its week archived by the next New Year's Day if and only if that day is a Monday |
| Schedule.DaysStand | spool/lifecycle.py:311-345 | over any number of consecutive days of the schedule, where every week of a busy year stands: not archived yet, in a weekly zip, in the yearly zip, or left behind |
| Schedule.YearGetsItsWeeks | spool/lifecycle.py:311-345 | however long the schedule runs after New Year, the yearly archive has every week of the year if and only if New Year's Day was a Monday |
| Schedule.LeftOverForGood | spool/lifecycle.py:311-345 | otherwise the last week's zip stays in archives/, outside the yearly one, on every later day |
| Schedule.LeftOverOf2025 | spool/lifecycle.py:311-345 | 2025 is such a year: the week of 29 December is left over |
| SpoolRoots.Completed | spool/writer.py:36-39 | the id and the schema version are filled in when absent and nothing given is changed |
| SpoolRoots.SpoolRoot.WriteEvent | spool/writer.py:13-58 | refused if and only if some key that its type requires is missing from its payload, an object or nothing at all; otherwise published all at once under its id, made up if there is none, or not at all |
| SpoolRoots.SpoolRoot.MoveToFailed | spool/ingestor.py:641-655 | the file moves to failed/ or, if the rename fails, stays |
| SpoolRoots.SpoolRoot.ProcessOne | spool/ingestor.py:133-203 | the place, the rows, the counter and the escaping exception for every content and fault |
| SpoolRoots.SpoolRoot.Record | spool/ingestor.py:170-203 | the same from the raw write on |
| SpoolRoots.SpoolRoot.IngestFile | spool/ingestor.py:102-128 | the handlers around one file complete its turn |
| SpoolRoots.SpoolRoot.IngestListed | spool/ingestor.py:100-130 | the loop is a run of the transition system, counts every listed file once and loses no event name |
| SpoolRoots.SpoolRoot.Ingest | spool/ingestor.py:84-130 | the same over the directory's own listing, in any order, with exact counters |
| SpoolRoots.SpoolRoot.SelectWeek | spool/lifecycle.py:113-119 | the candidates are exactly the processed files in the week's window |
| SpoolRoots.WriteZip | spool/lifecycle.py:139-143 | a zip that is written out holds exactly the candidates |
| SpoolRoots.SpoolRoot.SealWeek | spool/lifecycle.py:158-178 | publish, verify, then delete the originals or take the zip back |
| SpoolRoots.SpoolRoot.DeleteFiles | spool/lifecycle.py:172-178 | exactly the originals that can be deleted are gone |
| SpoolRoots.SpoolRoot.ArchiveWeek | spool/lifecycle.py:81-191 | a run of the transition system after which every processed file is held; a week already archived is left alone; a bundle holds exactly the week's files; anything else deletes nothing |
| SpoolRoots.SpoolRoot.ConsolidateYear | spool/lifecycle.py:194-308 | a run of the transition system after which every file held before is held; the exact result for every fault; an existing yearly archive is left alone; a bundle holds exactly the year's weekly zips |
| SpoolRoots.SpoolRoot.SelectYear | spool/lifecycle.py:228-250 | the zips to consolidate are exactly the weekly ones whose Monday is in the year |
| SpoolRoots.SpoolRoot.SealYear | spool/lifecycle.py:273-294 | publish, verify, then delete the weekly zips or take the yearly one back |
| SpoolRoots.SpoolRoot.CheckAndArchive | spool/lifecycle.py:311-345 | a run of the transition system that holds every processed file, whatever fails; with no faults, one day of the schedule |
| SpoolRoots.SpoolRoot.CopyToInbox | scripts/spool_restore.py:72-82 | a member is written if and only if its name is not there |
| SpoolRoots.SpoolRoot.ExtractZip | scripts/spool_restore.py:127-136 | the inbox becomes the extraction of the members before the first that is missing there and cannot be read; all of them if and only if there is none; then written is the number of members the inbox did not have and skipped the number it had |
| SpoolRoots.CopyAllExtracts | scripts/spool_restore.py:127-136 | copying members one by one, in whatever order, is the extraction |
| SpoolRoots.SpoolRoot.RestoreWeekly | scripts/spool_restore.py:90-141 | the exact result for every archive, readable or not, with the numbers of members that were missing and that were there; refusals and the dry run change nothing, an unreadable member leaves what was extracted before it, and otherwise the state is that of restoring and ingesting, which recovery is proved about |
| SpoolRoots.SpoolRoot.ScanYearly | scripts/spool_restore.py:147-159 | succeeds if and only if every zip opens, with the number of weekly zips and of (week, event) entries |
| SpoolRoots.SpoolRoot.ExtractYear | scripts/spool_restore.py:199-217 | every weekly zip is extracted in turn, written being the number of names the inbox did not have and skipped the rest of the members, or the restore stops at a member that is missing from the inbox and cannot be read |
| SpoolRoots.SpoolRoot.RestoreYearly | scripts/spool_restore.py:162-222 | an archive in which a zip does not open, and the dry run, change nothing; an unreadable member leaves what was extracted before it; otherwise every zip is extracted, with exact counts, and the state is that of restoring and ingesting |
| Retention.NewestFirstSorts | core/self_install.py:235-246 | the order is newest first and loses no backup |
| Retention.NewestComesFirst | core/self_install.py:235-246 | wherever a strictly newest backup appears in the listing it is sorted to the front and the rest keep their places |
| Retention.TiesStay | core/self_install.py:235-246 | backups made at the same time stay in listing order |
| Retention.DryRunEqualsReal | core/self_install.py:264-274 | the dry run before the new backup names exactly what the real run removes after it, if and only if two or more are kept or nothing is uncited |
| Retention.KeepOneDisagrees | core/self_install.py:270 | a concrete disagreement when one is kept |
| Retention.RetentionKeeps | core/self_install.py:264-290 | no cited backup is removed, at most max(keep, 1) uncited remain, exactly that many if any is removed, and none of them is older than one removed |
| Retention.NewestStays | core/self_install.py:270-273 | the newest backup is never removed |
| Retention.BackupDirectory.PruneSelfInstallBackups | core/self_install.py:276-290 | the loop removes exactly the pruned list, or the part of it before a removal that raises; cited and newest survive either way |
| Retention.CandidatesDiffer | core/self_install.py:316 | the names tried are all different |
| Retention.Unused | core/self_install.py:310-317 | for every finite set of taken names the search ends with the first free name in the sequence |
| InstallHistory.BuildTouchesItsApp | core/self_install.py:902-976 | building changes only the app being built, never the live one, and it is complete only if the build got past writing its record |
| InstallHistory.PrepareInvisible | core/self_install.py:1065-1121 | everything before activation leaves current, previous, installed-version and launcher alone and removes no complete app |
| InstallHistory.FailedInstallInvisible | core/self_install.py:1093-1131 | an install that stops before activation changes nothing visible |
| InstallHistory.SwitchOldOrNew | core/self_install.py:362-373 | outside Windows the link names the old or the new target whatever happens |
| InstallHistory.SwitchOnWindows | core/self_install.py:374-383 | on Windows too, except exactly when the process dies after removing the old link or it cannot be put back |
| InstallHistory.StagedNeverBlocks | core/self_install.py:367-369 | a link left staged by an earlier run changes nothing about the next switch |
| InstallHistory.ActivateShape | core/self_install.py:979-1002 | activation changes no app, leaves current at the new, the old or no app, and previous at what it was or what current was |
| InstallHistory.InstallDone | core/self_install.py:1005-1143 | an install that succeeds leaves current at a complete app, previous at the one before, installed-version and launcher up to date, and the authority backed up and migrated |
| InstallHistory.InstallSucceeds | core/self_install.py:1005-1143 | when nothing fails, an install goes through if and only if no check refuses it and it does not have to rebuild the live app |
| InstallHistory.HistoryInvariant | core/self_install.py:1005-1143 | over every history with failure or death at any step, current and previous name complete apps when set and no complete app is removed or changed |
| InstallHistory.LiveDirectoryStays | core/self_install.py:873-899 | from any home at all, no operation removes the directory current points at |
| InstallHistory.RollbackRespectsSchema | core/self_install.py:1269-1289 | no rollback activates an incomplete app or one whose newest migration is below the schema |
| InstallHistory.RollbackOnce | core/self_install.py:1228-1303 | between two complete apps named by a version (letters, digits, dots, pluses, underscores) and ten hex digits, an undisturbed rollback swaps current and previous and records the app it went to |
| InstallHistory.RollbackSucceeds | core/self_install.py:1228-1303 | when nothing fails, a rollback goes through if and only if previous names a complete app, by such a version and a commit, that ships every migration the authority has; otherwise it changes nothing |
| InstallHistory.RollbackInvolution | core/self_install.py:1228-1303 | two rollbacks restore current and previous, and the whole home if and only if it was settled |
| InstallHistory.RollbackForgets | core/self_install.py:990-992 | from every home and on every platform, a rollback loses its target if and only if it proceeds, replaces another app, records previous, and stops before the new link is in place |
| InstallHistory.ForgottenForGood | core/self_install.py:990-992 | after that the lost app is neither current nor previous, over every sequence of rollbacks |
| InstallHistory.AppIdAccepted | core/self_install.py:50 | for every version and ten hex digits, the app id is accepted by rollback if and only if the version is not empty, starts with an ASCII letter or digit and otherwise holds only letters, digits, '.', '+' and '_' |
| InstallHistory.AppIdsAre | core/self_install.py:50 | nothing but such a version, a dash and ten hex digits is accepted |
| InstallHistory.DashedVersionIsStuck | core/self_install.py:1234-1239 | an app whose version has a dash can never be rolled back to |
| InstallHistory.DashedVersionGetsStuck | core/self_install.py:50 | installing a dashed version and then any other app gets a home there |
| InstallHome.HomeDirectory.RemoveTree | core/self_install.py:328-332 | the directory is gone, or a removal that stopped leaves part of it |
| InstallHome.HomeDirectory.BuildApp | core/self_install.py:902-976 | step by step, the build of the specification |
| InstallHome.HomeDirectory.SwitchCurrent | core/self_install.py:362-383 | step by step, the switch of the specification, on both platforms |
| InstallHome.HomeDirectory.Activate | core/self_install.py:979-1002 | step by step, the activation of the specification |
| InstallHome.HomeDirectory.SelfInstall | core/self_install.py:1005-1143 | the install of the specification; complete apps and the live directory survive; a stop before activation changes nothing visible |
| InstallHome.HomeDirectory.Rollback | core/self_install.py:1202-1303 | the rollback of the specification; sound homes stay sound; when nothing fails it ends at the previous app if that can be rolled back to, and changes nothing otherwise |
| Upsert.FinalRow | core/analytics_ingestion_core.py:162-192 | what a run leaves at every key: in SecurityEvents and ReadinessEvents the row that was there or else the first accepted; in each of the other four tables, column by column, the last value given |
| Upsert.OverlayIsLast | core/analytics_ingestion_core.py:178-188 | the overlay holds each column's last value |
| Upsert.LastRecordWins | core/analytics_ingestion_core.py:178-192 | the last record for a key is what the key holds |
| Upsert.BareKeyRaises | core/analytics_ingestion_core.py:177-192 | a row of a keyed table that is nothing but its key raises when the key is there |
| Upsert.UpsertRaises | core/analytics_ingestion_core.py:162-192 | a row raises if and only if it holds a list or an object, or its table is keyed and its constraints refuse it or it is a bare key that is there |
| Upsert.ReplayIdempotent | core/analytics_ingestion_core.py:162-192 | an import that goes through once goes through again if and only if no keyed row is a bare key, and then changes nothing |
| AnalyticsImport.TallyCounts | core/analytics_ingestion_core.py:109-114 | a counter is the number of rows of its table |
| AnalyticsImport.SkippedAre | core/analytics_ingestion_core.py:81-102 | for each of the eight sections, when it is skipped for being no list, for its table being missing, and when a record of it is skipped |
| AnalyticsImport.Import.Upsert | core/analytics_ingestion_core.py:162-192 | one row goes in by the rule of its table, SecurityEvents and ReadinessEvents keeping the first and the other four the last value of each column, or raises under the exact condition |
| AnalyticsImport.Import.IngestRows | core/analytics_ingestion_core.py:109-114 | a record's rows are planned, and written when executing, or the run raises |
| AnalyticsImport.Import.IngestRecords | core/analytics_ingestion_core.py:99-114 | a section's records, in order; those that are no objects are skipped and listed |
| AnalyticsImport.Import.IngestSection | core/analytics_ingestion_core.py:81-98 | a section that is no list or whose tables are missing is skipped and listed |
| AnalyticsImport.Import.IngestSections | core/analytics_ingestion_core.py:81-114 | all sections, in order |
| AnalyticsImport.Authority.IngestAnalyticsPayload | core/analytics_ingestion_core.py:48-122 | a dry run and a real run plan the same rows, the real run writes what it planned, leaves at every key what the rule of its table says, and whatever raises commits nothing |
| AnalyticsImport.ImportTwice | core/analytics_ingestion_core.py:81-122 | importing the same rows again goes through if and only if no keyed row is a bare key, and then changes nothing |
| SectionHandlers.HandlersStamp | core/analytics_ingestion_rows.py:17-326 | every row that any section handler builds, for any record, fills its key and its time of creation |
| SectionHandlers.HandlersKeyed | core/analytics_ingestion_core.py:70-80 | the rows of the real handlers all carry their table's key |
| SectionHandlers.StampedNotBare | core/analytics_ingestion_core.py:176-192 | none of their rows is a bare key, so none falls through to an INSERT that raises |
| SectionHandlers.PayloadIdempotent | core/analytics_ingestion_core.py:81-122 | for every payload: an import that goes through goes through again, and with the same time of ingestion the second changes nothing |
| LaterImport.ChangesOnlyTimes | core/analytics_ingestion_core.py:62-66 | imported again at a later time, a payload without its own `ingested_at` goes through and changes nothing but times |
| SectionHandlers.SharedControlKeptOnce | core/analytics_ingestion_rows.py:298-325 | a control without result_id that occurs in two assessments is recorded once, under the first |
| SectionHandlers.SharedControlKey | core/analytics_ingestion_rows.py:302 | with digests that differ for different contents, two controls share a key if and only if they carry the same result_id, or neither carries one and they are equal, or one carries the id made up for the other |
| SectionRows.FindingKeptOnce | core/analytics_ingestion_core.py:169-175 | a finding imported twice, in one payload or in two, stays as it was first recorded, with the first severity |
| SectionRows.LastValidationStays | core/analytics_ingestion_core.py:176-192 | a validation imported twice has the status of its last record |
| SectionRows.ProjectSays | core/analytics_ingestion_rows.py:17-47 | what the row of a project holds of its record |
| SectionRows.ValidationSays | core/analytics_ingestion_rows.py:50-78 | what the row of a validation holds of its record |
| SectionRows.FindingSays | core/analytics_ingestion_rows.py:81-116 | what the row of a finding holds of its record, apart from its text |
| SectionRows.ReadinessSays | core/analytics_ingestion_rows.py:261-326 | a readiness record becomes a row for the assessment and one for each control that is an object, in order, which names the assessment as its parent |
| SectionRows.CostsSay | core/analytics_ingestion_rows.py:119-236 | a cost is recorded only if it is of a known kind and a known source |
| SectionRows.RecordsRaise | core/analytics_ingestion_rows.py:17-358 | which project, validation, finding and readiness records raise: without a project, with a count that is no integer, with references that cannot be merged, with a description that is no text, or with a number for controls |
| Backfill.EachRow | scripts/backfill_dual_canonical.py:218-307 | the offset loop ends and handles every row exactly once, in order, for any row action |
| Backfill.CountersExact | scripts/backfill_dual_canonical.py:249-256 | each counter counts the rows of its own routing and the four add up to the rows seen |
| Backfill.TallyIndependent | scripts/backfill_dual_canonical.py:249-258 | what is counted depends neither on faults nor on the dry run, which writes nothing |
| Backfill.CanonicalStore.RunBackfill | scripts/backfill_dual_canonical.py:207-315 | every row is processed once; the four counters are the numbers of rows whose types the registry sends to business, to AI, to both (as it does the unregistered ones) or to neither; no row that was there changes, and a new one holds what a legacy row of its id says |
| Backfill.TallyEntries | scripts/backfill_dual_canonical.py:249-256 | each counter is the number of rows with its registry entry, the unregistered ones counting for both |
| Backfill.SavedRowsSay | scripts/backfill_dual_canonical.py:232-301 | whatever fails, a committed row that was not there holds the timestamp, the time of receipt, the trace, the payload and the trace's ids of a legacy row of its id, and its type, schema version and severity where they are not empty, or else the defaults |
| Backfill.BackfillMembers | scripts/backfill_dual_canonical.py:232-301 | an error-free backfill leaves an event in a table if and only if it was there, or a legacy row of its id has a timestamp and a type that is unregistered or registered for the table |
| Backfill.NormalIsAlike | scripts/backfill_dual_canonical.py:232-244 | a row means to the canonical tables what its event means if and only if its id is not empty and, if it has a timestamp, no default takes the place of its type, schema version or severity |
| Backfill.Membership | scripts/backfill_dual_canonical.py:141-156 | which events are in a table after any inserts does not depend on their order, and no row is overwritten |
| Backfill.BackfillIsInserts | scripts/backfill_dual_canonical.py:258-301 | an error-free backfill is one committed insert per row |
| Backfill.BackfillAgrees | spool/ingestor.py:288-310 | any error-free interleaving of live ingest with the backfill of a legacy table in which no default applies gives the membership of live ingest alone, without overwriting a row |
| Backfill.NormalFor | scripts/backfill_dual_canonical.py:232-244 | the row of a legacy event puts in what its live insert puts in, unless that id is empty, and what the defaults add |
| Backfill.BackfillDiffers | scripts/backfill_dual_canonical.py:232-301 | for every legacy table the difference is exactly the events that a default (a made-up id, the empty type, schema version 1, severity info) adds; only an event of empty id must itself be inserted live |
| Backfill.BackfillAfterLive | scripts/backfill_dual_canonical.py:207-315 | a whole backfill after live ingest of the same events adds exactly the events of the legacy rows to which a default applies |
| Backfill.NothingOverwritten | scripts/backfill_dual_canonical.py:258-303 | whatever fails, no row that was there is overwritten and what is committed is part of what the connection sees |
| Backfill.PairAfter | scripts/backfill_dual_canonical.py:259-303 | where an event routed to both tables stands after any number of rows and faults, pending and committed |
| Backfill.PairSurvives | scripts/backfill_dual_canonical.py:259-303 | whatever fails, its two rows are saved together or not at all, unless, and only unless, its own AI insert fails and a later row commits |
| Backfill.PairSurvivesItsValues | scripts/backfill_dual_canonical.py:259-303 | on a database that works, the pair is split if and only if its AI columns hold a list or an object, its business columns do not, and a later row can be written |
| Backfill.FailedInsertSplitsPair | scripts/backfill_dual_canonical.py:259-303 | the shortest such run: a trace whose session_id is a list, and one row after it |
| FindingsRoundTrip.BracketLine | control/analysis/findings_summarizer.py:98-131 | only the first pattern can match a line that opens with a bracket |
| FindingsRoundTrip.ReadsBack | control/analysis/findings_summarizer.py:45-51 | a safe printed finding is read back |
| FindingsRoundTrip.DashBreaks | control/analysis/findings_summarizer.py:48-49 | every path with a dash after its first character is cut short |
| FindingsRoundTrip.FixBreaks | control/analysis/findings_summarizer.py:49 | every title in which the fix group can start early is cut short |
| FindingsRoundTrip.PrinterParserInverse | control/analysis/findings_summarizer.py:179-192 | for every finding the parser can return, parsing its printed line returns it if and only if its file is one word and it is safe |
| FindingsRoundTrip.BracketFileIsWord | control/analysis/findings_summarizer.py:47-51 | a line that opens with a bracket never yields a file with a blank in it |
| FindingsRoundTrip.SeverityKept | control/analysis/findings_summarizer.py:179-192 | whatever else is cut short, a printed line keeps its severity |
| FindingsRoundTrip.TableRowParses | control/analysis/findings_summarizer.py:64-67 | a table row is read as it stands, blanks and dashes in the path included |
| FindingsRoundTrip.PrintedLine | control/analysis/findings_summarizer.py:179-192 | the printed line, from the severity in capitals and brackets to the fix in parentheses |
| FindingsFormats.SeverityIs | control/analysis/findings_summarizer.py:23-37 | which spellings, in any case and with any blanks around, are which severity |
| FindingsFormats.LooksLikeFileIs | control/analysis/findings_summarizer.py:90-95 | a text is a file if and only if it holds a dot, a slash, a backslash or a colon |
| FindingsFormats.BoldParses | control/analysis/findings_summarizer.py:52-57 | a bold line is a title, unless it ends with "in" and one more word: then that word is the file and the title ends before them |
| FindingsFormats.BoldReadsBack | control/analysis/findings_summarizer.py:52-57 | a bold line of any title and a one-word file is read back |
| FindingsFormats.FullRowParses | control/analysis/findings_summarizer.py:58-62 | a four-column table row, with or without its last bar, is read as it stands |
| FindingsFormats.HeadingParses | control/analysis/findings_summarizer.py:68-72 | a heading is read as a severity and a title if and only if it has at most six hashes |
| FindingsFormats.ItemParses | control/analysis/findings_summarizer.py:73-84 | a list item is cut at the first colon behind the first character of its first word, if there is more behind it, into a file and a title; any other is its title |
| FindingsFormats.ItemReadsBack | control/analysis/findings_summarizer.py:73-78 | a list item of a one-word file and a title is read back if and only if the file has no colon behind its first character |
| Summaries.SplitJoin | control/analysis/findings_summarizer.py:150-192 | splitting into lines undoes joining them |
| Summaries.BreaksSplit | control/analysis/findings_summarizer.py:150 | each of the eleven line ends splits off the line before it |
| Summaries.StableSort | control/analysis/findings_summarizer.py:162 | the sort is the only list in severity order that keeps each severity's own order |
| Summaries.SortedSorts | control/analysis/findings_summarizer.py:162 | the sort is in severity order and loses no finding |
| Summaries.SortedIs | control/analysis/findings_summarizer.py:22-162 | the sort is the critical findings, then the high, the medium and the low ones, each in their own order |
| Summaries.CountSeverities | control/analysis/findings_summarizer.py:164-166 | the counting loop gives the number of findings of each severity |
| Summaries.SummarizeFindings | control/analysis/findings_summarizer.py:139-176 | the loops give the sorted findings of the text, with counts that add up to the total |
| Summaries.FormatCompact | control/analysis/findings_summarizer.py:179-192 | one printed line per finding, joined by newlines |
| Summaries.ReportReadsBack | control/analysis/findings_summarizer.py:139-192 | summarising the compact report of any findings that print stably gives their sort |
| Summaries.ReportRoundTrip | control/analysis/findings_summarizer.py:139-192 | the report of any tidy findings in severity order reads back as they are if and only if each is one word and safe |
| Summaries.ParsedIsTidy | control/analysis/findings_summarizer.py:98-131 | whichever pattern matched, a finding has a trimmed one-line title, a trimmed one-line fix or none, and a path-like file or "unknown" |
| Summaries.SummaryIsTidy | control/analysis/findings_summarizer.py:139-176 | so has every finding of every summary |
| Summaries.SummaryRoundTrip | control/analysis/findings_summarizer.py:139-192 | for every text, re-summarising the compact report gives the same list and counts if and only if every found file is one word and every finding is safe |
| Summaries.TableRowBreaks | control/analysis/findings_summarizer.py:64-67 | the summary of a table row whose path holds a blank, or a dash after its first character, does not come back from its report |
| Summaries.HyphenBreaks | control/analysis/findings_summarizer.py:46-51 | one such text: the table row of a hyphenated path |

## Left out

- SpoolRoots.SpoolRoot.WriteEvent: a path separator inside an event id is not modelled; the id is taken as the file's name.
- SpoolRoots.SpoolRoot.Ingest: the alphabetical order of the listing is not modelled; everything holds for every order.
- SpoolRoots.SpoolRoot.CheckAndArchive: one call a day; the daemon's extra calls at startup and days without a call are not part of `Schedule`, whose machine-level guarantees hold for any calls.
- AnalyticsImport.Authority.IngestAnalyticsPayload: a table is a map from key to row; an id given as a number is not identified with the same digits as text, as SQLite would.
- The texts of findings and assessments, and the columns of usage rows other than costs, are built by `SectionHandlers` without a statement of their own.
- Text, JSON text, integer conversion, duplicate removal and the digest of made-up ids in the section handlers: library calls, taken as parameters.
- InstallHome.HomeDirectory.SwitchCurrent: `current` being a real directory instead of a link is not modelled.
- Backfill.CanonicalStore.RunBackfill: the made-up id uses the source's numbering; the correlation ids the backfill composes itself are not compared with live ones, and the id columns it fills from the trace alone are `Backfill.BusinessCells` and `Backfill.AiCells`.
- Outcomes.ExactOutcome: the tables store events whose id is a plain string. SQLite also stores a null id, as a new row each time, and a number, as its text; those rows are not modelled. The theorems about `Recording.World` are not touched, since its accepted ids are the names of files.
- Rows keep the event and the receipt time; each table's columns are functions of them. A string that is itself JSON text is a separate value, `Encoded`.
- `extend`, `validate` and `normalize_legacy` of `core/correlation/composer.py`: the pipeline composes and reads ids only.
- The execution-events projection, `assert_may_create_database` and database bootstrap: steps that may fail.
- Session-file cleanup, the Windows console handler and process probes: operating-system calls.
- Torn writes of app.json and of the `previous` file: those writes are atomic here.
- pip, git, venv, launcher text, launcher repointing, row-count baselines and integrations of the installer: phases that succeed or fail.
- SQL text, indexes, JSON encoding, command lines, printing and logging.
