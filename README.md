# Group checker: queue, rendezvous and verdict rules

This project is a Dafny model of the layer that lets the group-checking bots work together. A front bot and a userbot cooperate through three SQLite tables:

- the front bot (`main_bot.py`) queues a group for checking, runs its own checks and waits for the userbot's result;
- the userbot (`userbot.py`) sweeps the queue, joins each group, analyses it and stores a result row;
- a small `SyncManager` (`sync_manager.py`) offers a second, adaptive waiter with per-group callbacks.

The model covers six areas:

- **Store** (`database.dfy`). A `Store` class holds the tables `check_queue`, `group_checks` and `leave_queue` as sequences of rows with auto-increment ids. Each write of `database.py` is a method. The read-only queries are functions of the tables:
  - `get_userbot_result` and `is_check_complete` read the first row of the group, because they use `fetchone` without `ORDER BY`;
  - the stored JSON text has a NULL, an empty and a `"null"` state, so a check can be complete without a result.
- **Consumer sweep** (`consumer.dfy`). One pass of the `process_pending_checks` loop is a method over the store. It is proved equal to a pure specification, `Run`. Joining, the analysis payload and whether storing raises are oracle inputs. Lemmas about `Run` cover:
  - each entry's status history;
  - that no status is ever set back to `pending`;
  - the result rows the sweep appends;
  - the skip guard;
  - the handling order.
- **Waiters** (`polling.dfy`, `sync_manager.dfy`, `front_bot.dfy`). Time is an abstract clock in milliseconds. The store contents at the k-th poll are an observation. Each waiter returns the trace of its iterations, and its contract ties the outcome to that trace.
- **Userbot analysis rules** (`analysis.dfy`):
  - the imported/forwarded-message classifier;
  - the geo flag;
  - the selection of the oldest message.
- **Front-bot verdict rules** (`front_bot.dfy`):
  - the geo check by title;
  - the message-id check;
  - `identify_issues` and the verdict `final_result`;
  - the issue grouping of the report;
  - the 4000-character report parts;
  - the bounded retry for administrator rights.
- **Support**:
  - `json.dfy` holds JSON values with Python truthiness and `dict.get`;
  - `text.dfy` holds lower-casing, substring and keyword filtering;
  - `wrappers.dfy` holds `Option`.

An exception while handling one queue entry ends the whole sweep. The `try` at userbot.py:505 encloses the whole `for` loop, and its `except` at userbot.py:581 comes after the loop. `analyze_group` catches its own exceptions and returns an error payload (userbot.py:147-161), so analysis never raises. The modelled exceptions come from storing (`Consumer.Storing`): either `save_check_result` raises and no row is committed, or the row is committed (database.py:97) and the `update_queue_status(queue_id, "userbot_done")` at userbot.py:553 raises. In the second case the stored result is already readable, so the front worker's wait sees it and a later entry for the same group is skipped. Other exceptions that can reach userbot.py:581 are listed under "Left out". A raise skips the rest of the listed entries. The entry that raised stays `processing` for good: a later sweep lists only `pending` rows (database.py:82), and nothing sets a `processing` row back. `Consumer.Run` stops at such an entry. `Consumer.AllowedHistory` includes the history `[processing]`, and `Consumer.RunStatusHistory` proves that this history only occurs in a sweep that raised.

## Model

| member | source | states |
|---|---|---|
| Database.Store.constructor | database.py:5-46 | `init_db` on a fresh database gives three empty tables |
| Database.Store.AddToQueue | database.py:53-65 | appends exactly one `check_queue` row with the given fields and status `pending`; returns its id, which is at least 1 and above every existing id; the other tables are unchanged |
| Database.Store.UpdateQueueStatus | database.py:67-76 | the queue becomes `WithStatus` of the old queue: an unconditional overwrite of the row with that id; no other table changes |
| Database.WithStatus | database.py:67-76 | same length and ids; the rows with the id get the new status; every other row is unchanged |
| Database.WithStatusMissingId | database.py:67-76 | an id no row has leaves the queue unchanged, with no error |
| Database.WithStatusOverwrites | database.py:67-76 | a second update wins regardless of the first: nothing is conditional on the old status |
| Database.GetPendingChecks | database.py:78-85 | a row is listed iff it is in the queue and its status is `pending`; the listing is a subsequence of the table, so table order is kept |
| Database.PendingIdsIncreasing | database.py:78-85 | with increasing table ids, the listing's ids are increasing |
| Database.PendingAppend | database.py:78-85 | after an append, the listing is the old listing plus the new row exactly when that row is pending |
| Database.EnqueueThenList | database.py:53-85 | enqueueing and then listing gives the old listing plus exactly the new pending row |
| Database.Store.SaveCheckResult | database.py:87-99 | always appends one `group_checks` row with a fresh id, even when the group already has rows; earlier rows and other tables are unchanged |
| Database.NextId | database.py:11-46 | the auto-increment id is at least 1, above every id in the table, and keeps the ids increasing |
| Database.DecodeEncode | database.py:94-113 | reading back a stored dict or `None` gives that value |
| Database.Decode | database.py:110-113 | NULL and empty text read as absent; JSON text reads as its value (`"null"` as absent) |
| Database.FirstCheckRow | database.py:106-109 | the first row of a group by table position, or none |
| Database.GetUserbotResult | database.py:101-114 | absent when the group has no row; a value only if it is the decoded text of the group's first row |
| Database.IsCheckComplete | database.py:116-127 | true iff a first row for the group exists and its userbot column is not NULL |
| Database.ResultImpliesComplete | database.py:101-127 | a present result implies the check is complete |
| Database.CompleteWithoutResult | database.py:101-127 | a first row whose text is `"null"` or empty is complete but reads as absent |
| Database.FirstCheckRowAppend | database.py:106-109 | appending rows changes the first row only for a group that had none |
| Database.LaterRowsIgnored | database.py:101-127 | once a group has a row, later rows for it change neither the result nor completeness |
| Database.OtherGroupRowIgnored | database.py:101-127 | a row for another group changes neither query |
| Database.FirstAppendDecides | database.py:87-114 | for a group without rows, the appended row decides the result |
| Database.Store.AddToLeaveQueue | database.py:129-142 | appends one `leave_queue` row with reason defaulting to `manual` and status `pending`; returns its fresh id; the other tables are unchanged |
| SyncManager.SyncManager.constructor | sync_manager.py:9-11 | a new manager has no callbacks and has called none |
| SyncManager.SyncManager.RegisterCallback | sync_manager.py:13-16 | the new callback is the only one for the group, replacing any earlier one; other groups' entries are unchanged |
| SyncManager.Qualifies | sync_manager.py:31 | a result passes iff it is a dict holding `join_success` with a value other than `None` (that entry makes the dict non-empty) |
| SyncManager.SleepAfter | sync_manager.py:47-50 | the sleep is between 0 and 5 s and never reaches the deadline; it is positive once 2 ms remain, and exactly 5 s while 10 s or more remain |
| SyncManager.SyncManager.WaitForUserbotResult | sync_manager.py:18-61 | every poll starts before the deadline and sees the query of its own observation. A result is returned only if it is a non-empty dict with a non-`None` `join_success`, and all earlier polls saw none and slept `SleepAfter`. The registered callback for the group is called exactly once with that result. On timeout the deadline has passed. Either way the group's registration is gone, and other groups' callbacks are neither called nor removed |
| SyncManager.PollForResult | sync_manager.py:25-50 | polls only while before the deadline, each poll seeing the query of its own observation. It stops at the first result that is a non-empty dict with a non-`None` `join_success`, with no sleep after it. Every other poll saw no such result and slept `SleepAfter`. With no result, the last read reached the deadline and no sleep followed it |
| SyncManager.PollOnce | sync_manager.py:26-50 | one iteration reads the store; a passing result stops without sleeping; otherwise the clock strictly advances and the loop invariant `Waited` holds for the longer trace |
| SyncManager.TimeoutNeverQualifies | sync_manager.py:58-61 | the timeout dict never passes the result test |
| Consumer.ProcessPendingChecks | userbot.py:500-584 | one sweep leaves the queue, the result table and the call log equal to `Run` over the pending listing taken at the sweep's start; `leave_queue` is unchanged |
| Consumer.Run | userbot.py:511-574 | the `for` loop over the listing, ending at an entry that raises. It keeps the result ids valid, keeps the queue length, only appends to the result table and the call log, and changes nothing once the sweep has raised |
| Consumer.Step | userbot.py:512-574 | one loop body: the skip guard at userbot.py:515-519, then claim, join, store and mark. It keeps the result ids valid and the queue length, and only appends to the result table and the call log |
| Consumer.ResultRow | userbot.py:542-550 | the row the consumer stores gets an id above every existing row's, so the result ids stay valid |
| Consumer.HandleEntry | userbot.py:512-574 | handling one entry is `Step`: skip with `userbot_done`; otherwise `processing`, then join, then `failed`, or store, `userbot_done` and leave. When `save_check_result` raises, no row is stored and the raise is reported; when the `userbot_done` update raises, the row is stored, the entry stays `processing` and the raise is reported |
| Consumer.RunStatusHistory | userbot.py:515-584 | each listed entry's statuses are one of `[]`, `[userbot_done]`, `[processing, failed]`, `[processing, userbot_done]`, `[processing]`. In a sweep that did not raise, every listed entry has a non-empty history. The history `[processing]` only occurs in a sweep that raised |
| Consumer.RunOtherIds | userbot.py:511-574 | the sweep writes no status for an id that no listed entry has |
| Consumer.EntryStatuses | userbot.py:515-574 | one entry's handling writes a non-empty allowed history for itself and nothing for others; the history is `[processing]` exactly when the entry joined and its storing raised (in `save_check_result` or in the `userbot_done` update after it) |
| Consumer.RunNeverPending | userbot.py:515-574 | no status written by a sweep is `pending` |
| Consumer.RunKeepsOtherRows | userbot.py:511-574 | queue length and ids are unchanged, and rows of unlisted entries are untouched |
| Consumer.RunAppendsResults | userbot.py:531-553 | the old result table is a prefix of the new one. Every appended row belongs to a listed entry that joined and whose `save_check_result` committed, with `bot_result` `{}`, `final_result` false, `issues` empty and the analysis payload. The converse is `Consumer.RunEntryChecks` |
| Consumer.RunFollowsListing | userbot.py:506-511 | the log only grows; the new events belong to listed entries, and their ids never decrease along the log. Each entry's events share its id and come as one block, so the blocks follow the listing order |
| Consumer.StepChecks | userbot.py:515-553 | one entry appends exactly the consumer's row for it when it was not skipped, joined and `save_check_result` committed, including when the `userbot_done` update after it raises; otherwise (skipped, join failed, or `save_check_result` raised) it appends no row |
| Consumer.StepOutcome | userbot.py:515-574 | one entry's queue rows end `userbot_done` when skipped or stored, `failed` when the join fails, and `processing` when storing raises (in `save_check_result` or in the `userbot_done` update); the step raises exactly in that last case |
| Consumer.RunEntryStatus | userbot.py:511-574 | consider a listed entry the sweep reaches, whose id no later entry shares. Its queue rows end the sweep with the status its own outcome gives (`userbot_done`, `failed` or `processing`); later entries do not change it |
| Consumer.RunEntryChecks | userbot.py:531-553 | for a listed entry the sweep reaches: when it is not skipped, joins and `save_check_result` commits (whether or not the update after it raises), the next row appended to `group_checks` is the consumer's row for it. Otherwise its handling appends no row |
| Consumer.RunEntryRaises | userbot.py:505-584 | an entry whose storing raises ends the sweep: nothing after it is handled |
| Consumer.RunConcat | userbot.py:511 | running two listings in turn is running their concatenation |
| Consumer.SkipGuard | userbot.py:515-519 | with a truthy stored result the entry is only marked `userbot_done`: no join, no analysis, no stored row |
| Consumer.DuplicateEntrySkipped | userbot.py:515-553 | after one entry of a group commits a non-empty payload, a later entry of the same group is skipped, also when the update after the commit raised |
| Consumer.StatusesOfConcat | userbot.py:518-572 | the status history of a concatenated log is the concatenation of the histories |
| Analysis.CheckImportedMessages | userbot.py:340-405 | a fetch error gives the error dict. Otherwise: the counts equal the reference counts; `critical` iff some message has the `imported` flag; else `warning` iff the forwarded share exceeds 20%; else `normal`. The signs are one per flagged message, then the share sign |
| Analysis.ImportedCountPositive | userbot.py:356-359 | the imported count is positive exactly when some message has the flag |
| Analysis.CountsBounded | userbot.py:350-364 | both counts are at most the number of messages analysed |
| FrontBot.ImportIssuesFollowReport | main_bot.py:469-473 | the import report is merged into the analysis payload (userbot.py:134-135, whose `imported_status` is written at userbot.py:379-391). Entries set before it and later merges that do not set `imported_status` (userbot.py:137-143) are allowed. The front worker then lists the critical issue exactly when the report's status is `critical` and the warning issue exactly when it is `warning`. An error report (`error`) raises neither |
| Analysis.ImportFields | userbot.py:388-405 | the payload entries of the import report: the two flags are the report's flags and `imported_status` is its status text. When the messages were fetched, the three counts are present with the report's values (six keys); the error dict has none of the counts (three keys) |
| Analysis.CheckGeoGroup | userbot.py:300-338 | `is_geo_group` iff the full chat has a location or an address; a fetch error gives only the error reason |
| Analysis.GeoReasons | userbot.py:314-326 | the location, linked-chat and address reasons appear exactly when their attribute is present |
| Analysis.GeoKeywordReason | userbot.py:328-332 | the keyword reason is present iff some of the seven keywords occurs in the lower-cased title |
| Analysis.GeoFlagIgnoresTitleAndLink | userbot.py:314-332 | the title and the linked chat never change the geo flag |
| Analysis.OldestMessage | userbot.py:219-225 | none iff no message has a date; otherwise a dated message whose date is minimal, and the first such |
| Text.Lower | userbot.py:328 | lower-casing in the model keeps the length and maps each character by `LowerChar` |
| Text.KeywordsIn | main_bot.py:172 | the keywords found are, in list order, exactly those that occur in the text |
| Text.KeywordsInCounts | main_bot.py:172 | a keyword that occurs in the text is found as many times as the list holds it, one that does not is never found |
| FrontBot.WaitForUserbotCompletion | main_bot.py:230-247 | polls every 5 s while before the deadline. It returns the first result that is not `None`, and every earlier poll saw `None`. Otherwise it returns `None` once the deadline has passed |
| FrontBot.CheckBotAdminRights | main_bot.py:87-104 | `(True, member)` at the first administrator answer among `max_attempts`. Otherwise `(False, None)` after exactly `max_attempts` attempts (none when negative). A 2 s sleep follows each other answer |
| FrontBot.CheckGeoByName | main_bot.py:163-178 | the found keywords are, in list order, exactly the twenty keywords in the lower-cased title; geo iff one is found |
| FrontBot.UserbotKeywordsImplyFrontGeo | main_bot.py:165-169 | a keyword the userbot finds in a title makes the front bot's title check geo too |
| FrontBot.PerformWebCheck | main_bot.py:106-161 | the oldest id is the last read id, or 1 when none was read; passes iff latest minus oldest exceeds the minimum; a send error gives diff 0, not passed |
| FrontBot.WebCheckWithoutHistory | main_bot.py:132-143 | with nothing read back, the check passes iff the probe id exceeds the minimum plus one |
| FrontBot.IdentifyIssues | main_bot.py:449-479 | an issue is listed iff its condition holds, with the right values. The conditions: the web check failed (the default minimum of 50 applies); geo words were found; the result is a truthy dict with `is_geo_group`; its imported status is `critical` or `warning`; the result is `None` |
| FrontBot.FinalResult | main_bot.py:311-312 | `final_result` holds iff no issue is warranted at all |
| FrontBot.NoIssuesIff | main_bot.py:311-312 | `final_result` holds iff the web check passed, no geo word was found, the result is not `None`, it is not a geo group and its imported status is neither `critical` nor `warning` |
| FrontBot.GroupIssues | main_bot.py:428-430 | critical and warning issues are those with their markers; "other" is exactly the issues in neither group |
| FrontBot.EveryIssueGrouped | main_bot.py:428-430 | every issue lands in at least one group |
| FrontBot.NoOtherIssues | main_bot.py:428-430 | the issues `identify_issues` produces all carry a marker, so "other" is empty |
| FrontBot.Filter | main_bot.py:428 | a comprehension keeps exactly the matching elements, in order, each as many times as it occurs in the input |
| FrontBot.Chunks | main_bot.py:494 | the parts concatenate back to the report; each part holds 1 to 4000 characters; all but the last hold exactly 4000; their number is the length divided by 4000, rounded up |

## Left out

- main.py: process spawning, restarts and supervision are process plumbing, outside the rules modelled here.
- All Telegram calls are oracle inputs: joining, leaving, fetching entities, chats and messages, sending and deleting messages, creating invite links, and the interactive login. Their effects are not modelled.
- SQLite durability, connections and the interleaving of the two processes: the store is single-process state, so the check-then-act race between them is not modelled.
- Analysis.ImportFields: the `imported_signs` texts are not part of the modelled payload.
- JSON encoding: a stored payload is a dict or `None`, the only values the code passes to `save_check_result`. Text that is not valid JSON, or that holds a top-level non-dict value, is not modelled.
- `created_at` columns and timestamps: they are not read by any modelled rule.
- Store exceptions other than the two `Consumer.Storing` models (`save_check_result` raising, and the `userbot_done` update at userbot.py:553 raising after the row is committed) are not modelled: a raising `get_pending_checks` (userbot.py:506), `get_userbot_result` (userbot.py:515), or `update_queue_status` at userbot.py:518, 525 or 572. Store exceptions in the front worker are not modelled either.
- Wall-clock time is an integer count of milliseconds. The Python's floating-point seconds and its `(timeout - elapsed) / 2` halving are rounded down to whole milliseconds.
- SyncManager.PollForResult: assumes each store read takes at least one millisecond. Under integer halving the loop would otherwise spin at one millisecond before the deadline; the Python relies on real time passing.
- SyncManager.SyncManager.WaitForUserbotResult: the callback is taken from the registry as it stood when the wait began. The Python looks it up only at delivery, after yielding at every sleep, so a `register_callback` made by another coroutine during the wait is used there but not in the model.
- SyncManager.SyncManager.WaitForUserbotResult: the callback's own effects, and whether it raises, are not modelled. The invocation is recorded and the registration removed in either case.
- Exceptions from `print`, logging and the sleeps are not modelled, apart from one raised between the commit of the result row and the commit of the `userbot_done` update, which `Consumer.UpdateRaises` covers.
- The 3 s, 2 s and 10 s sleeps and the random 10-20 s delay of the consumer loop are not modelled, nor is the outer `while True`: one sweep is modelled.
- Forwarded shares use integer comparisons (`saved * 100 > 40 * total`) in place of the floating-point percentage, so rounding in the last bit of the float is not modelled.
- Text.LowerChar: lower-cases only ASCII and the basic Cyrillic block (U+0400-U+042F), which covers the keywords' own letters, not all of Unicode. Python also maps other characters onto those letters (U+212A KELVIN SIGN to `k`, for one), so a title that matches a keyword only through such a character is not matched in the model. Python's `str.lower` can also lengthen a string (U+0130 becomes `i` followed by U+0307), and the model's lower-casing always keeps the length; no keyword can match through such a character.
- Report, reason, sign and issue texts, month names, emoji and logging are not modelled. Issues and signs are datatypes, and the report markers (❌, ⚠️, КРИТИЧЕСКИЕ, ПРЕДУПРЕЖДЕНИЕ) are predicates on the issue kind, following the literal texts in `identify_issues`.
- Sending the report and its parts, and the `pending_groups` bookkeeping, are not modelled; the `send_final_report` call is commented out at main_bot.py:308 anyway.
- Date detection other than the oldest-message loop, including the `datetime.now()` fallbacks, is not modelled.
- FrontBot.PerformWebCheck: the ids read back are an input. The reading loop's early stop on an exception is folded into that input.
