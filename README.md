# telegram-download-chat, modelled in Dafny

This project models the core of telegram-download-chat. It is a command-line
tool that downloads the history of a Telegram chat to JSON and a readable
text export. The core is the paged download loop with resumable checkpoints,
the commands layer, and the message, entity, media, config and preset helpers.
The model also covers the MCP server that serves messages to assistants, its
connection manager, the older single-file script, the launcher and the
changelog generator.

The network, the clock, sleeping, the file system and git are parameters, so
each module is deterministic:
- pages of history arrive as a sequence of replies;
- entity lookups are functions;
- files are maps from paths to record sequences;
- the wall clock is a value or a boolean oracle.

JSON-like Python values (dicts keep insertion order, with `get`, `or`,
truthiness and the key a dict or set looks a value up by as Python has them)
live in `Json`; strings are `seq<char>`.

Modules, one per source file:
- `Download` is `core/download.py`: the `Downloader` class and its walk over the pages.
- `Checkpoint` and `Paths` are `partial.py` and the `pathlib` operations it uses.
- `Commands`, `ChatDownload`, `Arguments` and `Cli` are the command-line layer.
- `Messages`, `ReplyForest` and `TxtLayout` are `core/messages.py`.
- `Entities`, `Config`, `Media` and `Presets` are the remaining core helpers.
- `Legacy` is `telegram-download-chat.py`.
- `MainEntry` is `main.py`.
- `McpConnection` and `McpServer` are the MCP server.
- `Changelog` is `generate_changelog.py`.
- `Wrappers`, `Json` and `Text` are shared helpers.

Where the code and its documentation or tests disagree, the model follows the code:
- The downloader's `from_date` is the newer end of the range, because the code reads it that way.
- `--last-days N` first sets `until` to N days before the base day (cli/__init__.py:144).
  `process_chat_download` then recomputes the start day as N - 1 days before the base
  whenever the option is set (commands.py:290), and the model keeps that
  (`ChatDownload.LastDaysWins`). The test suite expects N days.
- `mcp/server.py` calls `manager.execute`, which the connection manager does not define.
  This is recorded under "## Findings".

## Model

| member | source | states |
|---|---|---|
| Download.MinId | src/telegram_download_chat/core/download.py:175 | the cursor is an id of the page and no message of the page lies below it |
| Download.ScanFrom | src/telegram_download_chat/core/download.py:112-146 | scanning a page never accepts more than it holds; crossing the until day means an until day is set and something of the page was not taken |
| Download.Begin | src/telegram_download_chat/core/download.py:37-61 | the walk starts from the loaded messages and their ids, at the checkpoint's last id when resuming a first-time download and at the newest message otherwise |
| Download.Step | src/telegram_download_chat/core/download.py:77-195 | one loop turn only goes on while the source has answers, saves at most once (only when checkpointing, and then everything collected) and keeps the stop flag sticky |
| Download.Truncate | src/telegram_download_chat/core/download.py:200-201 | the result is a prefix of what was collected, of exactly total_limit messages when the limit is positive and reached, and everything otherwise |
| Download.ScanIsFresh | src/telegram_download_chat/core/download.py:114-146 | a page scan appends only admissible messages with unseen, pairwise different ids, and the seen ids grow by exactly those ids |
| Download.ScanStopsAtBoundary | src/telegram_download_chat/core/download.py:114-146 | the page scan stops exactly at the first not-yet-collected message dated before the until day, and takes, in order, the first message of each new id before that point that from_date does not skip and that lies above since_id; a from-skipped message does not end the scan |
| Download.BoundaryIsFirst | src/telegram_download_chat/core/download.py:127-133 | no message before the scan's stopping point is a not-yet-collected message dated before the until day |
| Download.StepConsistent | src/telegram_download_chat/core/download.py:77-195 | each loop turn keeps the walk consistent: the collected messages are the loaded ones plus fresh batches, and the seen ids are their ids |
| Download.DownloadedMessagesAreFresh | src/telegram_download_chat/core/download.py:20-203 | the result begins with the checkpoint's messages; every later message lies in the date window and above since_id, and no id occurs twice |
| Download.StopEndsWalk | src/telegram_download_chat/core/download.py:78-82 | a stop request ends the walk before any request and keeps what was collected |
| Download.StoppedBeforeStart | src/telegram_download_chat/core/download.py:78-82 | a download that starts stopped sends no request and returns what it loaded |
| Download.FloodWaitRetries | src/telegram_download_chat/core/download.py:97-106 | a flood wait sleeps one second longer than asked, checkpoints when saving and retries from the same cursor |
| Download.EmptyPageEndsWalk | src/telegram_download_chat/core/download.py:108-110 | an empty page ends the walk |
| Download.UntilBoundaryEndsWalk | src/telegram_download_chat/core/download.py:150-173 | crossing the until day ends the walk whether or not the page gave new messages |
| Download.UntilShortfallEndsWalk | src/telegram_download_chat/core/download.py:168-173 | with an until day, a page that adds fewer messages than it holds ends the walk |
| Download.UntilDuplicateEndsWalk | src/telegram_download_chat/core/download.py:168-173 | a single duplicate on a page also ends the walk when an until day is set |
| Download.CursorFollowsPage | src/telegram_download_chat/core/download.py:175-177 | when the walk goes on, the cursor is the page's smallest id and stays above since_id |
| Download.TotalLimitEndsWalk | src/telegram_download_chat/core/download.py:194-195 | the walk goes past the total limit only after a turn that collected nothing |
| Download.FinalSaveHoldsAll | src/telegram_download_chat/core/download.py:197-198 | the final checkpoint save holds everything collected |
| Download.FirstRequestCursor | src/telegram_download_chat/core/download.py:37-55 | the first request starts at the checkpoint's last id when resuming a first-time download and at 0 otherwise |
| Download.LoopExtends | src/telegram_download_chat/core/download.py:148 | the loop only appends, both to the requests and to the messages |
| Download.SinceIdExample | src/telegram_download_chat/core/download.py:144-177 | with since_id 8 over pages [10, 9] and [8, 7], it keeps 10 and 9 and stops on the second page |
| Download.TotalLimitExample | src/telegram_download_chat/core/download.py:194-201 | with a total limit of 2, one request is sent and the first two messages are returned |
| Download.Downloader.Stop | src/telegram_download_chat/core/download.py:218-224 | stop sets the flag and creates the stop file when one is configured |
| Download.Downloader.SetStopFile | src/telegram_download_chat/core/download.py:226-232 | records the stop-file path and deletes a stale file there |
| Download.Downloader.CleanupStopFile | src/telegram_download_chat/core/download.py:234-239 | deletes the stop file if it exists and changes nothing else |
| Download.Downloader.DiscardCheckpoint | src/telegram_download_chat/core/messages.py:228-230 | the checkpoint file is deleted after saving unless a stop was requested |
| Download.Downloader.ScanMessages | src/telegram_download_chat/core/download.py:114-146 | the loop over a page computes exactly the page scan |
| Download.Downloader.Iteration | src/telegram_download_chat/core/download.py:77-195 | one loop turn computes Step, updates the checkpoint store by its saves and keeps the stop flag |
| Download.Downloader.RunLoop | src/telegram_download_chat/core/download.py:77-195 | the while loop computes the walk, leaving the store with exactly its saves |
| Download.Downloader.DownloadChat | src/telegram_download_chat/core/download.py:20-203 | download_chat returns the truncated walk, with the checkpoint store and stop flag as the walk leaves them |
| Paths.WithSuffix | src/telegram_download_chat/cli/commands.py:234-235 | with_suffix fails exactly on an empty name; otherwise it keeps the directory and the name ends with the new suffix |
| Paths.Stem | src/telegram_download_chat/cli/commands.py:377-378 | the stem followed by the suffix gives back the name |
| Paths.WithStem | src/telegram_download_chat/cli/commands.py:242-243 | with_stem fails exactly on an empty name, or on a new name `with_name` refuses (empty, `.`, or holding `/`); otherwise only the stem changes, in the same directory |
| Paths.SeparatorInStemRefused | src/telegram_download_chat/cli/commands.py:242-243 | a stem holding `/` makes with_stem raise, whatever the path |
| Paths.SplitsAtExtension | src/telegram_download_chat/cli/commands.py:486-487 | a non-empty stem followed by a dotted extension splits back into that stem and that extension |
| Checkpoint.TempFilePath | src/telegram_download_chat/partial.py:20-24 | the checkpoint path exists exactly when the output name is not empty, lies in the output's directory and ends in .part.jsonl |
| Checkpoint.TempFileIsNotOutput | src/telegram_download_chat/partial.py:20-24 | the checkpoint is never the output file itself |
| Checkpoint.TempFilesPerTopic | src/telegram_download_chat/partial.py:22-23 | different topics of one output file checkpoint to different files |
| Checkpoint.TempFileExample | src/telegram_download_chat/partial.py:24 | test_output.json checkpoints to test_output.part.jsonl |
| Checkpoint.UnsavedMembers | src/telegram_download_chat/partial.py:37-48 | a save appends exactly the messages whose id is above the watermark |
| Checkpoint.Raised | src/telegram_download_chat/partial.py:47-53 | the new watermark never falls, and rises exactly when something was appended |
| Checkpoint.RaisedBounds | src/telegram_download_chat/partial.py:47-53 | no saved message has an id above the raised watermark |
| Checkpoint.SaveIsIdempotent | src/telegram_download_chat/partial.py:41-53 | saving the same messages again right after a save appends nothing |
| Checkpoint.BackwardWalkWritesNothing | src/telegram_download_chat/partial.py:41-53 | messages all at or below the watermark append nothing and leave the watermark |
| Checkpoint.IdlessNeverWritten | src/telegram_download_chat/partial.py:41-43 | a message without an id counts as id 0 and is never written |
| Checkpoint.ReplayAfterSave | src/telegram_download_chat/partial.py:66-83 | loading after an append gives the old messages followed by the new ones, and the last record's id |
| Checkpoint.SaveLoadRoundTrip | src/telegram_download_chat/partial.py:26-83 | records written by a save and loaded back give the saved messages |
| Checkpoint.LoadedWatermarkIsLastRecord | src/telegram_download_chat/partial.py:78 | load restores the id of the last record, not the largest one |
| Checkpoint.SaveTouchesOnlyItsFile | src/telegram_download_chat/partial.py:36-53 | a save touches only its own checkpoint file and watermark |
| Checkpoint.SaveOnlyAppends | src/telegram_download_chat/partial.py:36-53 | a save never lowers a watermark and appends to the file instead of rewriting it |
| Checkpoint.AfterLoad | src/telegram_download_chat/partial.py:60-86 | load leaves the files unchanged, and a missing checkpoint gives no messages and id 0 |
| Checkpoint.PartialDownloadManager.SaveMessages | src/telegram_download_chat/partial.py:26-58 | save_messages fails only on an empty output name, and otherwise leaves the store as AfterSave describes |
| Checkpoint.PartialDownloadManager.LoadMessages | src/telegram_download_chat/partial.py:60-86 | load_messages returns the records in order and the last id, and sets the file's watermark to that id |
| Arguments.Defaults | src/telegram_download_chat/cli/arguments.py:12-34 | a command line with only the chat has limit 0, sort asc, no output, no subchat name, no since_id, no last_days and show_config off, and the declared default of `chats`, an empty list, before `__post_init__` fills it in |
| Arguments.NonBlankStripped | src/telegram_download_chat/cli/arguments.py:140 | the pieces are kept stripped, never blank, and no more of them than the input has |
| Arguments.NonBlankStrippedFrom | src/telegram_download_chat/cli/arguments.py:140 | every kept piece is some input part, stripped, and not blank |
| Arguments.NonBlankStrippedKeeps | src/telegram_download_chat/cli/arguments.py:140 | every non-blank part is kept, stripped |
| Arguments.NonBlankStrippedEmpty | src/telegram_download_chat/cli/arguments.py:140 | nothing is kept exactly when every part is blank |
| Arguments.PostProcessChats | src/telegram_download_chat/cli/arguments.py:138-145 | parsing raises exactly when a non-empty chat argument has no non-blank piece; otherwise chats holds the stripped, non-blank pieces without commas, chat is the first of them, and everything else is as parsed |
| Arguments.TwoChatsExample | src/telegram_download_chat/cli/arguments.py:138-145 | "chat1, chat2" gives the chats chat1 and chat2, with chat1 as the chat |
| Arguments.ListedChats | src/telegram_download_chat/cli/arguments.py:138-145 | a chat argument whose non-blank pieces are a list sets chats to that list and chat to its first element |
| Arguments.OnlyCommasFails | src/telegram_download_chat/cli/arguments.py:139-141 | a chat argument made only of commas raises |
| Commands.DedupMessages | src/telegram_download_chat/cli/commands.py:20-30 | the loop keeps the first message of each id, with ids compared as set members, and every message without an id, in order; it raises exactly when some id is unhashable |
| Commands.DedupNumericIds | src/telegram_download_chat/cli/commands.py:25-28 | `1`, `1.0` and `True` are one id, so only the first is kept, and a list id makes the deduplication raise |
| Commands.DedupListIdRaises | src/telegram_download_chat/cli/commands.py:25-26 | a batch holding a message whose id is a list cannot be deduplicated: the set lookup of that id raises |
| Commands.DedupIds | src/telegram_download_chat/cli/commands.py:20-30 | the result holds every id of the input, each exactly once as a set member |
| Commands.DedupOfUnique | src/telegram_download_chat/cli/commands.py:20-30 | a list whose ids are already distinct comes back unchanged |
| Commands.DedupIdempotent | src/telegram_download_chat/cli/commands.py:20-30 | deduplicating twice is the same as deduplicating once |
| Commands.DedupSubsequence | src/telegram_download_chat/cli/commands.py:20-30 | the result is the input with some messages deleted |
| Commands.DedupKeepsFirsts | src/telegram_download_chat/cli/commands.py:25-29 | every message that is the first of its id, or has no id, is kept |
| Commands.ParseDate | src/telegram_download_chat/cli/commands.py:33-42 | a falsy value gives no date; a text gives what fromisoformat makes of it with Z read as +00:00 |
| Commands.AddTo | src/telegram_download_chat/cli/commands.py:62 | setdefault(k, []).append(m) appends to k's group only and keeps the keys distinct |
| Commands.SplitGroups | src/telegram_download_chat/cli/commands.py:45-63 | each key's group holds exactly the messages with that key, in input order, and a key no message has gets no group |
| Commands.SplitKeysDistinct | src/telegram_download_chat/cli/commands.py:45-63 | no key appears twice in the result |
| Commands.WithKeyIsFilter | src/telegram_download_chat/cli/commands.py:49-62 | a group keeps input order and holds exactly the messages whose date gives its key, so an undated message lands in no group |
| Commands.SplitMessagesByDate | src/telegram_download_chat/cli/commands.py:45-63 | the loop builds exactly the date groups |
| Commands.FilteredSpec | src/telegram_download_chat/cli/commands.py:84-94 | the filter raises exactly when the check raises on some message, and otherwise keeps, in order, exactly the accepted messages |
| Commands.FilterLoop | src/telegram_download_chat/cli/commands.py:84-122 | the filter loop appends each accepted message and stops at the first exception |
| Commands.UrlFormatErrorUnreachable | src/telegram_download_chat/cli/commands.py:70-77 | a t.me/c link always has at least three segments, so only the invalid-message-id error can arise |
| Commands.UrlTarget | src/telegram_download_chat/cli/commands.py:70-74 | https://t.me/c/chat/n names message n |
| Commands.PlainTarget | src/telegram_download_chat/cli/commands.py:79-80 | a plain integer argument names that message |
| Commands.SameIdCases | src/telegram_download_chat/cli/commands.py:89-91 | the texts are compared, so an integer id and its decimal string both match |
| Commands.FilterMessagesBySubchat | src/telegram_download_chat/cli/commands.py:66-95 | filter_messages_by_subchat parses the target and then keeps the replies to it |
| Commands.SubchatExample | src/telegram_download_chat/cli/commands.py:66-95 | filtering the example by a number, or by a link ending in it, keeps messages 1 and 3 |
| Commands.NonNumericTarget | src/telegram_download_chat/cli/commands.py:79-82 | a non-numeric argument is rejected before any message is looked at |
| Commands.MessageTextChoice | src/telegram_download_chat/cli/commands.py:97-108 | a non-empty message string wins, then text, and without either the text is empty |
| Commands.JoinPlainParts | src/telegram_download_chat/cli/commands.py:104-107 | a text made of plain strings is their concatenation |
| Commands.LoweredKeywords | src/telegram_download_chat/cli/commands.py:115 | one lowered keyword per non-blank keyword |
| Commands.FilterMessagesByKeywords | src/telegram_download_chat/cli/commands.py:111-123 | filter_messages_by_keywords computes the keyword filter |
| Commands.KeywordFilterWithoutKeywords | src/telegram_download_chat/cli/commands.py:113-116 | with no non-blank keyword the messages come back unchanged |
| Commands.KeywordCheckMeans | src/telegram_download_chat/cli/commands.py:120-121 | the check accepts exactly the messages whose lowered text contains a keyword |
| Commands.KeywordFilterKeeps | src/telegram_download_chat/cli/commands.py:117-123 | a message is kept exactly when it mentions a keyword, and the kept messages keep input order |
| Commands.MatchLinkNamesMessage | src/telegram_download_chat/cli/commands.py:155-158 | the link of a keyword match leads the subchat parser back to the message |
| Commands.KeywordReportsShape | src/telegram_download_chat/cli/commands.py:126-165 | one report per non-blank keyword, stripped, whose count is its number of matches |
| Commands.KeywordCountIsFilterSize | src/telegram_download_chat/cli/commands.py:133-137 | a keyword's count is the number of messages the keyword filter keeps for it alone |
| Commands.CollectMatches | src/telegram_download_chat/cli/commands.py:136-159 | the inner loop collects the matches of one keyword and counts them |
| Commands.AnalyzeKeywords | src/telegram_download_chat/cli/commands.py:126-165 | the outer loop builds one report per non-blank keyword |
| ChatDownload.LastDaysStart | src/telegram_download_chat/cli/commands.py:286-292 | the window from the start day to the base day holds n days, and one day when n is not positive |
| ChatDownload.DefaultOutputFile | src/telegram_download_chat/cli/commands.py:239-245 | without --output the file is the sanitised chat name, plus _subchat_ and the id when given, with .json, in the output directory; a subchat id holding `/` makes `with_stem` raise |
| ChatDownload.GivenOutputFile | src/telegram_download_chat/cli/commands.py:232-238 | with --output the resolved path is kept when it has a suffix, and gets .json otherwise |
| ChatDownload.StoredIdsFrom | src/telegram_download_chat/cli/commands.py:259-261 | the stored ids are exactly the id values of the dicts that have one |
| ChatDownload.MaxOf | src/telegram_download_chat/cli/commands.py:263 | max(ids) is one of the ids and no id exceeds it |
| ChatDownload.ResumeOnlyWhenAllowed | src/telegram_download_chat/cli/commands.py:250-262 | an explicit since_id or --overwrite leaves the file alone, and only a list in the file gives existing messages |
| ChatDownload.ResumeFromNewest | src/telegram_download_chat/cli/commands.py:257-263 | a resumed download starts after the newest saved message: since_id is a saved id and no saved id exceeds it |
| ChatDownload.KwargsLimits | src/telegram_download_chat/cli/commands.py:278-281 | a positive --limit is both the page size and the total limit; otherwise pages hold 100 and there is no total limit |
| ChatDownload.KwargsCheckpointing | src/telegram_download_chat/cli/commands.py:276-284 | partial saves are on exactly when not overwriting, and the resume point and output file are passed through |
| ChatDownload.LastDaysWins | src/telegram_download_chat/cli/commands.py:285-299 | --last-days sets the lower bound n-1 days before the base day, whatever --until says; a base day that does not parse raises |
| ChatDownload.OverwriteStartsFresh | src/telegram_download_chat/cli/commands.py:250-274 | overwriting deletes the checkpoint, starts from nothing and turns partial saves off |
| ChatDownload.ResumedMerge | src/telegram_download_chat/cli/commands.py:304-305 | resuming keeps every saved message in place ahead of the new ones; ids are distinct and every id from either side appears; the merge raises exactly when some id is unhashable |
| ChatDownload.FreshDownloadUnchanged | src/telegram_download_chat/cli/commands.py:304-321 | without saved messages or filters, the messages are saved as downloaded |
| ChatDownload.FolderName | src/telegram_download_chat/cli/commands.py:522 | the folder name is everything after the first colon, and the split raises without one |
| ChatDownload.FindFolder | src/telegram_download_chat/cli/commands.py:524-532 | the search loop finds the first folder whose title matches, and nothing when none does |
| ChatDownload.FolderVisitsPeers | src/telegram_download_chat/cli/commands.py:518-547 | a folder download visits the pinned then the included peers of the first matching folder, each into the folder's directory |
| ChatDownload.FolderNotFound | src/telegram_download_chat/cli/commands.py:533-535 | with no matching folder nothing is downloaded |
| Cli.AttributeNames | src/telegram_download_chat/cli/arguments.py:12-34 | the options have exactly the declared attributes |
| Cli.Iterate | src/telegram_download_chat/cli/__init__.py:116 | iterating gives a list's items, a string's characters or a dict's keys, is empty exactly for a falsy value, and raises for anything else |
| Cli.FindInList | src/telegram_download_chat/cli/__init__.py:116-119 | the search finds the args of the first entry with the name, and raises exactly when an entry before it is not a dict |
| Cli.PresetArgs | src/telegram_download_chat/cli/__init__.py:110-122 | a dict is looked up by key and a list is searched by name; a missing or empty preset returns 1 |
| Cli.ApplyPreset | src/telegram_download_chat/cli/__init__.py:123-125 | the setattr loop computes the applied options |
| Cli.AppliedContract | src/telegram_download_chat/cli/__init__.py:123-125 | the options keep their attribute names; an attribute the preset names takes the preset's value, and every other keeps its own |
| Cli.ConfigPath | src/telegram_download_chat/cli/__init__.py:56 | the path is the given config when truthy, and the default path otherwise |
| Cli.ShowConfig | src/telegram_download_chat/cli/__init__.py:54-69 | show_config returns 0 and logs the path, then either the does-not-exist notice, or the current-configuration header followed by the text or by the read error |
| Cli.Days | src/telegram_download_chat/cli/__init__.py:144 | timedelta moves a midnight date back by n whole days for an integer, and by the ceiling for a float |
| Cli.LastDaysSetsUntil | src/telegram_download_chat/cli/__init__.py:137-146 | --last-days N with a parsable base puts the day N days before it in until and changes nothing else |
| Cli.LastDaysOf | src/telegram_download_chat/cli/__init__.py:144-146 | once the base day is read, until is n days before it |
| Cli.ChatsOf | src/telegram_download_chat/cli/__init__.py:148 | the chat list is non-empty exactly when chats or chat is truthy |
| Cli.TurnsContract | src/telegram_download_chat/cli/__init__.py:164-189 | the loop gets through exactly when every chat runs; each result is that chat's command's, and otherwise the first chat that does not run ends the loop with 1 or an exception |
| Cli.TurnsRun | src/telegram_download_chat/cli/__init__.py:164-189 | the loop gets through exactly when every chat runs, with each chat's result in its place |
| Cli.TurnsStop | src/telegram_download_chat/cli/__init__.py:164-189 | a loop that does not get through stops at the first chat that does not run, and ends as that chat does |
| Cli.RunChats | src/telegram_download_chat/cli/__init__.py:164-189 | the loop over the chats computes the per-chat turns |
| Cli.ExitCode | src/telegram_download_chat/cli/__init__.py:196-200 | the exit code is 0 or 1 |
| Cli.ExitCodeOfResults | src/telegram_download_chat/cli/__init__.py:191-200 | the exit code is 0 exactly when every result, or every item of a list result, is a dict without an error key |
| Cli.FlattenAppend | src/telegram_download_chat/cli/__init__.py:191 | flattening a concatenation concatenates the flattenings |
| Cli.AsyncMain | src/telegram_download_chat/cli/__init__.py:105-206 | async_main returns 1 for a missing preset, an invalid --from date, no chat, or --subchat without output on a non-JSON chat, logging each; otherwise it runs every chat and returns the exit code of the flattened results |
| Cli.SucceedsExactly | src/telegram_download_chat/cli/__init__.py:164-200 | a run that gets past the options returns 0 exactly when every chat ran and every result is a dict without an error key |
| Cli.Main | src/telegram_download_chat/cli/__init__.py:209-235 | main runs the GUI when asked for and async_main otherwise, turning an escaping exception into 1 |
| Cli.MainExit | src/telegram_download_chat/cli/__init__.py:209-235 | main exits with 0 or 1 |
| Legacy.GetConfigValue | telegram-download-chat.py:53-70 | the walk gives the nested value when every step is a dict holding the key, the default otherwise, and the configuration itself with no keys |
| Legacy.LevelNamed | telegram-download-chat.py:584 | DEBUG is level 10 and INFO is level 20 |
| Legacy.AsWrittenIgnoresLevel | telegram-download-chat.py:583-584 | as written, the lookup goes one key too deep, so the level is always INFO |
| Legacy.ConfiguredLevel | telegram-download-chat.py:583-584 | with the default passed by name, the configured level name gives the level, and a missing one gives INFO |
| Legacy.DebugLevelExample | telegram-download-chat.py:583-584 | log_level debug gives INFO as written and DEBUG as intended |
| Legacy.TempPath | telegram-download-chat.py:357-359 | the temp path appends .part after the whole name, and fails only on an empty name |
| Legacy.Accepted | telegram-download-chat.py:383-389 | the loaded records are those the rebuild accepts, in order |
| Legacy.LoadSnapshot | telegram-download-chat.py:373-396 | a missing or unreadable file gives no messages and 0; otherwise the last accepted message's id |
| Legacy.SnapshotRoundTrip | telegram-download-chat.py:361-396 | loading what was saved gives at most as many messages, each rebuilt from a saved one, and the saved list itself when the rebuild is faithful |
| Legacy.NewMessagesSpec | telegram-download-chat.py:465 | a message is new exactly when it is on the page and its id is not gathered yet |
| Legacy.MinIdSpec | telegram-download-chat.py:472 | the cursor is one of the new ids and no new id is smaller |
| Legacy.FloodWaitRetries | telegram-download-chat.py:444-455 | a flood wait retries the same request, gathers nothing, sleeps one second longer than asked and saves first when something is gathered |
| Legacy.PageAdvances | telegram-download-chat.py:457-484 | a page adds its new messages in page order, stops exactly when none is new, moves the cursor to the smallest new id, and saves when due |
| Legacy.LoopEnds | telegram-download-chat.py:431-484 | the loop reads replies until the first that stops it, and an empty page always stops it |
| Legacy.LoopGathers | telegram-download-chat.py:465-466 | the loop only appends, and only messages whose id was not gathered before |
| Legacy.LoopSleeps | telegram-download-chat.py:444-455 | the loop sleeps once per flood wait, one second longer than asked |
| Legacy.LoopSaves | telegram-download-chat.py:450-482 | the loop writes no file except the snapshot, and that only once something is gathered |
| Legacy.FetchLeavesSnapshot | telegram-download-chat.py:398-490 | without partial saves no file is touched; with them only the snapshot, which then holds exactly the list returned |
| Legacy.FetchReads | telegram-download-chat.py:431-490 | fetch_history gathers the replies up to where it stops and sleeps for each flood wait among them |
| Legacy.FetchHistory | telegram-download-chat.py:398-490 | the fetch_history method computes the fetch: the messages, the files and the sleeps |
| Legacy.SenderId | telegram-download-chat.py:284-287 | the sender id is int(sender), or the sender itself when int() raises |
| Legacy.SenderName | telegram-download-chat.py:288 | a falsy id shows nothing; otherwise the mapped name, or the id itself |
| Legacy.DateText | telegram-download-chat.py:265-274 | a falsy date shows nothing; a string is cut at the first + and reformatted, keeping the raw value when that fails |
| Legacy.WriteEntries | telegram-download-chat.py:262-300 | the writing loop gives each message's entry in order, skipping those that raise, and counts those written |
| Legacy.SaveMessagesAsTxt | telegram-download-chat.py:262-301 | the writing pass gives the file's text and the count of messages written |
| Legacy.TxtCount | telegram-download-chat.py:262-300 | at most every message is counted, and every one exactly when none raises |
| Legacy.TxtAppend | telegram-download-chat.py:262-300 | writing two lists in a row writes their concatenation |
| Legacy.NonDictSkipped | telegram-download-chat.py:262-300 | a message that is not a dict is skipped |
| Legacy.BareEntry | telegram-download-chat.py:294-297 | a message with no date and no sender is just its text and a blank line |
| Legacy.EntryEndsWithText | telegram-download-chat.py:290-297 | every entry ends with the message's text and a blank line |
| Legacy.NonDictSenderUsesPeer | telegram-download-chat.py:277-281 | a sender that is not a dict is replaced by peer_id.user_id |
| Legacy.KnownUserNamed | telegram-download-chat.py:288-295 | a user id known to users_map shows its mapped name in the header |
| Legacy.LegacyEntityName | telegram-download-chat.py:492-537 | the old get_entity_name always gives a safe, non-empty name |
| Legacy.LegacyAgreesWhenFound | telegram-download-chat.py:492-537 | the old name agrees with the package's get_entity_name whenever the entity is found, and otherwise falls back to the identifier's name |
| Legacy.OutputPath | telegram-download-chat.py:552-565 | chat_history.json with a chat given is renamed after the entity, in the same directory |
| Legacy.JsonInputSuffix | telegram-download-chat.py:663-665 | the file read always has the suffix .json, and an output that already has it is read as it is |
| Legacy.SubchatOutput | telegram-download-chat.py:680 | the subchat output is the input's stem with _subchat_ and the id, and .json |
| Legacy.FilterSubchat | telegram-download-chat.py:670-677 | the subchat loop, comparing ids as text, keeps the replies to the subchat in order |
| Legacy.SubchatKeeps | telegram-download-chat.py:670-677 | both comparisons raise on the same messages, and keep exactly the messages that reply to the subchat, in order |
| Legacy.AsWrittenKeepsNone | telegram-download-chat.py:675-676 | as written, no message with integer reply ids is ever kept |
| Legacy.SubchatExample | telegram-download-chat.py:675-676 | a reply to message 1 filtered with --subchat 1 is dropped as written and kept with text comparison |
| Messages.DateKey | src/telegram_download_chat/core/messages.py:89-96 | a message with a falsy date gets the minimum key; a date text gets the parsed datetime with Z read as +00:00, and the minimum when parsing fails |
| Messages.PrecedesIsWeakOrder | src/telegram_download_chat/core/messages.py:112-113 | the sort key order is irreflexive, asymmetric and transitive, and incomparability is transitive |
| Messages.SortPermutes | src/telegram_download_chat/core/messages.py:112-113 | sorting keeps every message as often as it occurs |
| Messages.SortSorted | src/telegram_download_chat/core/messages.py:112-113 | the sort puts no message after one that must follow it, in either direction |
| Messages.StrictlySortedUnique | src/telegram_download_chat/core/messages.py:112-113 | two strictly ordered arrangements of the same messages are equal |
| Messages.DescIsReversedAsc | src/telegram_download_chat/core/messages.py:112-113 | with pairwise distinct keys, the descending order is the ascending order reversed |
| Messages.ReplyTarget | src/telegram_download_chat/core/messages.py:105-106 | the reply id is read from reply_to, then from reply_to_msg_id; reading fails exactly when the message is not a dict or a truthy reply_to is not one |
| Messages.RootsAreNonReplies | src/telegram_download_chat/core/messages.py:104-110 | a message is a root exactly when it replies to nothing in the batch |
| Messages.RepliesAreReplies | src/telegram_download_chat/core/messages.py:104-110 | a message is listed under an id exactly when it replies to that id within the batch |
| Messages.ChildrenLookup | src/telegram_download_chat/core/messages.py:108-117 | children.get(id, []) lists exactly the replies to that id |
| Messages.GroupReplies | src/telegram_download_chat/core/messages.py:98-110 | the grouping loop fails exactly on an unreadable reply target, and otherwise builds exactly the roots and the children map |
| Messages.TraverseRoots | src/telegram_download_chat/core/messages.py:124-126 | the loop over the sorted roots appends each root's traversal |
| Messages.PrepareMessagesForTxt | src/telegram_download_chat/core/messages.py:86-128 | prepare_messages_for_txt computes the reply-tree order as the code writes it, failing where its sort raises |
| Messages.ParentPlacement | src/telegram_download_chat/core/messages.py:120-122 | a message comes before its replies ascending and after them descending |
| Messages.LeafTraverse | src/telegram_download_chat/core/messages.py:115-122 | a message without replies traverses to itself alone |
| Messages.PrepareFromBatch | src/telegram_download_chat/core/messages.py:86-128 | the text export lists only messages of the batch |
| Messages.FlatBatchIsSorted | src/telegram_download_chat/core/messages.py:124-128 | a batch without replies comes out as the stable date sort of the whole batch |
| Messages.ReplyThreadOrder | src/telegram_download_chat/core/messages.py:115-128 | a parent and two later replies come out as [3, 2, 1] descending and [1, 2, 3] ascending |
| Messages.Serializable | src/telegram_download_chat/core/messages.py:185-196 | dicts and lists are rebuilt item by item, tuples become lists, scalars stay, and other objects become their str() text or None |
| Messages.SerializableIsJson | src/telegram_download_chat/core/messages.py:185-196 | what make_serializable returns is JSON-ready |
| Messages.SerializableKeepsJson | src/telegram_download_chat/core/messages.py:185-196 | a JSON-ready value comes back unchanged |
| Messages.SerializableIdempotent | src/telegram_download_chat/core/messages.py:185-196 | making a value serializable twice is the same as doing it once |
| Messages.ArchivePart | src/telegram_download_chat/core/messages.py:43-47 | a string part is kept, a dict part gives its text (default empty), and anything else gives nothing |
| Messages.ArchiveJoinOfStrings | src/telegram_download_chat/core/messages.py:41-48 | parts that are all strings join into their concatenation, in order |
| Messages.UserId | src/telegram_download_chat/core/messages.py:52-59 | a sender written user followed by digits becomes that number; any other sender stays as it is |
| Messages.NormalFilter | src/telegram_download_chat/core/messages.py:15-21 | a filter that starts with user loses every occurrence of user, and any other filter stays as it is |
| Messages.ChatPeer | src/telegram_download_chat/core/messages.py:66-73 | peer_id is PeerChat for a group and PeerChannel otherwise, with the id under channel_id for channels and public supergroups and under user_id otherwise |
| Messages.Record | src/telegram_download_chat/core/messages.py:64-80 | the converted message carries reply_to_msg_id exactly when the archive message has reply_to_message_id |
| Messages.ConvertChat | src/telegram_download_chat/core/messages.py:36-82 | the inner loop converts the messages of one chat as the chat conversion function does |
| Messages.ConvertArchiveToMessages | src/telegram_download_chat/core/messages.py:23-84 | the outer loop converts the chats followed by the left chats, chat after chat |
| Messages.SenderFilter | src/telegram_download_chat/core/messages.py:15-62 | the filters user followed by n and plain n both keep the sender user followed by k exactly when k is n |
| Messages.UserAloneFiltersNothing | src/telegram_download_chat/core/messages.py:15-61 | the filter user becomes empty, so it keeps every message |
| Messages.ConvertArchiveAdmitted | src/telegram_download_chat/core/messages.py:31-82 | every converted message has a text and a sender that the user filter admits |
| Messages.ArchiveReplyFeedsTree | src/telegram_download_chat/core/messages.py:79-106 | a converted archive reply is filed under its target by the text export's grouping |
| Messages.DateColumn | src/telegram_download_chat/core/messages.py:140-148 | the date column is empty for a falsy or unparseable date, and fails only for a truthy date that is not a string |
| Messages.TextColumn | src/telegram_download_chat/core/messages.py:155-157 | the text column is a truthy text, or message when the text is falsy and that key exists |
| Messages.RecipientToName | src/telegram_download_chat/core/messages.py:159-162 | the recipient is looked up exactly when its id is truthy, whatever its type |
| Messages.TxtEntry | src/telegram_download_chat/core/messages.py:138-178 | a message is skipped exactly when it is not a dict, its date fails, or the recipient lookup raises (an unhashable id, a group without a title); otherwise its line holds the sender's name and the recipient's name as the lookup finds it by the id's key, after the sender's name is cached |
| Messages.RecipientOfAnyType | src/telegram_download_chat/core/messages.py:159-162 | a recipient id `"42"` unknown to the cache and the network is shown as 42, `42.0` finds the name cached for 42, and a list id skips the message |
| Messages.SenderEntry | src/telegram_download_chat/core/messages.py:150-153 | the sender column is the name the cache or the network gives for a truthy sender id, and the users map afterwards holds that name under the id's key |
| Messages.RecipientEntry | src/telegram_download_chat/core/messages.py:159-162 | the recipient column is the lookup of the recipient id as `RecipientName` specifies it, from the cache as the sender left it |
| Messages.WriteEntries | src/telegram_download_chat/core/messages.py:138-178 | the loop writes one entry per message that is not skipped, in order, and counts them |
| Messages.SaveMessagesAsTxt | src/telegram_download_chat/core/messages.py:130-183 | save_messages_as_txt fails exactly when the ordering fails, and otherwise appends the entries and returns their number |
| Messages.SaveMessages | src/telegram_download_chat/core/messages.py:198-233 | save_messages serialises every message, exports the TXT when asked, leaves the checkpoint in place when that export raises, and otherwise deletes it unless a stop was requested |
| ReplyForest.ParentUnique | src/telegram_download_chat/core/messages.py:98-108 | with distinct ids, a reply has exactly one parent in the batch |
| ReplyForest.RootAbove | src/telegram_download_chat/core/messages.py:104-110 | without reply cycles, every message lies below exactly one root |
| ReplyForest.KidsCount | src/telegram_download_chat/core/messages.py:115-122 | exactly one reply of a message lies above each of its strict descendants |
| ReplyForest.TraverseCounts | src/telegram_download_chat/core/messages.py:115-122 | the traversal of a message lists each message below it, itself included, exactly once and nothing else |
| ReplyForest.TraverseAllCounts | src/telegram_download_chat/core/messages.py:115-126 | the traversals of a group list each message as often as messages of the group lie above it |
| ReplyForest.PreparePermutes | src/telegram_download_chat/core/messages.py:98-128 | with distinct ids and no reply cycle, the reply-tree order, whenever it is produced (as written or corrected), is a permutation of the batch |
| ReplyForest.NoClashWithin | src/telegram_download_chat/core/messages.py:89-96 | with the corrected key, no group of Telegram-dated or undated messages makes `sorted` raise |
| ReplyForest.AncOfReply | src/telegram_download_chat/core/messages.py:98-110 | the chain above a reply is its parent's chain plus the reply, which was not on it |
| ReplyForest.VisitSucceeds | src/telegram_download_chat/core/messages.py:115-122 | with the corrected key, `traverse` of a message returns as long as its fuel and its chain together exceed the batch |
| ReplyForest.WalkSucceeds | src/telegram_download_chat/core/messages.py:115-126 | the traversals of a group all return when each message's fuel and chain exceed the batch |
| ReplyForest.PrepareSucceeds | src/telegram_download_chat/core/messages.py:89-128 | with the corrected key, a readable batch with distinct ids, no reply cycle and Telegram or missing dates always gets its reply-tree order, and that order is a permutation of the batch |
| TxtLayout.TxtLine | src/telegram_download_chat/core/messages.py:164-172 | an entry ends with its text and a blank line, and is the bare text when there is neither date nor sender |
| TxtLayout.HeaderUnbroken | src/telegram_download_chat/core/messages.py:164-170 | a header built from parts without line breaks has none |
| TxtLayout.TxtLineReadBack | src/telegram_download_chat/core/messages.py:164-172 | the first line break of an entry separates the header and colon from the text |
| Messages.PrepareAsWritten | src/telegram_download_chat/core/messages.py:86-128 | as written, the export order is produced only when every reply target can be read |
| Messages.AsWrittenUndatedRootFails | src/telegram_download_chat/core/messages.py:89-125 | as written, an undated root beside a root with a Telegram date makes the sort of the roots raise, because `datetime.min` is naive |
| Messages.CorrectedNeverClashes | src/telegram_download_chat/core/messages.py:89-113 | with the date-less key below every aware datetime, no batch of Telegram dates and missing dates makes the sort raise |
| Messages.CorrectedUndatedRootSorted | src/telegram_download_chat/core/messages.py:112-126 | corrected, a batch without replies comes out in the stable date order, undated first ascending and last descending |
| Messages.UndatedNextToDated | src/telegram_download_chat/core/messages.py:89-125 | one dated and one undated message: the export raises as written, and the corrected one puts the undated message first ascending |
| ChatDownload.AsWrittenNeverDownloads | src/telegram_download_chat/cli/commands.py:250 | as written, every chat whose name resolves ends in the AttributeError of the undeclared overwrite flag |
| ChatDownload.CorrectedDownloads | src/telegram_download_chat/cli/commands.py:247-290 | with the flags declared and left false, a resolved chat whose dates parse reaches the download with partial saves and resumes from the output file, exactly when the subchat id holds no `/` |
| Legacy.NestedAppend | telegram-download-chat.py:53-70 | one more key asks a dict found on the path for it, and anything else ends the lookup |
| Legacy.Waits | telegram-download-chat.py:444-455 | there is at most one sleep per reply |
| Legacy.Resume | telegram-download-chat.py:414-421 | with no saved messages, or partial saves off, the download starts at offset 0 |
| Legacy.StepGathers | telegram-download-chat.py:457-467 | one turn of the loop only appends, and only messages whose id is new |
| Legacy.FallbackSafe | telegram-download-chat.py:520-537 | the name derived from the identifier is always present and safe |
| Legacy.JsonInput | telegram-download-chat.py:662-665 | the JSON file read is the output with the .json suffix, in the same directory, and exists exactly for a non-empty name |
| Entities.SenderIdOfPeer | src/telegram_download_chat/core/entities.py:96-108 | a sender peer dict gives its user or channel id, whichever is set first, and a zero user_id gives nothing |
| Entities.SenderIdFallsBack | src/telegram_download_chat/core/entities.py:96-108 | without from_id the sender is sender_id, and without that the peer_id, with digit text converted by int() |
| Entities.RecipientIdCases | src/telegram_download_chat/core/entities.py:110-124 | in a private chat the recipient is this account when someone else wrote and the peer user otherwise; a channel peer gives the channel |
| Entities.FirstFound | src/telegram_download_chat/core/entities.py:145-160 | resolution returns the first lookup that finds an entity, and nothing when every lookup fails |
| Entities.NumericTriedInOrder | src/telegram_download_chat/core/entities.py:132-150 | a numeric text identifier, signed or not, is tried as a channel, then a basic group, then a user |
| Entities.IntegerTriedInOrder | src/telegram_download_chat/core/entities.py:132-150 | an integer identifier is tried in the same order |
| Entities.UnconvertibleReconnectsOnly | src/telegram_download_chat/core/entities.py:132-197 | an identifier that passes the digit test but that int() rejects is looked up only on a fresh connection |
| Entities.DoubleMinusLooksNumeric | src/telegram_download_chat/core/entities.py:134-137 | --5 passes the digit test |
| Entities.DoubleMinusIsNoInt | src/telegram_download_chat/core/entities.py:137 | int() rejects --5 |
| Entities.NamesLookedUpDirectly | src/telegram_download_chat/core/entities.py:188-206 | a username is looked up as given, then again on a fresh connection |
| Entities.Sanitize | src/telegram_download_chat/core/entities.py:234-246 | every character outside word characters, -, _ and . becomes _ |
| Entities.OrDefault | src/telegram_download_chat/core/entities.py:235-247 | an empty sanitised name becomes chat_history |
| Entities.EntityNameIsSafe | src/telegram_download_chat/core/entities.py:208-247 | every name get_entity_name gives is a safe, non-empty file name |
| Entities.TestChatTitle | src/telegram_download_chat/core/entities.py:218-235 | an entity titled Test Chat is named Test_Chat |
| Entities.UsernameRankedDifferently | src/telegram_download_chat/core/entities.py:218-271 | for a user with a username and a first name, the file name uses the username and the full name uses the first name |
| Entities.FallbackOfUsername | src/telegram_download_chat/core/entities.py:239-241 | the fallback name drops the leading @ of a username |
| Entities.FallbackOfInviteLink | src/telegram_download_chat/core/entities.py:242-247 | the fallback for an invite link is invite_ followed by the code after +, without query or trailing slash |
| Entities.FullName | src/telegram_download_chat/core/entities.py:249-275 | get_entity_full_name gives Unknown for an empty identifier, the identifier text when nothing is found, and otherwise the title, the joined names or the username |
| Entities.FetchUserName | src/telegram_download_chat/core/entities.py:19-37 | fetch_user_name gives the joined, stripped first and last names, else the username, else the id as `str()` shows it; it is never empty for a non-empty id text |
| Entities.ChatTitle | src/telegram_download_chat/core/entities.py:82 | a chat's name is its title or its id as text, and is never empty for a non-empty id text |
| Entities.NextHundred | src/telegram_download_chat/core/entities.py:55-86 | the count reaches a new multiple of 100 exactly when the incremented count is one |
| Entities.NameCache.UserDisplayName | src/telegram_download_chat/core/entities.py:45-61 | a falsy id gives Unknown and an unhashable one raises; a name cached under the id's key is returned without fetching; otherwise the fetched name is cached, counted and saved at every hundredth |
| Entities.NameCache.PeerDisplayName | src/telegram_download_chat/core/entities.py:63-94 | for an id of any type: a falsy id gives Unknown and an unhashable one raises; user or chat names cached under its key are returned unchanged; a group or channel title is cached as a chat name; anything else goes through the user lookup |
| Entities.NameCache.CacheUserName | src/telegram_download_chat/core/entities.py:51-59 | a fetched user name is cached and counted, with a save at every hundredth, and every earlier save stays part of the maps |
| Entities.NameCache.CacheChatName | src/telegram_download_chat/core/entities.py:83-92 | a fetched chat name is cached and counted, with a save at every hundredth |
| Entities.NameCache.FlushAfterExport | src/telegram_download_chat/core/messages.py:180-181 | the configuration is saved after a text export exactly when some name was fetched |
| Entities.RepeatedUserLookup | src/telegram_download_chat/core/entities.py:45-61 | asking twice for the same user fetches at most once, and both answers agree |
| Config.MergeConfigs | src/telegram_download_chat/core/config.py:73-87 | the merge loop computes the recursive merge, and an empty custom dict gives the default unchanged |
| Config.MergedKeys | src/telegram_download_chat/core/config.py:79-86 | the merge has exactly the keys of either side |
| Config.MergedKeepsDefault | src/telegram_download_chat/core/config.py:78-86 | a key that custom does not mention keeps its default value |
| Config.MergedTakesCustom | src/telegram_download_chat/core/config.py:79-86 | a key of custom gets custom's value, or the recursive merge when both values are dicts |
| Config.MergedUnique | src/telegram_download_chat/core/config.py:78-86 | the merge holds each key once when the default does |
| Config.MergeContract | src/telegram_download_chat/core/config.py:73-87 | each key is present when it is present on either side, takes custom's value or the merge of two dicts where custom has it and the default's value elsewhere, and occurs once |
| Config.Migrate | src/telegram_download_chat/core/config.py:54-62 | top-level api_id and api_hash move into settings and leave the top level; everything else stays; a document without them is unchanged |
| Config.MovedInto | src/telegram_download_chat/core/config.py:56-62 | settings after the move holds the top-level credentials over what it held, and nothing else changes |
| Config.MovedUnique | src/telegram_download_chat/core/config.py:56-62 | the migrated settings still holds each key once |
| Config.SettingSurvivesMerge | src/telegram_download_chat/core/config.py:54-67 | a key stored in the file's settings survives the merge with the defaults |
| Config.LoadConfig | src/telegram_download_chat/core/config.py:17-71 | a missing file gives the defaults and writes them; an unparsable or empty file gives the defaults; a parsed file is migrated and merged over the defaults, and is rewritten only after a migration |
| Media.Lookup | src/telegram_download_chat/core/media.py:65 | a key finds the first row that lists it, and nothing when no row does |
| Media.ExtensionFromMime | src/telegram_download_chat/core/media.py:37-65 | no MIME type, an empty one, or an unlisted one gives .bin |
| Media.MimeTypesDistinct | src/telegram_download_chat/core/media.py:42-64 | the table's 20 MIME types are distinct |
| Media.ExtensionsDistinct | src/telegram_download_chat/core/media.py:42-64 | the table's 20 extensions are distinct and none is .bin |
| Media.TableRoundTrip | src/telegram_download_chat/core/media.py:42-65 | reading a table with distinct keys and values backwards undoes reading it forwards |
| Media.ExtensionRoundTrip | src/telegram_download_chat/core/media.py:37-65 | a listed MIME type is recovered from its extension, and .bin recovers nothing |
| Media.ListedExtension | src/telegram_download_chat/core/media.py:42-65 | every listed type gets its own extension |
| Media.ExtensionDotted | src/telegram_download_chat/core/media.py:37-65 | every extension given is a dot followed by a word without a dot |
| Media.OriginalFilename | src/telegram_download_chat/core/media.py:12-17 | the original name is the file_name of the first file-name attribute, and is absent when there is none |
| Media.GetFilename | src/telegram_download_chat/core/media.py:19-35 | a photo is named id.jpg; a document keeps a non-empty original name when asked, and is otherwise named id plus its extension; any other medium has no name |
| Media.IdNameReadBack | src/telegram_download_chat/core/media.py:24-33 | a generated name reads back: its suffix is the extension and its stem is the id |
| Media.PhotoNameReadBack | src/telegram_download_chat/core/media.py:21-24 | a photo name ends in .jpg and its stem is the photo id |
| Media.DocumentNameReadBack | src/telegram_download_chat/core/media.py:28-33 | a document without a usable original name has its MIME extension as suffix and its id as stem |
| Media.MessageIdText | src/telegram_download_chat/core/media.py:88-93 | the directory name is the id's digits, or None for id 0, and is never empty |
| Media.Target | src/telegram_download_chat/core/media.py:78-97 | the attachment goes to attachments_dir/message id/file name, and there is none without a medium or a file name |
| Media.MediaStep | src/telegram_download_chat/core/media.py:78-117 | a message with no target, or whose target exists, changes nothing; otherwise a download is requested, and the file appears when it succeeds |
| Media.NeverOverwrites | src/telegram_download_chat/core/media.py:96-137 | downloads only add: files stay, earlier requests stay, and no request targets a file that existed before |
| Media.RequestsAreTargets | src/telegram_download_chat/core/media.py:119-137 | every request of the run is the target of one of its messages |
| Media.FetchedOnce | src/telegram_download_chat/core/media.py:119-137 | when every download succeeds, every requested file exists and no file is requested twice |
| Media.MediaDownloader.DownloadMessageMedia | src/telegram_download_chat/core/media.py:67-117 | download_message_media performs exactly one media step and leaves the stop flag |
| Media.MediaDownloader.DownloadAllMedia | src/telegram_download_chat/core/media.py:119-139 | download_all_media processes the messages up to the first stop request, and marks the stop when it ends early |
| Presets.LoadPresets | src/telegram_download_chat/core/presets.py:8-15 | a dict gives one name/args entry per key, a list is returned as it is, and anything else or nothing gives no presets |
| Presets.StopsAt | src/telegram_download_chat/core/presets.py:29-32 | the loop stops at the first preset that is not a dict or carries the name |
| Presets.AddPreset | src/telegram_download_chat/core/presets.py:26-35 | the first preset with the name gets the new args, or a new entry is appended when none has it; a non-dict before the match raises |
| Presets.RemovePreset | src/telegram_download_chat/core/presets.py:38-41 | remove_preset raises exactly when some preset is not a dict |
| Presets.RemoveKeepsOthers | src/telegram_download_chat/core/presets.py:40 | afterwards no preset has the name, and every preset without it is still there |
| Presets.RemoveSplits | src/telegram_download_chat/core/presets.py:40 | removing from a concatenation removes from each part, keeping order |
| Changelog.DropFinalNewline | generate_changelog.py:30 | the pattern's `$` lets at most one final newline go unmatched |
| Changelog.SemverOfShape | generate_changelog.py:74-79 | a `v<digits>.<digits>.<digits>` tag parses to its three numbers |
| Changelog.ShapeOfSemver | generate_changelog.py:74-79 | every tag the parser accepts has that shape |
| Changelog.SemverMatches | generate_changelog.py:74-79 | parse_semver_tag answers exactly for the tags matching the pattern |
| Changelog.TagRoundTrip | generate_changelog.py:74-79 | parsing a version's canonical tag gives the version back |
| Changelog.DiscoverReleaseTags | generate_changelog.py:82-93 | the loop keeps the parsable patch-0 tags, in creation order |
| Changelog.MinorReleasesAppend | generate_changelog.py:85-92 | the tags are filtered one by one, keeping their order |
| Changelog.MinorReleasesMembers | generate_changelog.py:86-92 | only parsable patch-0 tags are kept, and every one of them is |
| Changelog.SubjectRoundTrip | generate_changelog.py:118-121 | a `type(scope)!: description` subject matches and gives its parts back |
| Changelog.LineHead | generate_changelog.py:32 | a line of the body stops before the first newline |
| Changelog.LineMatches | generate_changelog.py:32 | the multiline pattern is tried at each line start and nowhere else |
| Changelog.BreakingFooter | generate_changelog.py:127-131 | a `BREAKING CHANGE:` footer line, with no earlier one, gives its stripped details |
| Changelog.DescriptionFormat | generate_changelog.py:122-135 | the description is `scope: description` or the description alone, exactly that when nothing is breaking, and otherwise followed by the breaking note and the details when there are any |
| Changelog.RecordSkips | generate_changelog.py:111-121 | blank records, records of fewer than three fields and non-matching subjects give nothing; any other gives a feat or fix entry |
| Changelog.Entries | generate_changelog.py:111-138 | each record gives its own entry, in log order |
| Changelog.CollectCommits | generate_changelog.py:96-140 | the loop over the records collects the entries of the log |
| Changelog.GatherByKind | generate_changelog.py:136-138 | the feat group holds only feat entries and the fix group only fix entries |
| Changelog.GroupsByKind | generate_changelog.py:111-138 | the same holds for the commits collected from the records |
| Changelog.CommitsOfAppend | generate_changelog.py:111-138 | records are taken one at a time, so each group keeps the log's order |
| Changelog.CollectedSingle | generate_changelog.py:111 | a text without record separators is a log of one record |
| Changelog.TwoFieldsSkipped | generate_changelog.py:114-116 | a record of two fields gives no entry |
| Changelog.AsWrittenDropsNewest | generate_changelog.py:49-116 | as written, stripping the log drops the last record's empty body field, so the newest commit of the range is lost |
| Changelog.RangeKeepsNewest | generate_changelog.py:102-138 | as intended, the newest commit is collected when its subject matches |
| Changelog.NewestCommitLost | generate_changelog.py:49-116 | the same log gives nothing as written and the newest commit as intended |
| Changelog.Bullets | generate_changelog.py:183-184 | one bullet line per entry |
| Changelog.BulletLines | generate_changelog.py:183-184 | the i-th bullet is a dash and the i-th entry's description |
| Changelog.BlocksEndBlank | generate_changelog.py:177-185 | after the sections loop the last line emitted, if any, is blank |
| Changelog.AppendBlock | generate_changelog.py:177-185 | one pass of the sections loop appends that section's heading, bullets and a blank line, or nothing for an empty group |
| Changelog.SectionsDone | generate_changelog.py:186-190 | after the loop, dropping the final blank or adding the fallback sentence reaches the section's lines |
| Changelog.RenderSections | generate_changelog.py:171-212 | the shared rendering loop computes the title line, then the non-empty sections without the final blank, or the fallback sentence |
| Changelog.SectionLinesOf | generate_changelog.py:186-191 | the title, then the sections' lines without the last, or the fallback sentence |
| Changelog.ReleaseLayout | generate_changelog.py:171-212 | a release shows the fallback sentence with no entries, and otherwise Features before Bug Fixes, each present exactly when its group is non-empty |
| Changelog.RenderRelease | generate_changelog.py:194-212 | a release is rendered under `## <tag> - <date>` |
| Changelog.RenderUnreleased | generate_changelog.py:171-191 | unreleased commits are rendered under `## Unreleased` |
| Changelog.SortByVersionPermutes | generate_changelog.py:159 | sorting the releases keeps the same releases |
| Changelog.SortByVersionDescending | generate_changelog.py:159 | the sorted releases have the highest version first |
| Changelog.ReleasesUpTo | generate_changelog.py:148-157 | the releases loop builds one release per discovered tag, in tag order, each with its range since the previous tag |
| Changelog.GatherReleases | generate_changelog.py:143-160 | gather_releases computes the releases of the discovered tags, each range's commits collected from the text `run_git_command` returns for it |
| Changelog.ReleaseCommitsAsWritten | generate_changelog.py:49-116 | with the stripped `git log` text, a release whose range holds one conventional commit with an empty body lists no commits |
| Changelog.ReleasesOrdered | generate_changelog.py:143-160 | those releases are exactly the discovered ones, highest version first |
| Changelog.Finish | generate_changelog.py:235-244 | the text ends in exactly one line break, after a visible character |
| Changelog.RenderChangelog | generate_changelog.py:237-244 | the header, the unreleased section and the releases separated by blank lines, finished |
| Changelog.BuildChangelog | generate_changelog.py:215-244 | build_changelog computes the changelog text, with the unreleased commits taken after the highest release, all commits collected from the text `run_git_command` returns |
| Changelog.NoTagsText | generate_changelog.py:230-235 | with no release and no unreleased entry, the text is the header and the no-tags notice |
| Changelog.RunMain | generate_changelog.py:247-287 | a generation error exits 1; --check writes nothing and exits 0 exactly when the file exists with the same text; otherwise the file is written and the exit is 0 |
| MainEntry.KeptFrom | main.py:17-18 | the filter keeps arguments that are not -m and do not follow -m, in order |
| MainEntry.KeptAll | main.py:17-18 | with no -m in the way, nothing is filtered out |
| MainEntry.NoModuleFlag | main.py:17-18 | a command line without -m is kept as it is |
| MainEntry.ScriptAloneIsGui | main.py:21-22 | the script name alone means GUI mode |
| MainEntry.CliFlagMeansCli | main.py:25-26 | a help, version or debug flag anywhere means the command line |
| MainEntry.PositionalMeansCli | main.py:29-30 | a first argument that is not a flag means the command line |
| MainEntry.OtherFlagsAreGui | main.py:32-33 | flags only, none of them help, version or debug, mean GUI mode |
| MainEntry.ModuleInvocation | main.py:17-33 | `script -m name rest` decides as `script rest` does |
| MainEntry.LaunchOfScript | main.py:35-46 | the script alone starts the GUI exactly when it is installed and the command line otherwise; a help flag always starts the command line |
| McpConnection.RecordedError | src/telegram_download_chat/mcp/connection_manager.py:118-122 | an exception adds one error and records its text and time, changing nothing else |
| McpConnection.StatsDictFields | src/telegram_download_chat/mcp/connection_manager.py:45-59 | each counter and the last error read back from to_dict under its own key |
| McpConnection.FirstOpened | src/telegram_download_chat/mcp/connection_manager.py:165-176 | the first attempt that opens the client, none before it opening, or none at all |
| McpConnection.BackoffSchedule | src/telegram_download_chat/mcp/connection_manager.py:163-187 | one sleep after each failed attempt but the last; the first is one second and each doubles the one before |
| McpConnection.AllFailingSleeps | src/telegram_download_chat/mcp/connection_manager.py:165-187 | three failed attempts sleep one second, then two |
| McpConnection.ConnectionManager.constructor | src/telegram_download_chat/mcp/connection_manager.py:68-73 | a new manager is disconnected with no downloader, no context and zero statistics |
| McpConnection.ConnectionManager.Open | src/telegram_download_chat/mcp/connection_manager.py:108-124 | one try: connected with the new downloader and the connection time, or the error recorded |
| McpConnection.ConnectionManager.Connect | src/telegram_download_chat/mcp/connection_manager.py:95-124 | connected stays connected; otherwise the result is whether the attempt opened the client |
| McpConnection.ConnectionManager.Disconnect | src/telegram_download_chat/mcp/connection_manager.py:131-144 | the manager ends disconnected with no downloader and no context, statistics unchanged |
| McpConnection.ConnectionManager.Reconnect | src/telegram_download_chat/mcp/connection_manager.py:155-191 | one more reconnect counted; success exactly when one of three attempts opens the client, with the doubling sleeps between failures |
| McpConnection.ConnectionManager.HealthCheck | src/telegram_download_chat/mcp/connection_manager.py:216-230 | healthy exactly when there is a client that says it is connected |
| McpConnection.ConnectionManager.EnsureConnected | src/telegram_download_chat/mcp/connection_manager.py:193-214 | a healthy connection is kept, a broken one or an error reconnects, a disconnected manager connects; the answer is whether it ends connected |
| McpConnection.ConnectionManager.RecordRequest | src/telegram_download_chat/mcp/connection_manager.py:232-235 | one more request, at the given time, and nothing else changes |
| McpConnection.ConnectionManager.RecordError | src/telegram_download_chat/mcp/connection_manager.py:237-241 | the error is recorded, and nothing else changes |
| McpConnection.ConnectionManager.StatusAgreesWithHealth | src/telegram_download_chat/mcp/connection_manager.py:243-262 | the status reports the state, and its client entry is null exactly without a client and otherwise answers as the health check |
| McpServer.AsUtc | src/telegram_download_chat/mcp/server.py:218-230 | a naive time is read as UTC and an aware one is kept |
| McpServer.MinBound | src/telegram_download_chat/mcp/server.py:216-221 | min_datetime parsed and made aware, or the invalid-format error text |
| McpServer.MaxBound | src/telegram_download_chat/mcp/server.py:224-232 | now in UTC when max_datetime is missing, otherwise it is parsed like the lower end |
| McpServer.FetchRequest | src/telegram_download_chat/mcp/server.py:120-133 | the download runs from the upper end's day back to the lower end's day, at most limit messages and min(100, limit) per request, without partial saves |
| McpServer.SenderId | src/telegram_download_chat/mcp/server.py:148-153 | the user_id, else the channel_id, of a dict from_id; an int from_id itself; None otherwise |
| McpServer.UserName | src/telegram_download_chat/mcp/server.py:155-158 | a truthy sender id is looked up, and otherwise the name is Unknown |
| McpServer.Project | src/telegram_download_chat/mcp/server.py:160-172 | a message's record copies id, date and message text with its sender's name, and raises exactly for a truthy reply_to that is not a dict |
| McpServer.ProcessContract | src/telegram_download_chat/mcp/server.py:136-172 | a kept record is undated or inside the window, a skipped message is dated outside it, and an undated message with a falsy reply_to is kept |
| McpServer.ProjectedKeeps | src/telegram_download_chat/mcp/server.py:135-174 | with no exception, the records are those of the kept messages, in download order, and no more than the messages |
| McpServer.ProjectedRaises | src/telegram_download_chat/mcp/server.py:135-174 | the first message that raises ends the fetch with its exception |
| McpServer.Fetched | src/telegram_download_chat/mcp/server.py:117-174 | Not authenticated without a client, the download's exception, or the window filter over its messages |
| McpServer.FetchMessages | src/telegram_download_chat/mcp/server.py:109-174 | _fetch_messages computes the fetched outcome for the request it builds |
| McpServer.KeepMessages | src/telegram_download_chat/mcp/server.py:135-174 | the loop over the downloaded messages computes the window filter |
| McpServer.Validate | src/telegram_download_chat/mcp/server.py:24-33 | a record is accepted exactly with an int id, text date and text and an int or no reply id |
| McpServer.ValidateAll | src/telegram_download_chat/mcp/server.py:244-246 | every record validated, in order, or refused as soon as one is |
| McpServer.ErrorFor | src/telegram_download_chat/mcp/server.py:248-278 | each exception gets its response: unregistered key, flood wait with the seconds, RPC error with its code, a RuntimeError's own text without a code, anything else UNKNOWN |
| McpServer.Recorded | src/telegram_download_chat/mcp/server.py:248-278 | every exception but a RuntimeError is recorded, with its text |
| McpServer.Respond | src/telegram_download_chat/mcp/server.py:244-278 | an exception gives its error response and record; records that validate give the messages response |
| McpServer.RefusedBeforeFetch | src/telegram_download_chat/mcp/server.py:212-232 | a disconnected manager or an unparsable window end gives an error without a code before any fetch, and nothing is recorded |
| McpServer.AsWrittenAlwaysUnknown | src/telegram_download_chat/mcp/server.py:234-278 | as written, the missing execute makes every request past the window end in a recorded UNKNOWN error |
| McpServer.CorrectedAnswers | src/telegram_download_chat/mcp/server.py:234-246 | with the fetch called directly, a download without exceptions answers one message per kept record, each undated or inside the window |
| McpServer.Server.constructor | src/telegram_download_chat/mcp/server.py:55-57 | the server starts with no manager |
| McpServer.Server.GetManager | src/telegram_download_chat/mcp/server.py:71-80 | the existing manager is returned; otherwise a new one tries once to connect and is kept whatever the result |
| McpServer.Server.TelegramGetMessages | src/telegram_download_chat/mcp/server.py:185-278 | the response and the recorded error are those the answer gives on the manager's state |

## Left out

- Commands.DedupMessages: Telethon `Message` objects are not modelled, only dict-shaped messages. The source reads `getattr(m, "id", None)` (commands.py:25), `getattr(msg, "date", None)` (commands.py:51) and `msg.to_dict()` (commands.py:102, messages.py:210). In the model any non-dict has no id, no date and the text "". So the model's deduplication removes nothing from a fresh download of objects, where the source deduplicates by `m.id`.
- Commands.MessageTextChoice: for the same reason, a non-dict message reads as the empty text.
- Messages.Serializable: an object other than a dict, list, tuple or scalar is modelled by its `str()` text alone. `to_dict()` on Telethon objects is not modelled.
- Entities.Sanitize: Python's `\w`, `lower()` and `upper()` are Unicode-aware. The model's `Text.IsWordChar`, `Text.Lower` and `Text.Upper` are ASCII only (`Text.IsSpace` is Python's whole `str.isspace` set), so a Cyrillic title becomes all `_` in the model but not in the source.
- Messages.ConvertArchiveToMessages: `chats.extend(left_chats)` (messages.py:26) also mutates the archive passed in. The model returns the converted messages and does not model that aliasing.
- Messages.TraverseRoots: Python's recursion limit in `traverse` (messages.py:115-118) and in `make_serializable` is not modelled. Deep reply chains that would raise `RecursionError` succeed in the model, which bounds the recursion only by one more than the batch length.
- Legacy.FetchHistory: only pages and flood waits are modelled as replies. Any other exception from `client(...)` or `get_entity` (telegram-download-chat.py:414, 433) ends the script with exit 1 (telegram-download-chat.py:647-653), and that is not modelled.
- Legacy.SnapshotRoundTrip: rebuilding a pickled dict into a message (`Message._new`, telegram-download-chat.py:387) is Telethon's code. It is a parameter, and the round trip is proved only for a rebuild that returns the message it was given (`Faithful`).
- Legacy.SaveMessagesAsTxt: the first pass that collects unknown user ids, fetches their names over the network and writes them back to `config.yml` (telegram-download-chat.py:221-261) is not modelled. The users map after that pass is a parameter.
- Cli.AsyncMain: the logging of an exception that escapes a chat (cli/__init__.py:202-204) is modelled only as exit code 1. Signal handlers and the module-level downloader context are not modelled.
- McpServer.Server.TelegramGetMessages: the following are not modelled:
  - pydantic's coercions and its `ValidationError` text (a refused record is only `None`);
  - the display-name lookup, which is a parameter;
  - the exception path of `_get_manager`;
  - the session client id;
  - logging and the `asyncio` locks.
- McpConnection.ConnectionManager.Reconnect: the backoff is a real number of seconds, and the sleeps are recorded in a list rather than slept. The locks and the waiting for a connection in progress (connection_manager.py:212-214) are not modelled.
- ChatDownload.CorrectedDownloads: `process_chat_download` passes `download_media` and `media_original_names` to `save_messages` (commands.py:196-198), which does not take them. That path is never reached as written, because of the earlier `AttributeError`. The model saves the messages only.
- Media.Target: the original file name is treated as one path component. A name holding `/`, or an absolute name, makes `attachments_dir / message_id / filename` (media.py:97) land outside the message's directory, and `Media.FetchedOnce` and `Media.NeverOverwrites` do not cover that case.
- Paths.WithStem: follows `with_name` as of Python 3.12. Python 3.13 also refuses an empty stem before a suffix, which the program never passes: its stems are non-empty.
- Text.ParseInt: Python's `int()` also accepts non-ASCII decimal digits. The model accepts ASCII digits only.
- Entities.LooksNumeric: `str.isdigit()` (entities.py:135) is true for non-ASCII digits too. The model's `Text.IsDigit` is ASCII only.
- Changelog.SemverOfShape: `\d` in the tag pattern (generate_changelog.py:74-79) matches non-ASCII decimal digits too. The model's `Text.IsDigit` is ASCII only.
- Changelog.ReleaseAt: the release day is a parameter. The `ValueError` of `datetime.fromisoformat` on a malformed commit date (generate_changelog.py:152) is not modelled.
- Commands.MessageText: `str()` of a float, a dict or a tuple text is Python's own rendering. The model gives `None` for those values instead of a text.
- Messages.ArchiveText: for the same reason, a float, dict or tuple text gives `None`.
- Json.HashKey: Python hashes an object that is not a plain value by its identity. The model tells such objects (`Opaque`) apart by their `str()` text, so two distinct objects with the same text are one id in the model's deduplication and name caches.
- Messages.GroupReplies: `id_map` and `children` (messages.py:98-110) are dicts, so Python also matches a reply id `2.0` or `True` with the message id `2` or `1`, and an unhashable id raises `TypeError`. The reply grouping compares ids as values (`Commands.IdSet`), so it makes such a reply a root and does not raise.
- Cli.AsyncMain: the `mkdir` of the `save_path` directory (cli/__init__.py:162) is not modelled. An `OSError` there would escape `async_main`.
- Legacy.SaveMessagesAsTxt: the first pass calls `msg.get` on every message (telegram-download-chat.py:228-233), so a non-dict message, or a `peer_id` that is not a dict, raises `AttributeError` before the second pass. The model skips those messages as the second pass does.
- Legacy.SubchatOutput: a subchat id holding `/` makes `with_name` raise. The model builds the name without that check.
- Checkpoint.AfterLoad: a checkpoint file is a sequence of already-classified lines, so two outcomes of `load_messages` are not modelled. An `IOError` while reading an existing file returns `([], 0)` and leaves the watermark unset (partial.py:84-86). Bytes that are not valid UTF-8 raise `UnicodeDecodeError`, which neither `except` catches, so it escapes `load_messages`; the model has no such line, and its `Corrupt` line stands only for text that is not valid JSON.
- `convert` (commands.py:427-515), the result and summary dict of `process_chat_download` (commands.py:339-424) and the status-tracking save around it (commands.py:168-214) are not part of this model. They are reporting around operations that are modelled.
- `save_messages_as_jsonl` (messages.py:235-258) and `_setup_logging` (config.py:89-127) are not part of this model. One is a second serialisation format and the other only configures logging.
- The desktop GUI, the web front-ends, authentication, the composition modules and the build scripts are not part of this model. They are UI, Telethon delegation and packaging.
- Real time, YAML, JSON and pickle encoding, and the network are inputs: parsed values, day numbers and reply sequences. Their encoders and parsers are not modelled.

## Findings

| source | as written | input that shows it | evidently intended | confidence | as-written member | corrected member |
|---|---|---|---|---|---|---|
| src/telegram_download_chat/core/messages.py:89-113 | a missing or unparsable date sorts as the naive `datetime.min`, but Telegram dates parse as aware datetimes, and `sorted` raises `TypeError` comparing them | `[{"id": 1, "date": "2024-01-01T00:00:00+00:00"}, {"id": 2}]` | a missing date sorts before every date, and the export never raises | not executed | Messages.AsWrittenUndatedRootFails | Messages.CorrectedNeverClashes |
| src/telegram_download_chat/cli/commands.py:250 | `process_chat_download` reads `args.overwrite`, which `CLIOptions` (cli/arguments.py:12-34) does not declare, so every resolved chat raises `AttributeError` | any chat name that resolves, with no `--output` | the flags `overwrite`, `media` and `media_original_names` exist, default to false, and the download resumes from the output file | not executed | ChatDownload.AsWrittenNeverDownloads | ChatDownload.CorrectedDownloads |
| telegram-download-chat.py:675-676 | the subchat filter compares the JSON integer `reply_to_msg_id` with the string `--subchat`, so nothing is ever kept | a message replying to message 1, filtered with `--subchat 1` | replies to the subchat are kept | not executed | Legacy.AsWrittenKeepsNone | Legacy.FilterSubchat |
| telegram-download-chat.py:583 | `"INFO"` is passed to `get_config_value` as a fourth key instead of as the default, so the configured level is never found and the level is always INFO | `settings: {logging: {log_file: x.log, log_level: debug}}` | the configured level name gives the level | not executed | Legacy.AsWrittenIgnoresLevel | Legacy.ConfiguredLevel |
| generate_changelog.py:49-116 | `run_git_command` strips git's output, which removes the empty body field of the last record, so the newest commit of a range has only two fields and is skipped | `git log` output `<hash>\x1ffeat: x\x1f\x1e` | the newest commit of each range is collected like the others | not executed | Changelog.AsWrittenDropsNewest | Changelog.RangeKeepsNewest |
| src/telegram_download_chat/mcp/server.py:235 | `telegram_get_messages` awaits `manager.execute`, which `TelegramConnectionManager` does not define, so every request past the date checks ends in an `AttributeError` answered as `UNKNOWN` | any connected request with valid dates | `_fetch_messages` is called with the manager's downloader | not executed | McpServer.AsWrittenAlwaysUnknown | McpServer.CorrectedAnswers |
