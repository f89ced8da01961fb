# Chronicle bulk data downloader — a verified model

The Chronicle bulk data downloader is a desktop tool. It fetches a study's
participant list from the Chronicle web service and downloads the chosen
kinds of data for each participant as `.csv` files. It then archives files
dated before today and sorts the remaining files into one folder per
category. The tool exists in two forms:

- **the refactored package:** `src/main_window.py`, `src/download_worker.py`,
  `src/utils.py` and `src/enums.py`;
- **the single-file script:** `Chronicle_Android_bulk_data_downloader.py`.

Both share the structure modelled here. A `Variant` (`Refactored` or
`Legacy`) selects the points where they differ:

- the iOS sensor kind and its category folder;
- the file-name labels and the diary folder's name;
- the HTTP error text;
- which category folders are created;
- the zero-byte clean-up;
- the script's listing helper, which has no fallbacks.

The model has one module per concern, each in its own file:

| module | what it holds |
|---|---|
| `Common` | `Option`, `Result` and the exceptions a run can raise (`Failure`) |
| `Strings` | the string operations the program relies on: `strip`, `lower`, `split`, `in`, ordering, integer formatting |
| `Enums` | filter type, device type and data type, with their string values |
| `Dates` | calendar dates and the `MM-DD-YYYY` tokens found in file names |
| `Registry` | per kind of data: its label, URL family, device, request URLs, file name and the order the loop visits kinds |
| `ParticipantFilter` | the cleaning, inclusive or exclusive matching and sorting of participant ids |
| `Retry` | the retry rule for a failed request: retryable codes, back-off, client recreation |
| `FileSystem` | a value model of the download folder (files with sizes, directories, files held open), `mkdir -p`, copy, unlink, write, the recursive listing and the loop that applies a step to each listed file |
| `Matching` | `get_matching_files_from_folder`: the listing, the ignore list, the regular-expression test and both fallbacks |
| `Archive` | the archive pass |
| `Organize` | the organize pass: category folders, moves, zero-byte deletion |
| `Worker` | the worker thread's state, its signals, the checks before a run and the texts it reports |
| `Downloader` | the download routine with its retries, the loop over participants and kinds, progress accounting, and what a whole run guarantees |
| `MainWindow` | class `Window`: the main window's state during a download and its methods, each proved to update the state as the matching `Downloader` function says |
| `WorkerRun` | the worker's `run`/`_run`: checks, download, archive, organize, `finished`, and how exceptions are reported |

The world outside the program is a parameter:

- The `Env` datatype supplies three things:
  - the answer to the data request numbered `n` (`respond(n)`: success with a size, an HTTP status error, a transport error, or another failure);
  - the read of the cancel flag just before which the user presses cancel, if the user ever does;
  - the answer to the participant statistics request.
- Today's date is part of `Settings`.
- The order in which the recursive listing yields entries is an arbitrary choice (`:|`).
- The traceback text of a generic error is the parameter `trace`.

## Model

| member | source | states |
|---|---|---|
| Enums.FilterValue | src/enums.py:6-12 | each filter type has its own string value, `Inclusive` or `Exclusive`, in both directions |
| Enums.DataTypeFromValue | src/enums.py:25-36 | looking a data type up by its string finds exactly the type with that value, and reports that no type has the value otherwise |
| Enums.DeviceFromValue | src/enums.py:15-22 | looking a device type up by its string finds exactly the type with that value, and reports that no type has the value otherwise |
| Enums.AllDataTypesComplete | src/enums.py:25-36 | the seven data types are listed once each |
| Enums.DataTypeValueInjective | src/enums.py:25-36 | distinct data types have distinct wire values |
| Enums.DataTypeRoundTrip | src/enums.py:25-36 | converting a data type to its value and back gives the same type |
| Enums.DeviceRoundTrip | src/enums.py:15-22 | converting a device type to its value and back gives the same type |
| Strings.StripSpec | src/main_window.py:647-650 | `strip()` returns the middle slice of its input, with only whitespace cut on either side and no whitespace at either end of the result |
| Strings.StripEmptyIff | src/download_worker.py:72 | a stripped text is empty exactly when the text is all whitespace |
| Strings.StripIdempotent | src/main_window.py:647 | stripping twice is stripping once |
| Strings.Lower | src/main_window.py:667 | `lower()` keeps the length and lowers each ASCII capital, one character at a time |
| Strings.LowerIdempotent | src/utils.py:47-48 | lowering twice is lowering once |
| Strings.ContainsIff | src/main_window.py:667 | the substring test `t in s` holds exactly when `t` occurs in `s` at some index |
| Strings.SplitJoin | src/main_window.py:649 | joining the pieces of `split(",")` with the separator gives back the text; no piece contains the separator |
| Strings.NatToStringValue | src/download_worker.py:144 | a formatted count reads back as the same number |
| Strings.PadDigitsValue | src/main_window.py:787 | a zero-padded date field reads back as the same number |
| Strings.LessEqTotal | src/main_window.py:670 | the order `list.sort()` uses on ids is total |
| Strings.LessEqTransitive | src/main_window.py:686 | the order is transitive |
| Strings.LessEqAntisymmetric | src/main_window.py:686 | the order is antisymmetric |
| Dates.BeforeStrictTotal | src/main_window.py:544 | comparing dates is a strict total order |
| Dates.FormatDate | src/main_window.py:787 | `strftime('%m-%d-%Y')` gives digits with dashes at positions 2 and 5 |
| Dates.FindToken | src/main_window.py:532 | `re.search` for a date token finds the first position where one starts, or reports that there is none |
| Dates.FindTokenFirst | src/main_window.py:532 | a token preceded by no digit is the one the search finds |
| Dates.ParseToken | src/main_window.py:539-542 | a token parses when it is a valid date written with two dashes or with two dots; otherwise the parse raises |
| Dates.MixedSeparatorsRaise | src/main_window.py:532-542 | a token the search accepts but that mixes separators or uses `\|` raises `ValueError` from the second `strptime` |
| Dates.FormatParseRoundTrip | src/main_window.py:787 | the date written into a file name is found at its start and parses back to the same date |
| Registry.Lookup | src/main_window.py:718-760 | every kind has an entry except the iOS sensor kind in the script; the diary kinds use the time-use-diary URLs; the refactored program tags Raw, Preprocessed and Survey as Android and iOS sensor as iPhone, and the script tags none |
| Registry.StatsUrl | src/main_window.py:841-845 | the statistics request goes to the study's path under the v3 API |
| Registry.StudyDataUrl | src/main_window.py:733-748 | a study-data URL starts with the API base, `study/` and the study id, carries `&dataType=` and the kind's value, and ends with `&fileType=csv` |
| Registry.DiaryUrl | src/main_window.py:749-757 | a diary URL starts with `time-use-diary/` and the study id, ends with `&dataType=` and the value, and has no `fileType` |
| Registry.FileName | src/main_window.py:785-788 | an output name is the participant id, ` Chronicle`, the optional device, the label and ` MM-DD-YYYY.csv`; in the script it always reads ` Chronicle Android ` |
| Registry.FileNamesDistinct | src/main_window.py:785-788 | two different kinds for the same participant and day never share a file name |
| Registry.MiddlesDistinct | src/main_window.py:729-757 | the device-and-label part of the name differs between kinds |
| Registry.LabelsDistinct | src/main_window.py:732-757 | the labels of two kinds differ |
| Registry.DownloadOrder | src/main_window.py:881-995 | the loop visits each kind that has an entry exactly once |
| ParticipantFilter.Clean | src/main_window.py:647 | cleaning keeps no empty id and never adds one |
| ParticipantFilter.CleanMembership | src/main_window.py:647-650 | an id survives cleaning exactly when it is the non-empty strip of some input |
| ParticipantFilter.Matchers | src/main_window.py:649-650 | the filter terms are the non-empty stripped comma-separated pieces, none containing a comma |
| ParticipantFilter.AnyMatchIff | src/main_window.py:667 | an id matches exactly when some term, lowered, is a substring of the lowered id |
| ParticipantFilter.Select | src/main_window.py:663-668 | selection keeps ids of the input whose match equals the filter mode |
| ParticipantFilter.SelectPartition | src/main_window.py:659-689 | the inclusive and exclusive selections split the cleaned ids between them, with no overlap |
| ParticipantFilter.SelectMembership | src/main_window.py:679-684 | an id is selected exactly when it is in the list and its match equals the mode |
| ParticipantFilter.Insert | src/main_window.py:670 | insertion adds exactly one occurrence of the id |
| ParticipantFilter.InsertSorted | src/main_window.py:670 | insertion into a sorted list keeps it sorted |
| ParticipantFilter.Sort | src/main_window.py:670 | sorting is a permutation |
| ParticipantFilter.SortSorted | src/main_window.py:686 | the sorted list is in order |
| ParticipantFilter.FilterSpec | src/main_window.py:643-689 | the filtered list is sorted, a permutation of the selection of the cleaned ids, and holds an id exactly when the id is cleaned and matches a term (inclusive) or matches none (exclusive) |
| ParticipantFilter.FilterPartition | src/main_window.py:643-689 | the inclusive and exclusive results together are the cleaned ids, each once |
| ParticipantFilter.NoMatchers | src/main_window.py:675-689 | with no terms, the inclusive filter keeps nothing and the exclusive filter keeps every cleaned id |
| ParticipantFilter.MatchIgnoresCase | src/main_window.py:683 | matching ignores the case of both the id and the term |
| Retry.Decide | src/main_window.py:801-828 | success finishes; status 429, 502, 503 or 504 and any transport error are retried while retries remain, after `2^retry * delay` seconds, closing the client only after a transport error; every other failure is raised as itself |
| Retry.RunFrom | src/main_window.py:718-828 | a download makes at least one attempt; every attempt but the last is followed by a delay, and the client is closed at most once per retry |
| Retry.RunAgain | src/main_window.py:808 | a retried attempt adds one attempt to the rest of the run and has the same result |
| Retry.RunEnds | src/main_window.py:809-811 | an attempt that is not retried ends the run with the size it got or the failure it raised |
| Retry.AttemptsBound | src/main_window.py:803 | at most `MAX_RETRIES + 1` attempts are made |
| Retry.DelaysDouble | src/main_window.py:805 | the k-th retry waits `2^k` times the rate-limit delay |
| Retry.SucceedsIff | src/main_window.py:801-825 | a download succeeds with size `n` exactly when some attempt within the retry budget returns `n` and every attempt before it failed in a retryable way |
| Retry.ClosesCountTransportRetries | src/main_window.py:819 | the client is closed once for every retried transport failure |
| Retry.LegacyRetry | Chronicle_Android_bulk_data_downloader.py:38-41 | with one retry and a 3-second delay, at most two attempts are made and the only wait is 3 seconds |
| Retry.TwoUnavailableFail | Chronicle_Android_bulk_data_downloader.py:885-893 | two 503 answers in a row raise 503 |
| Retry.UnavailableThenSuccess | Chronicle_Android_bulk_data_downloader.py:885-890 | a 503 followed by a success succeeds |
| Retry.NotFoundNotRetried | src/main_window.py:809-811 | a 404 is raised at once, without a retry |
| FileSystem.PathOfComponents | src/main_window.py:545-546 | a path is rebuilt from its components |
| FileSystem.MakeDirs | src/main_window.py:548 | `mkdir(parents=True, exist_ok=True)` fails exactly when some prefix of the path is a file; otherwise it adds every prefix as a directory |
| FileSystem.MakeDirsValid | src/main_window.py:789 | `mkdir -p` keeps the folder well formed and leaves the directory in place |
| FileSystem.Copy | src/main_window.py:550 | `shutil.copy` succeeds exactly when the source is a file, the target differs from it, the target's folder exists, the target is no directory and is not held open; it then writes the source's size to the target, a file in the destination folder or the destination itself |
| FileSystem.Unlink | src/main_window.py:551 | `unlink` removes a file not held open, and raises `PermissionError` for one that is |
| FileSystem.Write | src/main_window.py:792-793 | writing succeeds when the folder exists and the target is neither a directory nor open, and sets the file's size |
| FileSystem.CopyUnlinkWriteValid | src/main_window.py:550-551 | copy, unlink and write keep the folder well formed |
| FileSystem.ComponentInText | src/utils.py:40 | a path's text contains whatever one of its components contains |
| FileSystem.TextEndsWithName | src/utils.py:44 | a path's text ends with its name |
| FileSystem.Listing | src/utils.py:33 | `rglob("*")` lists files that exist and directories under the folder |
| FileSystem.Rglob | src/utils.py:33 | the listing is every entry under the folder, each once, in an arbitrary order |
| FileSystem.Enumerate | src/utils.py:33 | every member of the set is listed once |
| FileSystem.RunSteps | src/main_window.py:531-551 | the loop over listed files applies the step to each file in order, stopping at the first exception |
| FileSystem.FoldAppend | src/main_window.py:590-592 | running over `a + b` is running over `a` then over `b` |
| FileSystem.FoldUntouched | src/main_window.py:590-592 | a file no step touches is unchanged by the loop |
| FileSystem.FoldOkAt | src/main_window.py:590-592 | a loop that finishes finished every earlier step |
| FileSystem.FoldKeepsDirs | src/main_window.py:590-592 | steps that keep the directories keep them over the loop |
| FileSystem.FoldKeepsPresent | src/main_window.py:590-592 | a file every step keeps is still there after the loop |
| FileSystem.FoldKeepsLocked | src/main_window.py:590-592 | steps that keep the open files keep them over the loop |
| Matching.MatchesOrdered | src/main_window.py:71-77 | every name ending in `.csv` matches the catch-all pattern, and each category and dated pattern matches only names the catch-all pattern matches |
| Matching.MatchingFiles | src/utils.py:15-77 | the helper returns the listed selection, or the walked selection when listing raised |
| Matching.MatchListed | src/utils.py:32-58 | the listing loop keeps the regular files not ignored whose name the pattern finds, or the keyword fallback accepts when the pattern fails to compile |
| Matching.MatchWalked | src/utils.py:60-74 | the walk loop keeps the files not ignored whose name the pattern finds, or contains the pattern minus `[\s\S]*` when it fails to compile |
| Matching.KeptMembership | src/utils.py:36-45 | a path is kept exactly when some listed entry is a file at that path that is wanted and not ignored |
| Matching.KeptAppend | src/utils.py:36 | the listing loop distributes over concatenation |
| Matching.KeptDistinct | src/utils.py:36-45 | distinct entries give distinct kept paths |
| Matching.NothingIgnored | src/utils.py:27-28 | no ignore list and an empty list behave alike |
| Matching.NameOnly | src/utils.py:44 | the pattern test depends only on the file's name |
| Matching.ProgramPatternsSelect | src/utils.py:36-45 | for the program's patterns, a file is selected exactly when it is listed, not ignored and its name matches |
| Matching.ListedSelection | src/utils.py:33-45 | when the listing is the folder's contents, a path is kept exactly when it is a candidate file in the folder |
| Matching.ListedSelectionAll | src/utils.py:33-45 | the kept list is exactly the candidates, each once |
| Matching.PatternTextsEndInCsv | src/main_window.py:71-77 | the catch-all and category patterns end in `.csv`, so the fallback's last rule applies to them |
| Matching.PatternTextEndsOtherwise | src/main_window.py:72 | the dated and zero-byte patterns end otherwise |
| Matching.FallbackAcceptsAnyCsv | src/utils.py:56 | when a category pattern fails to compile, the fallback accepts every `.csv` file, whatever its category |
| Matching.FallbackOnCsvEnding | src/utils.py:50-57 | any pattern ending in `.csv` accepts every `.csv` name under the fallback |
| Matching.LegacyMatching | Chronicle_Android_bulk_data_downloader.py:77-94 | the script's helper raises only `re.error` |
| Matching.LegacyAgrees | Chronicle_Android_bulk_data_downloader.py:77-94 | the script's helper raises exactly when the pattern fails on some listed file; otherwise it returns what the refactored helper's listing loop returns |
| Matching.LegacyDirectoriesOnly | Chronicle_Android_bulk_data_downloader.py:88-92 | on a listing of directories only, which is what `rglob("**")` yields before Python 3.13, the script's helper returns no file |
| Archive.ArchiveDir | src/main_window.py:545-547 | the archive folder is two levels below the file's folder |
| Archive.Token | src/main_window.py:532 | the date token of a file is ten characters that form a token |
| Archive.DateOf | src/main_window.py:532-542 | a file without a token raises `RuntimeError`, a token that does not parse raises `ValueError`, and every other file has a date |
| Archive.ArchivedCopyMarked | src/main_window.py:547 | an archived copy's path contains `Archive`, so later passes ignore it |
| Archive.ArchivedCopiesDistinct | src/main_window.py:545-550 | two different files outside archive paths are never archived onto the same path |
| Archive.ArchiveFileEffect | src/main_window.py:544-551 | a file dated today or later is left alone; an older file is gone from its place and its bytes are at its archived copy, in its archive folder or, when a directory there has the file's name, inside it; no file other than the original and the copy changes; folders are only added |
| Archive.LaterTurnsKeepCopy | src/main_window.py:531-551 | the turns after the one that archived a file leave its archived copy as it is |
| Archive.ArchiveFilesEffect | src/main_window.py:531-551 | after the loop, every listed file older than today is gone and its original bytes are at its archived copy, and every other listed file is untouched |
| Archive.AllRecentUnchanged | src/main_window.py:544 | when no listed file is older than today, the folder is unchanged |
| Archive.ListedFileHasToken | src/main_window.py:72 | a file the dated pattern listed always has a token, so only a bad date can raise |
| Archive.FolderDateDecides | src/main_window.py:532 | the token is searched in the whole path, so a date in a folder name is used before one in the file name |
| Archive.ArchivePass | src/main_window.py:521-553 | `archive_downloaded_data` lists the dated `.csv` candidates outside `Archive` paths and `.png` files, each once, and archives them in listing order |
| Archive.ArchivePassEffect | src/main_window.py:521-553 | after the pass, every candidate older than today is gone and its original bytes are at its archived copy, and the rest are untouched |
| Organize.Categories | src/main_window.py:559-563 | the categories are distinct and visited in program order |
| Organize.CategoriesComplete | Chronicle_Android_bulk_data_downloader.py:679-682 | every category has a pass, except the iOS category in the script |
| Organize.FolderName | src/main_window.py:559-563 | every category folder has a name |
| Organize.Dest | src/main_window.py:559-563 | a category folder sits directly in the download folder |
| Organize.MoveFileEffect | src/main_window.py:590-592 | a move leaves the file's size at the target, removes the file, and changes nothing else |
| Organize.MovesIntoFolder | src/main_window.py:590-592 | when the category folder exists, every listed file ends up in it under its own name |
| Organize.MovesOntoOneFile | src/main_window.py:584-592 | when the category folder was not created, each listed file is copied onto one plain file with the folder's name, which keeps the last file's contents |
| Organize.MoveKeepsUnmarked | src/main_window.py:590-592 | a move does not touch a file whose path lacks the folder's name |
| Organize.MovesKeepUnmarked | src/main_window.py:590-592 | the moves of a pass do not touch other files outside the category folder |
| Organize.MovesKeepPresent | src/main_window.py:590-592 | a file the pass does not list stays |
| Organize.MovesKeepDirs | src/main_window.py:590-592 | moves create no directory |
| Organize.MovesKeepLocked | src/main_window.py:590-592 | moves do not change which files are open |
| Organize.MoveAt | src/main_window.py:590-592 | in a finished pass, each listed file was moved from the state its predecessors left |
| Organize.TargetMarked | src/main_window.py:587 | a moved file's new path carries the folder's name, so the pass ignores it afterwards |
| Organize.DeleteZeroByte | src/main_window.py:509-519 | an empty file is deleted unless it is open, and a file that is open is kept and its error swallowed; nothing else changes |
| Organize.ZeroFilesEffect | src/main_window.py:638-639 | after the loop, exactly the listed empty files not held open are gone, and the rest are unchanged |
| Organize.MovePass | src/main_window.py:584-592 | a category pass lists the category's candidates once each and moves them in order |
| Organize.ZeroPass | src/main_window.py:636-639 | the zero-byte pass lists every `.csv` outside `Archive` paths once and runs the deletion on each |
| Organize.MovePassEffect | src/main_window.py:584-632 | with the folder in place, every candidate of the category ends up in it |
| Organize.MovePassWithoutFolder | src/main_window.py:584-632 | without the folder, the candidates collapse onto one plain file named like the folder |
| Organize.ZeroPassEffect | src/main_window.py:634-639 | the zero-byte pass always finishes and removes exactly the empty `.csv` candidates that are not open |
| Organize.FolderNamesDistinct | src/main_window.py:559-563 | the category folders have distinct names |
| Organize.DestPrefixes | src/main_window.py:565-582 | creating one category folder never creates another |
| Organize.MakeCategoryFolders | src/main_window.py:565-582 | the loop makes the `mkdir` calls `FoldersFrom` describes, stopping at the first failure; afterwards a category folder exists exactly when one of its kinds is checked (every category in the script) or it existed before; files are untouched |
| Organize.FoldersFromEffect | src/main_window.py:565-582 | when the `mkdir` calls of some categories end normally, a category folder exists exactly when it existed before or its category is among them and wanted; the files and the files held open are untouched |
| Organize.MoveCategories | src/main_window.py:584-632 | the category passes leave what `MovesOutcome` allows: each category in program order moves its candidates, each once in some listing order, into its folder, and the first exception ends them; they create no directory and leave the open files alone |
| Organize.MovesOutcomeStep | src/main_window.py:584-632 | one category pass followed by what the later passes can leave is what the passes from that category on can leave |
| Organize.OrganizePass | src/main_window.py:555-641 | `organize_downloaded_data` leaves what `OrganizeOutcome` allows: the `mkdir` calls, then the category moves, then the zero-byte pass in the refactored program when asked, the first exception ending it; the wanted category folders exist and no other category folder was created |
| Organize.KeywordThenCsv | src/main_window.py:73-77 | a name holding the keyword and ending in `.csv` matches the category pattern |
| Organize.LabelHoldsKeyword | src/main_window.py:734-757 | every label except the refactored preprocessed one starts with its category keyword |
| Organize.DiaryLabels | src/main_window.py:750-756 | the diary labels start with `Time Use Diary` |
| Organize.DownloadedNameOrganized | src/main_window.py:73-77 | every downloaded file except the refactored preprocessed one matches its own category's pattern |
| Organize.PreprocessedNotOrganized | src/main_window.py:76 | a refactored preprocessed download, named `Preprocessed Data`, never matches the pattern `Downloaded Preprocessed`, so it is never moved (unless the participant id contains that text) |
| Organize.LegacyPreprocessedOrganized | Chronicle_Android_bulk_data_downloader.py:826 | the script's preprocessed label is `Downloaded Preprocessed Data`, so its files are organized |
| Worker.ProgressValuesAppend | src/download_worker.py:26 | the progress values of a concatenation are the concatenation of the values |
| Worker.Validate | src/download_worker.py:61-75 | a run passes its checks exactly when a folder is chosen, the stripped study id has at least 36 characters, and the inclusive box is not checked with an empty list |
| Worker.ValidationOrder | src/download_worker.py:61-75 | the checks are made in order, folder first and study id second, so the first failing one is reported |
| Worker.HttpDescription | src/download_worker.py:83-87 | only 401, 403 and 404 have a description; any other code is `Unknown` |
| Worker.HttpDescriptionsDistinct | src/download_worker.py:83-87 | distinct codes with a description are described differently |
| Worker.HttpMessage | src/download_worker.py:90-92 | the HTTP error text starts with the fixed preamble, the code and its description; the refactored text ends with the advice sentence and the script's has none |
| Worker.HttpMessagesAgree | Chronicle_Android_bulk_data_downloader.py:182 | the refactored text is the script's text followed by the advice sentence |
| Worker.ProgressMessage | src/download_worker.py:144 | below 100 the text reads `Downloaded c of t files`, and at 100 it reads `Complete! Downloaded t files` |
| Worker.ProgressMessageCounts | src/download_worker.py:144 | the counts can be read back from the text |
| Worker.DownloadWorker.constructor | src/download_worker.py:30-37 | a new worker is not cancelled, has progress 0 and has emitted nothing |
| Worker.DownloadWorker.Cancel | src/download_worker.py:49-55 | `cancel` sets the flag and emits `cancelled`, and changes nothing else |
| Worker.DownloadWorker.UpdateProgress | src/download_worker.py:131-146 | the progress is set and emitted; with both counts given, the counts are stored and the text is emitted |
| Worker.DownloadWorker.Emit | src/download_worker.py:25-28 | a signal is appended to what was emitted, and nothing else changes |
| Worker.CancelTwice | src/download_worker.py:49-55 | pressing cancel twice emits `cancelled` twice and keeps the flag set |
| Downloader.CancelCompose | src/main_window.py:725 | a press of cancel between two polls falls in exactly one of two consecutive spans |
| Downloader.Checked | src/main_window.py:857-867 | the checked kinds are those in the order that are checked |
| Downloader.CheckedPrefix | src/main_window.py:881-995 | the kinds checked so far are a prefix of all checked kinds |
| Downloader.CheckedOrder | src/main_window.py:857-867 | the kinds a run downloads are the checked kinds the program has an entry for |
| Downloader.Row | src/main_window.py:881-995 | one participant's downloads are its checked kinds, in order |
| Downloader.Plan | src/main_window.py:874-995 | the planned downloads number participants times kinds |
| Downloader.PlanAt | src/main_window.py:874-995 | the planned download at `i * kinds + j` is participant `i`'s kind `j` |
| Downloader.PlanPrefix | src/main_window.py:874 | the downloads of the first participants are a prefix of the plan |
| Downloader.ReportedBounds | src/main_window.py:889 | a reported progress value lies between 10 and 90 |
| Downloader.ReportedMonotone | src/main_window.py:889 | more completed downloads never report less progress |
| Downloader.ReportedEnds | src/main_window.py:871-889 | progress starts at 10 and reaches 90 when everything is downloaded |
| Downloader.ProgressStep | src/main_window.py:887-890 | one more completed download keeps the reported progress rising and within 10 to 90 |
| Downloader.TrailMonotone | src/main_window.py:887-890 | the progress reports of a run never decrease |
| Downloader.Polled | src/main_window.py:725 | reading the cancel flag counts one read and sets the flag, with a `cancelled` signal, when the user pressed cancel just before |
| Downloader.Updated | src/main_window.py:871 | `update_progress` adds exactly its value to the progress reports |
| Downloader.BetweenCompose | src/main_window.py:725-782 | changes that only poll and send requests compose |
| Downloader.Save | src/main_window.py:785-793 | a successful download leaves the file in the download folder with the response's size, the folder in place, and nothing else changed |
| Downloader.AfterMkdir | src/main_window.py:789 | a write that fails after `mkdir` leaves the files as they were |
| Downloader.RetryFrom | src/main_window.py:801-825 | the download stops at the first attempt the retry rule does not retry |
| Downloader.Finish | src/main_window.py:784-799 | the routine returns `False` exactly when it saw the cancel flag |
| Downloader.AttemptEffect | src/main_window.py:725-782 | one attempt stops exactly when the flag is set, fails exactly when the kind has no entry, and otherwise sends one request |
| Downloader.RetryEffect | src/main_window.py:801-825 | the retries only poll and send requests; a set flag stops them before any request |
| Downloader.DownloadEffect | src/main_window.py:718-828 | `True` means the kind has an entry and its file is in the folder; `False` means the flag was seen and nothing was written; a raised failure writes nothing; no file ever disappears |
| Downloader.RetryRun | src/main_window.py:801-825 | when not cancelled, the routine's outcome is the retry rule's outcome over the same answers |
| Downloader.DownloadResult | src/main_window.py:718-828 | an uncancelled download of a kind without an entry raises before any request; otherwise it ends as the retry rule says |
| Downloader.RetryRequests | src/main_window.py:777-822 | each attempt sends the kind's URL once |
| Downloader.RetryClients | src/main_window.py:769-819 | the client is open after the requests, and one client is created for each transport failure that was retried |
| Downloader.DownloadRequests | src/main_window.py:718-828 | an uncancelled download sends its URL once per attempt, and creates a client at the start and after each retried transport failure |
| Downloader.Planned | src/main_window.py:856-869 | the total the progress counts against is the number of participants times checked kinds |
| Downloader.Opened | src/main_window.py:834-845 | a run marks the download active, opens the client and sends the statistics request, without changing the signals or downloads |
| Downloader.StartTracked | src/main_window.py:869-871 | after the first update the run is on track: nothing done, progress at 10 |
| Downloader.PollTracked | src/main_window.py:876-896 | the cancel checks keep the run on track |
| Downloader.KindStepTracked | src/main_window.py:881-893 | one kind keeps the run on track and adds its download to what was done, if checked |
| Downloader.KindsTracked | src/main_window.py:881-995 | one participant's kinds keep the run on track and add that participant's row |
| Downloader.ParticipantNextTracked | src/main_window.py:874-995 | one participant keeps the run on track and extends what was done by the participant's row |
| Downloader.ParticipantsTracked | src/main_window.py:874-995 | the loop keeps the run on track and, when it is not broken off, completes the plan in order |
| Downloader.LoopTracked | src/main_window.py:856-995 | from the first progress report, the loop stays on track and, unless interrupted, does exactly the plan |
| Downloader.StudyOutcome | src/main_window.py:830-999 | the client is closed and the download marked inactive at the end; a failed statistics request or an empty filtered list raises before any download or report; otherwise the run is on track and, unless interrupted, does exactly the plan |
| Downloader.StudyComplete | src/main_window.py:856-995 | an uninterrupted run starts each planned download once and in order, completes all of them, leaves every planned file in the folder, and its progress reports rise from 10 to 90 |
| Downloader.CompleteFrom | src/main_window.py:856-995 | an on-track run that did the whole plan has every planned file saved and reports ending at 90 |
| Downloader.TrailRises | src/main_window.py:887-890 | reports that form a complete trail end at 90 and never fall |
| MainWindow.Window.constructor | src/main_window.py:79-82 | a new window has no download running and no client |
| MainWindow.Window.GetClient | src/main_window.py:691-704 | `_get_client` creates a client only when none is open |
| MainWindow.Window.CloseClient | src/main_window.py:706-716 | `_close_client` leaves no client |
| MainWindow.Window.Poll | src/main_window.py:725 | reading the cancel flag is the `Polled` step |
| MainWindow.Window.Attempt | src/main_window.py:725-782 | one attempt is the `AttemptFrom` step |
| MainWindow.Window.DownloadDataType | src/main_window.py:718-828 | the routine is the `DownloadFrom` function, recursion on retry included |
| MainWindow.Window.UpdateProgress | src/main_window.py:871 | updating progress is the `Updated` step |
| MainWindow.Window.DownloadKind | src/main_window.py:881-893 | one checked kind is downloaded and counted, with a progress report for a success |
| MainWindow.Window.KindThenCheck | src/main_window.py:881-896 | one kind followed by the cancel check before the next |
| MainWindow.Window.DownloadKinds | src/main_window.py:881-995 | one participant's kinds in order, stopping at a break or an exception |
| MainWindow.Window.DownloadParticipant | src/main_window.py:874-995 | the cancel check, then the participant's kinds |
| MainWindow.Window.DownloadParticipants | src/main_window.py:856-995 | the total, the report of 10, then each participant in order |
| MainWindow.Window.DownloadFromStudy | src/main_window.py:830-999 | `download_participant_Chronicle_data_from_study` is the `StudyFrom` function, so `StudyOutcome` and `StudyComplete` hold of it |
| WorkerRun.ErrorMessage | src/download_worker.py:81-97 | an HTTP status failure is reported with the HTTP message, and any other failure with the generic text followed by the traceback |
| WorkerRun.Run | src/download_worker.py:40-77 | a failed check emits its message and changes nothing else; otherwise `progress(0)` is emitted and the study download follows |
| WorkerRun.RunStudy | src/download_worker.py:79-107 | an exception from the download is reported with its message; otherwise the flag is read once more, a cancel pressed up to that read ends the run silently, and without one the archive and organize passes run |
| WorkerRun.Archived | src/download_worker.py:104 | the archive step of a run leaves what archiving the dated candidates, each once in some listing order, leaves |
| WorkerRun.ConcludedAfter | src/download_worker.py:103-107 | the report of 90 followed by an archive pass that raised and the generic error, or by the organize step, is a conclusion `Concluded` allows |
| WorkerRun.Conclude | src/download_worker.py:103-107 | after progress 90 the folder is what archiving the dated candidates, each once in some listing order, leaves; if that raised the generic error is reported; otherwise the organize step follows from the archived folder |
| WorkerRun.OrganizeThenFinish | src/download_worker.py:105-129 | after progress 95 the folder is what `organize_downloaded_data` leaves (`OrganizeOutcome`); a completed pass reports 100 and `finished` with the wanted category folders in place; a failing pass reports the generic error after 95 |
| WorkerRun.OrganizedAfter | src/download_worker.py:105-129 | the report of 95, the organize pass, then either 100 and `finished` or the generic error, is an ending `Organized` allows |

## Left out

- The Qt user interface is not modelled: widgets, layouts, dialogs and the enabling or disabling of controls. Signals are recorded as a list rather than delivered to widgets.
- The cancel failsafes are not modelled (`QTimer` in `_cancel_download`, `_force_cancellation_if_needed`). Neither is the script's `cancel` emitting `finished` after 100 ms: these are timers outside the download logic.
- The asyncio event loop, the semaphore, the client lock and httpx's client options (HTTP/2, timeouts, connection limits) are not modelled. The loop runs one request at a time, so its effects are sequential.
- Sleeps are not performed. Their lengths are computed (`Retry.Decide`, `Retry.DelaysDouble`), but no clock passes.
- Progress arithmetic uses exact integer division instead of a float. `10 + int((c / t) * 80)` and `10 + (c * 80) / t` agree for the non-negative counts the loop uses, up to float rounding, which is not modelled.
- The JSON configuration file is neither written after a run nor read at start-up. Logging and `main.py` are not modelled.
- `src/constants.py` is not part of this model. `MAX_RETRIES` and `RATE_LIMIT_DELAY` are the parameters of `Retry.Config`; the script's values 1 and 3 are `Retry.LegacyConfig`.
- The authorization header is not modelled. Its effect shows only as the service's answer (for example 401), which `Env` supplies.
- The second `is_closed` check after `_get_client` is not modelled: the client it returns is never closed.
- The response body is not modelled; a file is represented by its size.
- The traceback text is a parameter.
- Case folding is ASCII only (`lower()` on non-ASCII letters is not modelled).
- Today's date and the local timezone are inputs. The recursive listing's order is arbitrary.
- Steps that raise partway through a pass return only the failure. The files the pass changed before raising are not kept in the model's result, which is enough because a raised pass ends the run.
- The model follows the code on three points a reader may not expect:
  - no checked kind is not a validation error; such a run downloads nothing, its download progress stays at 10, and the passes still run;
  - a category pattern that fails to compile falls back to matching every `.csv`;
  - the refactored organize pass copies a category's files onto a plain file named like the category folder when that folder was not created.
- The statistics request's `.json()` shape is not modelled. `Env.stats` supplies the listed ids directly, or the failure the request raised.
- The worker's fields `total_progress` and `files_completed`, set in its constructor and never read, are not modelled.
- Matching.LegacyMatching: the model gives the script's `rglob("**")` the listing of Python 3.13 and later, where that pattern yields files as well as directories. Before 3.13 it yields directories only. The helper then returns no file (`Matching.LegacyDirectoriesOnly`), and the script's archive and organize passes move nothing.
- Matching.LegacyAgrees: the agreement with the refactored helper holds for the script only from Python 3.13 on, for the reason above.
- Organize.LegacyPreprocessedOrganized: the script's preprocessed files are organized only from Python 3.13 on, for the same reason.
- Dates.FindToken: only the ASCII digits `0`-`9` count as digits. The `regex` module's `\d`, `strptime` and `int()` also accept other Unicode decimal digits, such as the Arabic-Indic ones. A name dated with such digits is archived by the program but is not a dated candidate in the model. `Dates.ParseToken` and the dated pattern in `Matching` share this limit.
- WorkerRun.RunStudy: a press of cancel after the last read of the flag, during the archive or organize pass, sets the flag and emits `cancelled` in the program but changes nothing else. The model places presses only just before a read, so it does not produce that extra `cancelled` signal.
