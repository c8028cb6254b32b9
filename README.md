# Spreadsheet downloader: search, save and batch logic

This project models the decision logic of `download_delegated.py`, a script that
finds a small set of configured Excel workbooks on a Microsoft Graph drive,
downloads each one and stores it under `data/` as a timestamped copy and a
"latest" copy. The network and the filesystem are abstracted:

- a search request is an oracle `query(scope, term)` that gives the list of
  items found, or `None` when the request answered a non-200 status or raised
  (a body that is not JSON included); a 200 answer without a `value` key is an
  empty list;
- a download is an oracle `fetch(scope, id)` that gives the content, or `None`
  when it raised or answered an error status;
- the `data/` directory is a `map<string, Bytes>` field of the `Workspace` class;
- the clock is a function from the position of a file in the batch to the
  timestamp string its save uses;
- the access token is a boolean parameter: whether it was obtained.

Modules, one per component of the script:

- `Base`: `Option`, bytes.
- `Text`: ASCII lower-casing, substring and suffix tests with the meaning of
  Python's `in` and `str.endswith`.
- `Locator`: the file-match test, the search over the personal drive and then
  the site drive (`search_for_file`), as specification functions (`FirstMatch`,
  `TryTerm`, `SearchScope`, `Locate`) and as the loops that compute them
  (`FindFirstMatch`, `SearchTerm`, `SearchDrive`, `SearchForFile`). The
  code repeats the same loop for each scope; the model writes it once
  (`SearchDrive`) and calls it for the personal drive, then the site drive.
  A failed download of a matching item (line 83 or 100) raises inside the
  `try`, is caught at line 84 or 101, and the search goes on with the next
  term, then the next scope; the rest of that term's result list is skipped.
  The ghost out-parameter `requests` records the HTTP requests in the order
  they are sent, which is what the precedence lemmas speak about.
- `Storage`: the size guard, the two output paths, the directory after a save
  (`AfterSave`) and the invariant `LatestBacked`: every latest copy has a
  timestamped copy of the same output name with the same bytes.
- `Downloader`: the configured files, the batch loop (`download_all_files`),
  the exit status (`main`) and their specification (`CountSucceeded`,
  `DirAfter`, `Batch`, `ExitStatus`).

## Model

| member | source | states |
|---|---|---|
| `Text.Lower` | download_delegated.py:79 | lower-casing keeps the length, leaves no upper-case ASCII letter, turns each upper-case letter into its lower-case partner and keeps every other character (ASCII only) |
| `Text.ContainsIff` | download_delegated.py:80 | the substring test holds iff the lower-cased needle occurs at some position of the lower-cased name; the empty needle occurs everywhere |
| `Locator.MatchesMeaning` | download_delegated.py:79-81 | an item name matches iff its lower-cased form contains the lower-cased `filename_contains` and ends with `.xlsx` or `.xls` |
| `Locator.MatchesIgnoresCase` | download_delegated.py:79-80 | the match test gives the same answer whatever the case of the name or of `filename_contains` |
| `Locator.FirstMatchFrom` | download_delegated.py:78-81 | the index returned is a matching item and every item before it does not match; no index means no item matches |
| `Locator.FindFirstMatch` | download_delegated.py:78-82 | the loop over one term's results stops at exactly the first matching item, or finds none |
| `Locator.TryTermChoosesFirstMatch` | download_delegated.py:74-85 | content comes from a term only when its query succeeded, and it is the download of the first matching item of that list, which has an id |
| `Locator.TryTermDownloadsFirstMatch` | download_delegated.py:76-83 | conversely, when the query succeeds and its first matching item has an id, the term's result is the download of that id, and the requests are that query and that download |
| `Locator.SearchScopeNoneIff` | download_delegated.py:71-85 | one scope yields nothing iff every term in it yields nothing: a failed query, no match, or a failed download all fall through to the next term |
| `Locator.SearchScopeFirstSuccess` | download_delegated.py:71-83 | terms are tried in their configured order: the first term that yields content decides what the scope yields |
| `Locator.SearchScopeStaysInScope` | download_delegated.py:72-83 | the loop for one scope sends its queries and downloads to that scope only |
| `Locator.FailedScopeQueriedEveryTerm` | download_delegated.py:71-75 | a scope that yields nothing has queried every configured term |
| `Locator.LocateNoneIff` | download_delegated.py:63-105 | the search returns `None` iff no term in either scope yields a matching item whose download succeeds |
| `Locator.PersonalDriveTakesPrecedence` | download_delegated.py:70-100 | when some term yields content on the personal drive, that is the result and no request goes to the site drive |
| `Locator.SiteDriveOnlyAfterPersonalFails` | download_delegated.py:87-92 | a request to the site drive implies that every term failed on the personal drive, that each was queried there, and that all personal-drive requests came first |
| `Locator.SearchTerm` | download_delegated.py:74-85 | one term's query, first-match selection and download give the content and requests of `TryTerm`: a failed query, no match, a missing id or a failed download all give no content |
| `Locator.SearchDrive` | download_delegated.py:71-85 | the loop over terms returns as soon as a term yields content, and returns what the scope specification yields with the same requests |
| `Locator.SearchForFile` | download_delegated.py:63-105 | the whole search returns the content and request sequence of `Locate`: personal drive first, then the site drive |
| `Storage.AcceptsIff` | download_delegated.py:122-124 | the guard accepts content iff it has at least 1000 bytes, and accepted content is never empty |
| `Storage.LatestIsNotTimestamped` | download_delegated.py:132-137 | with a `YYYYmmdd_HHMMSS` timestamp, no latest path equals any timestamped path |
| `Storage.LatestPathInjective` | download_delegated.py:137 | different output names have different latest paths |
| `Storage.TimestampedPathInjective` | download_delegated.py:126-132 | for `YYYYmmdd_HHMMSS` timestamps, a timestamped path determines its output name and its timestamp |
| `Storage.AfterSave` | download_delegated.py:120-144 | rejected content leaves the directory unchanged; accepted content is stored under both paths, two keys at most are added, and every other path keeps its content |
| `Storage.SaveKeepsLatestBacked` | download_delegated.py:131-139 | a save with a well-formed timestamp keeps every latest copy backed by an identical timestamped copy of the same output name |
| `Downloader.Workspace.SaveFile` | download_delegated.py:120-144 | returns whether the guard accepted the content, and the directory becomes `AfterSave` of the old one: identical bytes at both paths, nothing else changed, or nothing changed at all |
| `Downloader.SucceedsIff` | download_delegated.py:168-172 | a descriptor succeeds iff the search delivered content of at least 1000 bytes; the batch's own non-empty test adds nothing to the save guard |
| `Downloader.CountSucceeded` | download_delegated.py:165-179 | the number of successes never exceeds the number of descriptors |
| `Downloader.CountFailed` | download_delegated.py:171-179 | the number of failures (no content, empty content, or content the guard rejects) never exceeds the number of descriptors |
| `Downloader.CountsPartition` | download_delegated.py:165-179 | each descriptor adds to exactly one count: successes plus failures equal the number of descriptors |
| `Downloader.CountIsSetSize` | download_delegated.py:165-179 | the success counter equals the number of positions of the list whose descriptor succeeds |
| `Downloader.Batch` | download_delegated.py:146-188 | the batch finishes iff the token was obtained, with the two counts `CountSucceeded` and `CountFailed`, which add up to the number of descriptors |
| `Downloader.AllSucceedIff` | download_delegated.py:194-198 | the success count equals the number of descriptors iff every descriptor finds non-empty content that the guard accepts |
| `Downloader.ExitZeroIff` | download_delegated.py:190-202 | the exit status is 0 iff the token was obtained and every configured file succeeded, and 1 iff the token failed or some file failed |
| `Downloader.BatchTouchesOnlyOwnPaths` | download_delegated.py:161-179 | a path that is not an output path of any processed descriptor is neither added, removed nor changed by the batch |
| `Downloader.BatchKeepsLatestBacked` | download_delegated.py:161-179 | with a well-formed clock, the batch keeps every latest copy backed by an identical timestamped copy |
| `Downloader.Workspace.DownloadAllFiles` | download_delegated.py:146-188 | the loop adds one to exactly one counter per descriptor: the success counter is `CountSucceeded` and the failure counter `CountFailed` of the processed prefix, and the directory is the in-order fold of the saves |
| `Downloader.Workspace.Run` | download_delegated.py:190-202 | runs the batch over the three configured files and returns 1 when an error escaped or a file failed, 0 otherwise |

## Left out

- Token acquisition (the OAuth 2.0 refresh-token grant) is a foreign call with secrets from the environment; only whether it succeeded is a parameter.
- HTTP requests, URL construction and the Graph endpoints are the `query` and `fetch` oracles; search terms are not escaped into URLs in the model.
- `datetime.now()` and `strftime` are the `clock` parameter; the `LatestBacked` lemmas assume it reads in the `YYYYmmdd_HHMMSS` form.
- Unicode `str.lower()` is restricted to ASCII lower-casing.
- Item fields that are present but not strings (a `name` that is not text) are not modelled; a missing `name` is the empty string and a missing `id` is a caught error, as in the code.
- Exceptions from `os.makedirs` or from writing a file are not modelled, so the batch's own `except` branch (lines 177-179) has no input that reaches it in the model; such an error would count as one failure.
- `print` logging, the `description` field's only use (log messages), and `exit()` as a process action: the exit status is a returned value.
- `download_upload.py` is not part of this model: it is a single download followed by an upload through the Graph API, with no decision logic beyond an HTTP status check.

