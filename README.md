# TikTok-to-YouTube uploader: the resumable transfer pass

This project models, in Dafny, the core of `tiktok_uploader.py`. That core
moves the videos of one TikTok account to a YouTube channel, one pass per
run. Its history file holds a progress record: `current_index` (the
cursor) and `uploaded_ids`. Each pass resumes from that record. It takes
one video in single mode, or every remaining video in bulk mode.

- A video whose id is already recorded is skipped.
- A failed download or upload is counted and changes nothing.
- A publication appends the id, moves the cursor past the video and saves
  the record at once.

Modules:

- `Wrappers`: `Option`, for a dictionary key or a file that may be missing.
- `Videos`: the listing entries that the extractor reports, and
  `get_all_tiktok_videos`. That function builds item descriptors with
  defaults for missing fields and a URL fallback chain, then reverses the
  newest-first listing to oldest first.
- `History`: the progress record and the defaults for a missing history
  file or key (`load_uploaded_history` and the two `get` calls in `main`).
- `Metadata`: the request body of `upload_to_youtube`. The title is
  truncated to 100 characters. The description is the item's own or a
  default, followed by a fixed suffix. Tags, category and visibility are
  fixed.
- `Pass`: the reference semantics of one pass. `Step` is one loop
  iteration; `Fold` runs it over the window's slots; `OnePass` adds the two
  early exits. The lemmas state what a pass does to the record, the saves
  and the counters.
- `Uploader`: `main` as imperative code. The class `UploadHistory` holds
  the `cursor` and `uploadedIds` fields, which its methods update in place.
  A ghost log `saved` records every snapshot written to the history file.
  `RunPass` is proved to do exactly what `Pass.OnePass` says.

The external collaborators are parameters:
- the listing is an `Option<seq<Entry>>` (`None` when the extractor raised
  or reported no entries);
- the stored history is an `Option<StoredHistory>` (`None` when there is
  no file);
- the result of downloading and uploading each video is an `Outcome`
  oracle (`DownloadFails`, `UploadFails` or `Published`), indexed by list
  position.

The oracle is consulted only for a video whose id is not yet recorded.

In bulk mode the cursor moves to `actual_index + 1` after any skip or
publication (`tiktok_uploader.py:223`, `:257`). A failed item followed by a
later skip or success in the same pass is therefore passed over, and no
later pass retries it. `Pass.BulkPassSkipsPastFailure` shows this
on two items, and `Pass.PassRecord` states the general rule: the cursor ends
one past the last item skipped or published.

## Model

| member | source | states |
|---|---|---|
| `Videos.VideoPage` | tiktok_uploader.py:91 | the fallback locator is `https://www.tiktok.com/@`, then the account name, then `/video/` and the raw entry id rendered as an f-string would (`None` when missing) |
| `Videos.Describe` | tiktok_uploader.py:88-92 | a missing id becomes `unknown` and a missing title `TikTok Video`; the locator is the first non-empty of `url`, `webpage_url` and the video page, whose id part renders a missing id as `None`; the locator is never empty; the descriptor has no description |
| `Videos.DescribeAll` | tiktok_uploader.py:86-92 | one descriptor per entry, in entry order |
| `Videos.Reverse` | tiktok_uploader.py:95 | same length; element `k` is element `len-1-k` of the input |
| `Videos.ListVideos` | tiktok_uploader.py:83-103 | no listing or a failed extraction gives the empty list; otherwise one descriptor per entry, oldest first (the reverse of the listing) |
| `History.LoadHistory` | tiktok_uploader.py:28-33 | no file gives cursor 0 and no ids; a file missing either key takes the default of the `get` calls at lines 191-192 (cursor 0, no ids) |
| `Metadata.TruncateTitle` | tiktok_uploader.py:143-144 | a title of at most 100 characters is kept; a longer one becomes its first 97 characters followed by `...`, exactly 100 long; the result is never longer than 100 |
| `Metadata.TruncateTitleIdempotent` | tiktok_uploader.py:144 | truncating an already truncated title changes nothing |
| `Metadata.LongTitleExample` | tiktok_uploader.py:144 | a 120-character title becomes 97 of its characters plus `...`, 100 in all |
| `Metadata.DescriptionOf` | tiktok_uploader.py:251 | the item's description if it has one, otherwise `Check out my other content!` |
| `Metadata.BodyFor` | tiktok_uploader.py:146-157 | the body's title is the item's title truncated as `TruncateTitle` states (at most 100 characters, the title itself when it fits); the body carries the description followed by the fixed promotional suffix, tags `TikTok`, `shorts` and the account name, category 22, public visibility, not made for kids |
| `Metadata.DefaultDescriptionUsed` | tiktok_uploader.py:149 | an item without a description is published with the default text followed by the suffix |
| `Pass.WindowLength` | tiktok_uploader.py:210-216 | a pass past both early exits visits at least one item, never past the list end, and in bulk mode exactly up to the list end |
| `Pass.Classify` | tiktok_uploader.py:231-235 | an item is skipped exactly when its id is already recorded |
| `Pass.SlotsFrom` | tiktok_uploader.py:222-223 | slot `i` is list index `at + i` with that item and its outcome; in bulk mode the delay follows every slot but the last |
| `Pass.Slots` | tiktok_uploader.py:210-223 | the window is `all_videos[current_index]` in single mode and `all_videos[current_index:]` in bulk mode, in order, with `actual_index = current_index + idx` |
| `Pass.Effect` | tiktok_uploader.py:233-257 | the record after one item: no contract of its own; `Pass.StepEffect` states it (a skip sets the cursor to `actual_index + 1`, a publication also appends the id, a failure leaves the record) |
| `Pass.Step` | tiktok_uploader.py:230-274 | one loop iteration, the reference for `UploadHistory.Visit`: no contract of its own; `Pass.StepEffect` states its three branches, the save after each change and the counters |
| `Pass.Fold` | tiktok_uploader.py:222-274 | the `for` loop over the window, the reference for `UploadHistory.ProcessWindow`: no contract of its own; `Pass.FoldExtends`, `Pass.FoldSplit`, `Pass.FoldCounts`, `Pass.FoldIds`, `Pass.FoldPublishesNewIds`, `Pass.FoldNoDuplicates`, `Pass.FoldCursor`, `Pass.FoldDelays`, `Pass.FoldLastSave` and `Pass.FoldAllRecorded` state it from any start state |
| `Pass.Run` | tiktok_uploader.py:209-274 | the loop over the whole window from the loaded record: no contract of its own; `Pass.ItemAt`, `Pass.CursorNeverFalls`, `Pass.PassCounts` and `Pass.PassRecord` state it |
| `Pass.OnePass` | tiktok_uploader.py:197-274 | the whole pass, the reference for `UploadHistory.RunPass`: the two early exits, then `Run`; no contract of its own; `Pass.PassCounts` and `Pass.PassRecord` state it |
| `Pass.ReachIsLastAdvance` | tiktok_uploader.py:233 | `Reach` is one past the last window position that was skipped or published; no later position was either |
| `Pass.StepEffect` | tiktok_uploader.py:230-274 | a recorded id is skipped with no download or upload, sets the cursor to `actual_index + 1` and saves; a download or upload failure adds one failure and leaves the record and the saves alone; a publication appends the id, sets the cursor to `actual_index + 1`, saves, uses the item's metadata and waits exactly when the slot says so |
| `Pass.FoldExtends` | tiktok_uploader.py:222-274 | the loop only appends: one event per item, and the saves and ids of the state before are prefixes of those after |
| `Pass.FoldSplit` | tiktok_uploader.py:222 | running the loop over two pieces of a window in turn is the same as running it over the whole |
| `Pass.FoldCounts` | tiktok_uploader.py:219-274 | successes + failures + skips grows by the number of items; one save per skip and per publication; the ids grow by one per publication |
| `Pass.FoldIds` | tiktok_uploader.py:254-256 | the ids become the old ids followed by the ids of the published items, in window order |
| `Pass.FoldPublishesNewIds` | tiktok_uploader.py:231-256 | no published id was recorded when the loop began |
| `Pass.FoldNoDuplicates` | tiktok_uploader.py:231-256 | a duplicate-free id list stays duplicate-free even when the video list repeats an id |
| `Pass.FoldCursor` | tiktok_uploader.py:223-257 | over slots at consecutive indices, the cursor ends one past the last slot skipped or published, or stays put; it never falls and never passes the window |
| `Pass.FoldDelays` | tiktok_uploader.py:266-269 | in single mode nothing waits; in bulk mode every publication waits except one in the last slot, and skips and failures never wait |
| `Pass.FoldLastSave` | tiktok_uploader.py:233-258 | the last snapshot saved is always the current record |
| `Pass.FoldAllRecorded` | tiktok_uploader.py:231-235 | when every id is already recorded, every item is skipped: the ids and the success and failure counts are unchanged, the cursor moves past the last item, and the outcomes are never consulted |
| `Pass.ItemAt` | tiktok_uploader.py:222-223 | the item at window position `j` is one `Step` from the state after the items before it, its event is the pass's `j`-th, and the cursor before it is at most its list index |
| `Pass.CursorNeverFalls` | tiktok_uploader.py:223-257 | within a pass the cursor after more items is at least the cursor after fewer |
| `Pass.PassCounts` | tiktok_uploader.py:197-274 | an empty list or a cursor at or past its end processes nothing, leaves the record and saves nothing; otherwise the window has 1 item in single mode and `len - current_index` in bulk mode, successes + failures + skips equals it, the saves number successes + skips, the ids grow by the successes, and the delays count the publications except one in the last slot (none in single mode) |
| `Pass.PassRecord` | tiktok_uploader.py:223-288 | the final ids are the old ones followed by the published ones, each new to the record; no duplicate appears if there was none; the cursor ends one past the last item skipped or published (or unchanged), within `[current_index, len]`; the last save is the final record |
| `Pass.AllRecordedPass` | tiktok_uploader.py:202-235 | a pass whose window is all recorded leaves the ids, counts no success or failure, moves the cursor past the window whatever the outcomes, and in bulk mode the next pass has nothing left |
| `Pass.BulkPassSkipsPastFailure` | tiktok_uploader.py:222-274 | bulk mode with a failed download followed by a publication ends at cursor 2 with only the second id, and the next pass exits as all uploaded |
| `Pass.SingleModeScenario` | tiktok_uploader.py:214-274 | items A, B, C with A recorded and cursor 1: publishing B gives cursor 2 with A and B; a failed upload of B leaves the record and saves nothing |
| `Uploader.SelectWindow` | tiktok_uploader.py:210-216 | the window is one item at the cursor in single mode and everything from the cursor in bulk mode, element `i` being list index `cursor + i` |
| `Uploader.UploadHistory.constructor` | tiktok_uploader.py:190-192 | the in-place record starts as loaded, with nothing saved |
| `Uploader.UploadHistory.Save` | tiktok_uploader.py:35-38 | a save writes a snapshot of the whole current record |
| `Uploader.UploadHistory.Visit` | tiktok_uploader.py:230-274 | one iteration updates the fields in place and saves exactly as `Pass.Step` says, returning how the item ended |
| `Uploader.UploadHistory.ProcessWindow` | tiktok_uploader.py:209-274 | the loop leaves the fields, the saves, the events and the `successful_uploads`/`failed_uploads` counters equal to the reference pass |
| `Uploader.UploadHistory.RunPass` | tiktok_uploader.py:197-290 | the pass is `Pass.OnePass`: early exits report without touching the record; otherwise the summary reports the counters, the cursor against the list length (remaining = `len - current_index`), the cursor never falls, ids are only appended and stay duplicate-free, and the last save is the final record |
| `Uploader.Transfer` | tiktok_uploader.py:176-290 | `main`: load the history (no file is a fresh start), list the videos oldest first, and run one pass; the final record and the saves are `Pass.OnePass`'s; the report is "no videos" for an empty list, "all uploaded" with the list length when the cursor is at or past the end, and otherwise the summary of the success and failure counters, the final cursor against the list length, and each item's event; a failed listing reports no videos and saves nothing |

## Left out

- YouTube authentication and the pickled token (`tiktok_uploader.py:40-62`):
  foreign library calls and an on-disk credential blob. The pass authenticates
  once, after both early exits; the model has no session.
- The extractor's network calls for listing and downloading
  (`tiktok_uploader.py:73-83`, `117-137`). The listing is an input, and each
  download is the `Outcome` oracle. The reuse of an already downloaded file
  (`tiktok_uploader.py:111-113`) is a filesystem check and counts as a
  successful download.
- The resumable chunked upload loop and `MediaFileUpload`
  (`tiktok_uploader.py:159-174`): library I/O that loops until the server
  answers. The YouTube id it returns is never recorded, so it is not modelled.
- JSON reading and writing (`tiktok_uploader.py:28-38`). A save appends a
  snapshot to the ghost log `saved`. A loaded file is a record whose two keys
  may be missing. A key present with a `null` value, values of other JSON
  types, and a malformed file (which makes `json.load` raise) are not
  modelled.
- Save failures. Saves are infallible in the model. In the code, a failed
  save after an upload is inside the `try` and is counted as an upload
  failure, while a failed save on the skip path ends the pass with the error.
- `time.sleep`, `datetime.now`, every `print`, and `setup_directories`
  (`tiktok_uploader.py:23-26`, `182-184`, `269`, `277-290`): side effects with
  no logic. The delay is the `waits` flag of a publication.
- `Uploader.UploadHistory.RunPass`: does not model the `KeyError` the
  summary print raises when the history file lacks `current_index` and no
  item advanced the cursor. The report gives the defaulted cursor 0 instead.
- `Videos.Describe`: does not model a listing key that is present with a
  null value. `Option` stands for the key being present or absent, so a null
  `id` or `title` takes the default here. In the code, `entry.get` returns
  `None` for such a key (`tiktok_uploader.py:89-90`): a null id would be
  recorded as JSON `null`, and a null title makes `len(title)` at line 144
  raise inside the `try`, so the item counts as a failed upload.
- A negative cursor loaded from the file, which Python would read as an
  index from the end: `RunPass` and `Transfer` require a cursor of at least 0.
- The account name comes from the environment (`tiktok_uploader.py:14`). It
  is the `username` parameter.
