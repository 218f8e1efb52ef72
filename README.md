# GlassDrop core, modelled in Dafny

GlassDrop is a GTK front end for the `yt-dlp` media downloader. Its logic lives in the `GlassDrop` window class of `app/main.py`. This project models the parts of that class that are not widget plumbing, and proves what they promise.

- **Catalog** (`Catalog.dfy`): the body of `get_video_info` that turns the extractor's `formats` records into the format catalog.
  - Video records are grouped by `(height, ext)`. Each key keeps the first record of strictly largest `tbr`.
  - The groups are sorted by height descending, then ext ascending.
  - At most one "Audio Only" row follows, chosen by the largest `(abr or 0, tbr or 0)`, the first such record on ties.
  - The result gives the dropdown rows, `dropdown_format_ids`, `video_format_ids` and `audio_format_id`.
  - The grouping loop is a method that updates the dictionary, proved against a reference definition. The sort is specified up to uniqueness: any correct sort yields the same list.
- **Presets** (`Presets.dfy`): `get_selected_format_id`, `get_selected_preset`, the preset table and `start_download`.
  - A preset kind resolves to a format id or to a selector plus post-processing arguments.
  - A request is refused when neither is set.
- **DownloadQueue** (`DownloadQueue.dfy`): `enqueue_download`, `process_next_download` and the `finish` callback.
  - A class with the queue, the `is_downloading` flag, every item's status and the history.
  - Each method is proved equal to a state function. Lemmas prove FIFO order, at most one download at a time, and that statuses only move Queued → Downloading → Done/Failed.
- **Monitor** (`Monitor.dfy`): the logic of `download_video` that does not depend on the running process.
  - The speed-limit choice and the argument vector.
  - The scan of the output lines: a 20-line error tail and the last `Destination:` path.
  - The composed status line and the two failure texts.
- **Fetch** (`Fetch.dfy`): `fetch_info`, `safe_idle`, `get_video_info` and `clear_ui` as a window class.
  - Deferred callbacks are an explicit list. Each callback carries the token it captured, and the main loop runs it only while that token is current.
- **Markdown** (`Markdown.dfy`): `clean_markdown`, which tidies the supported-sites list.
- `Text.dfy` holds Python's string operations (`isspace`, `strip`, `join`, `split`, `str(int)`, string order). `Wrappers.dfy` holds `Option`.

Two behaviours of the code shape the model:
- `get_video_info` assigns `formats_all`, the catalog fields, `current_title` and `preset_options` without checking its token (app/main.py:810-863). Only the widget updates go through `safe_idle`. `Fetch.GetVideoInfoSpec` models this, and "## Findings" records it.
- The shipped preset table maps "Best (auto)" to the selector `"best"` (app/main.py:877), so `Presets.TableResolution` proves that it resolves to that selector and no format id. The `best`/`worst`/`audio_best`/`audio_worst` branches of `start_download` are modelled, but no preset in the table reaches them.

## Model

| member | source | states |
|---|---|---|
| Catalog.GroupVideo | app/main.py:814-830 | the grouping loop's dictionary is a correct grouping: one slot per `(height, ext)` key of a record with truthy height and `vcodec != "none"` (ext `or "unknown"`), slots in first-seen order, each slot holding the first record of strictly maximal `tbr or 0` for its key |
| Catalog.GroupedCorrect | app/main.py:814-830 | for every list of records, the dictionary the loop builds meets that reference definition |
| Catalog.StepCorrect | app/main.py:815-830 | one pass of the loop keeps the dictionary correct for the records seen so far |
| Catalog.StepSkips | app/main.py:816-819 | a record without a truthy height, or with `vcodec == "none"`, leaves the dictionary correct unchanged |
| Catalog.StepAdds | app/main.py:823-825 | a video record whose key has no slot opens a new slot at the end, and it is the right choice for that key |
| Catalog.StepUpdates | app/main.py:826-830 | a video record with a known key replaces the slot's record exactly when its `tbr` is strictly larger, so ties keep the first |
| Catalog.FirstMaxTbrUnique | app/main.py:827-830 | each key has at most one first record of maximal `tbr` |
| Catalog.BeforeTotal | app/main.py:837 | the sort key `(-height, ext)` orders any two distinct keys |
| Catalog.BeforeTransitive | app/main.py:837 | the sort key order is transitive |
| Catalog.BeforeIrreflexive | app/main.py:837 | no key sorts before itself |
| Catalog.Sort | app/main.py:837 | sorting the groups gives a permutation, strictly ordered by height descending, then ext ascending |
| Catalog.Insert | app/main.py:837 | inserting a group with a fresh key into a sorted list keeps it sorted and adds exactly that group |
| Catalog.SortedUnique | app/main.py:837 | two strictly sorted permutations of the same groups are equal, so Python's sort yields the modelled list |
| Catalog.VideoGroups | app/main.py:832-838 | the video part of the catalog is sorted and is a correct grouping |
| Catalog.AudioCandidates | app/main.py:840-843 | every candidate is a record of the input with `vcodec == "none"` and an `acodec` other than `None`/`"none"`; every such record is a candidate; the list is empty iff no record qualifies |
| Catalog.AudioCandidatesAppend | app/main.py:840-843 | the candidates of a concatenation are the first part's candidates followed by the second part's: the comprehension keeps input order |
| Catalog.AudioCandidatesOne | app/main.py:840-843 | a single record is kept iff it qualifies as audio |
| Catalog.MaxIndex | app/main.py:846-849 | `max` with key `(abr or 0, tbr or 0)` picks a maximal candidate that every earlier candidate is strictly below, i.e. the first maximum |
| Catalog.BestAudio | app/main.py:844-849 | the best audio record is absent iff there is no candidate, and otherwise is the first maximal candidate in input order |
| Catalog.BestAudioIsRef | app/main.py:844-849 | `max` over the candidate list picks the same record as the reference definition over all records |
| Catalog.VideoEntries | app/main.py:833-838 | each video row is labelled `"<height>p - <ext>"` with its group's format id, in group order |
| Catalog.Ids | app/main.py:860-861 | the id list holds each row's format id, in row order |
| Catalog.Assemble | app/main.py:851-861 | the rows are the video rows followed by at most one `"Audio Only - <ext or 'audio'>"` row; `dropdown_format_ids` is `video_format_ids` followed by the audio id when there is one |
| Catalog.BuildCatalog | app/main.py:810-861 | the whole catalog: video ids in sorted group order, dropdown ids equal the row ids, audio id present iff some record is an audio candidate, and then the id of the first best one |
| Catalog.VideoLabelInjective | app/main.py:834 | two keys with the same `"<h>p - <ext>"` label are the same key |
| Catalog.CatalogLabelsDistinct | app/main.py:834-857 | the format dropdown never lists the same label twice |
| Presets.SelectedFormatId | app/main.py:597-601 | the id is present iff the selected index is in range, and is then the dropdown id at that index |
| Presets.SelectedPreset | app/main.py:603-607 | the preset is present iff the selected index is in range, and is then the entry at that index |
| Presets.ResolveByKind | app/main.py:940-955 | `selected` gives the dropdown id; `selector`/`audio_format` give the preset's format as selector plus its post arguments and never a format id; `best`/`worst` give the first/last video id or none; the audio kinds give the audio id |
| Presets.ResolveNoPreset | app/main.py:934-940 | without a preset nothing is resolved |
| Presets.TableResolution | app/main.py:876-894 | the shipped table only uses the kinds `selected`, `selector` and `audio_format`; entry 0 alone is `selected`; every other entry resolves to a non-empty selector and no format id; "Best (auto)" resolves to the selector `"best"` |
| Presets.StartDownload | app/main.py:928-975 | a request is refused iff the URL (current URL, else the stripped entry text) is empty or neither the format id nor the selector is truthy |
| Presets.StartDownloadRequest | app/main.py:957-975 | an enqueued request has a URL, a truthy format id or selector (never both set), and the current title or else the URL as title |
| Presets.SelectedPresetRequest | app/main.py:943-967 | with "Selected format", an out-of-range format row refuses the request, and an in-range row downloads that row's id under that row's label |
| Presets.BestOnEmptyRefused | app/main.py:948-951 | the `best`/`worst` kinds on a catalog without video ids enqueue nothing |
| DownloadQueue.Queue.Enqueue | app/main.py:632-643 | enqueue appends the item as Queued, then starts the next download when idle; the queue invariant is kept |
| DownloadQueue.Queue.ProcessNext | app/main.py:645-657 | busy or empty: no change; otherwise the head item leaves the queue, becomes Downloading and is the active item |
| DownloadQueue.Queue.Finish | app/main.py:1061-1068 | the active item becomes Done or Failed, a success adds a history entry, the flag clears and the next item starts |
| DownloadQueue.EmptyValid | app/main.py:642-651 | the empty queue satisfies the invariant |
| DownloadQueue.AtMostOneDownloading | app/main.py:645-651 | under the invariant at most one item is Downloading |
| DownloadQueue.ProcessNextFifo | app/main.py:645-652 | a busy or empty queue is left unchanged, and otherwise the item taken is the head of the queue |
| DownloadQueue.ProcessNextValid | app/main.py:645-652 | starting a download restores the invariant and only moves statuses forward |
| DownloadQueue.PushCoherent | app/main.py:642 | appending a Queued item at the tail keeps the queue coherent |
| DownloadQueue.EnqueueValid | app/main.py:632-643 | enqueueing keeps the invariant, appends the item, leaves the history alone, and starts the new item exactly when nothing was downloading |
| DownloadQueue.FinishValid | app/main.py:1061-1068 | finishing keeps the invariant; the active item ends Done or Failed by the return code; history grows by `(title, dest)` only on success; the next queued item becomes active |
| Monitor.SpeedLimitFor | app/main.py:561-568 | index 0 and any index out of range give no limit; 1-3 give "1M", "2M", "5M" |
| Monitor.SpeedLimitInjective | app/main.py:563-568 | two indexes giving the same limit are equal |
| Monitor.BuildCommand | app/main.py:987-996 | the `cmd.extend` chain builds exactly the argument vector `Argv` |
| Monitor.ArgvLayout | app/main.py:987-996 | the base command first, then `-f <format_id>` (preferred) or `-f <selector>`, then `--limit-rate <speed>` when set, then the post arguments, with the URL last |
| Monitor.EnqueuedCommandSelectsFormat | app/main.py:957-996 | every request `start_download` enqueues produces a command with `-f` and its format right after the base command, and the URL last |
| Monitor.Tail | app/main.py:1010-1012 | the tail keeps the last `min(len, n)` elements |
| Monitor.TailPush | app/main.py:1010-1012 | appending one line and popping the oldest once past 20 is the tail of the longer list |
| Monitor.ErrorTailBound | app/main.py:1009-1012 | the error tail holds at most 20 lines: all kept lines when at most 20, otherwise the last 20 |
| Monitor.FirstMatch | app/main.py:1044 | the match position is the leftmost one where `Destination:` plus one whitespace character and one more character occur |
| Monitor.Captured | app/main.py:1044-1046 | there is a capture iff the line matches, and the capture is non-empty without a line break |
| Monitor.CapturedPath | app/main.py:1044-1046 | for a line `pre + "Destination:" + w + path + rest` whose leftmost match is that tag, with `w` whitespace, `path` non-empty without a line break, and `rest` empty or starting at a line break, `group(1)` is `path` and the reported destination is `path.strip()` |
| Monitor.LastDestAppend | app/main.py:1044-1046 | the destination after more lines is the last match among them, else the earlier one: the last match wins |
| Monitor.NoDestination | app/main.py:1005-1046 | lines without a match leave the destination `None` |
| Monitor.ScanStep | app/main.py:1008-1046 | one line's iteration updates the tail and the destination as the reference functions do |
| Monitor.ScanLines | app/main.py:1005-1046 | the scan loop ends with the reference error tail and the last destination |
| Monitor.KeptNoBreak | app/main.py:1008-1010 | the right-stripped output lines contain no line break |
| Monitor.FailureTextLines | app/main.py:1052 | the download failure text is "Download failed." for an empty tail, and otherwise splits on `\n` back into the tail |
| Monitor.FetchErrorText | app/main.py:798 | the fetch error text is stripped stderr when not blank, else stripped stdout when not blank, else "Unknown error"; it is never empty or padded |
| Monitor.StatusTextLayout | app/main.py:1036-1043 | the status line is "Downloading..." followed by " • N%", " • speed" and " • ETA e" for exactly the truthy tokens |
| Fetch.Tagged | app/main.py:782-788 | every callback scheduled by one call carries that call's token and its effect, in order |
| Fetch.LiveTagged | app/main.py:782-788 | callbacks tagged with the current token all run in order; callbacks tagged with any other token do nothing |
| Fetch.LiveStale | app/main.py:784-785 | callbacks whose tokens are all older than the current one do nothing |
| Fetch.FormatEffectsShow | app/main.py:866-874 | with rows, the dropdown shows their labels and both controls are enabled; without rows both are disabled |
| Fetch.ThumbEffectsShow | app/main.py:900-907 | a thumbnail URL shows the saved thumbnail; either way the spinner stops |
| Fetch.LoadedEffectsShow | app/main.py:863-909 | running a successful fetch's callbacks gives the window the title, labels, presets, thumbnail and "Info Loaded" |
| Fetch.FailureEffectsShow | app/main.py:797-802 | running a failed fetch's callbacks sets "Failed to fetch info", stops the spinner and adds one "Fetch Failed" dialog with the error text |
| Fetch.FetchInfoStalesPending | app/main.py:770-780 | a blank entry changes nothing; otherwise the token strictly grows, the URL is remembered, and every callback already pending is inert |
| Fetch.ClearUiStalesPending | app/main.py:1072-1108 | `clear_ui` strictly grows the token, empties the catalog and the URL, and makes every pending callback inert |
| Fetch.IssuedTagged | app/main.py:782-788 | scheduling under an issued token keeps every pending token issued |
| Fetch.TokenOnlyMovesForward | app/main.py:790-909 | the worker and the main loop never change the token and keep pending tokens issued |
| Fetch.CurrentFetchShows | app/main.py:790-909 | when the only callbacks still queued are stale ones (as `fetch_info` and `clear_ui` leave them), a successful fetch whose token is current, once the main loop has run, shows exactly the loaded window, and the catalog is the one built from its records |
| Fetch.CurrentFailureShows | app/main.py:797-802 | when the only callbacks still queued are stale ones, a failed fetch whose token is current reports the failure on screen and leaves the catalog alone |
| Fetch.StaleFetchInvisible | app/main.py:782-788 | a fetch whose token is no longer current changes nothing on screen, as written and guarded |
| Fetch.StaleFetchOverwritesCatalog | app/main.py:810-863 | as written, a stale successful fetch still replaces the catalog and the title while the URL stays the newer one |
| Fetch.GuardedFetchKeepsData | app/main.py:810-863 | with the token also guarding the data, a stale fetch changes nothing but the inert callback list, and a current one behaves as written |
| Fetch.Window.FetchInfo | app/main.py:770-780 | the window moves as `FetchInfoSpec` says; a token is returned iff the stripped entry is non-empty, and it is the new, larger current token |
| Fetch.Window.SafeIdle | app/main.py:782-788 | one callback is appended with its captured token; nothing else changes |
| Fetch.Window.SafeIdleAll | app/main.py:782-788 | a run of `safe_idle` calls appends the tagged effects in order |
| Fetch.Window.StoreFetched | app/main.py:810-863 | the worker's direct assignments of the format list, the catalog, the title and the presets |
| Fetch.Window.GetVideoInfo | app/main.py:790-909 | the worker schedules the outcome's callbacks under its token and, on success, assigns the data whatever the token |
| Fetch.Window.GetVideoInfoGuarded | app/main.py:790-909 | the corrected worker: it assigns the data only while its token is current |
| Fetch.Window.ClearUi | app/main.py:1072-1108 | new token; URL, title, catalog, presets and widgets reset to their idle values |
| Fetch.Window.Drain | app/main.py:783-787 | the main loop runs the pending callbacks in order; those with a stale token do nothing |
| Markdown.SplitLines | app/main.py:472 | `splitlines` gives lines with no line break |
| Markdown.SplitLinesJoin | app/main.py:472 | lines without breaks whose last line is not empty, joined with `\n`, split back into the same lines |
| Markdown.DropHashes | app/main.py:477-478 | `lstrip("#")` leaves no leading `#` |
| Markdown.CloseFrom | app/main.py:481 | the link's text closes at the first `](` that a later `)` follows, as the lazy `(.+?)` needs |
| Markdown.UnlinkPlain | app/main.py:481 | text without `[` holds no link and is unchanged |
| Markdown.UnlinkLink | app/main.py:481 | `[text](target)` is replaced by `text`, and the scan goes on after the `)` |
| Markdown.RemoveStars | app/main.py:482 | removing `**` from the left leaves no two stars side by side, and text without stars is unchanged |
| Markdown.RemoveStarsPrefix | app/main.py:482 | text without stars is kept as it is, whatever follows it |
| Markdown.RemoveStarsPair | app/main.py:482 | at the first star, a pair of stars is dropped and the scan goes on after it |
| Markdown.RemoveStarsLone | app/main.py:482 | at the first star, a star not followed by another is kept and the scan goes on after it |
| Markdown.RemoveTicks | app/main.py:482 | no backquote is left, nothing else is added, and text without backquotes is unchanged |
| Markdown.RemoveTicksAppend | app/main.py:482 | removing backquotes distributes over concatenation, so every other character is kept in order |
| Markdown.RemoveTicksChar | app/main.py:482 | a single character is dropped iff it is a backquote |
| Markdown.CleanLinePlain | app/main.py:473-483 | a line without `#`, `[`, `*`, backquote or `-` is only stripped |
| Markdown.CleanLineHeading | app/main.py:477-478 | `"### text"` becomes `text` |
| Markdown.CleanLineBullet | app/main.py:479-480 | `"- text"` becomes `text` |
| Markdown.CleanLineChars | app/main.py:473-483 | every character of a cleaned line comes from the line |
| Markdown.CleanLineShape | app/main.py:473-483 | a cleaned line has no backquote and no line break |
| Markdown.CleanOne | app/main.py:473-483 | the loop body's in-place rewrites of `line` give `CleanLine` |
| Markdown.CleanLines | app/main.py:471-483 | one cleaned line per input line, in order |
| Markdown.CleanMarkdown | app/main.py:470-484 | the accumulator loop returns the stripped `\n`-join of the cleaned lines |
| Markdown.CleanShape | app/main.py:484 | the cleaned text holds no backquote and neither starts nor ends with whitespace |

## Left out

- GTK widgets, dialogs, CSS, drag-and-drop, clipboard and key handling. The window state in `Fetch` keeps only the widget properties that the fetch touches.
- `subprocess`, the Flatpak check in `yt_dlp_base_cmd`, and process termination in `clear_ui`. The base command is a parameter, and a process's outcome and output lines are inputs.
- Threads and `GLib.idle_add`. Deferred work is an explicit list of token-tagged callbacks run by `Fetch.Window.Drain`. Interleavings of worker and main loop are not modelled: `GetVideoInfo` is one step.
- `json.loads`, the thumbnail download, the supported-sites download and its disk cache. The decoded title, thumbnail URL and format records are inputs.
- Bitrates are `real`: Python floats, including NaN, are not modelled. Heights are integers.
- Float percent parsing and the progress fraction (app/main.py:1013-1018).
- The regex extraction of the percent, speed and ETA tokens (app/main.py:1024-1034). `Monitor.StatusText` takes them as optional strings.
- `os.path.abspath` on the destination (app/main.py:1056).
- The status and progress updates `download_video` posts without a token, and the "Download Failed" dialog (app/main.py:985, 1051-1059).
- `on_preset_changed` and `select_format_id` (app/main.py:570-595). They only move the format dropdown's selection.
- `show_error_popup`'s widget contents. A dialog is recorded as its title and text.
- Exceptions are not modelled: every worker outcome is either a failed process or a well-formed result. Neither `get_video_info` nor `download_video` catches anything, so each of the following ends the worker thread in the code:
  - Fetch.Window.GetVideoInfo: when `subprocess.run` (app/main.py:795) or `json.loads` (app/main.py:804) raises, no failure callback is scheduled. "Fetching info..." and the spinner stay on screen.
  - Fetch.Window.GetVideoInfo: when a video record lacks `format_id` (app/main.py:835), the `KeyError` comes after app/main.py:810-812 has replaced `formats_all` and emptied `video_format_ids` and `audio_format_id`. `formats` and `dropdown_format_ids` keep the previous fetch's values, whatever the token. The model's `RawFormat.formatId` is always a string.
  - Catalog.Assemble: `audio_best.get("format_id")` (app/main.py:856) may be `None`, and that `None` then stands in `dropdown_format_ids`. The model always has a string id.
  - Fetch.Window.GetVideoInfo: when `urlretrieve` (app/main.py:902) raises, the callbacks of app/main.py:904-909 are never scheduled. "Info Loaded" never appears and the spinner never stops, although the title and format callbacks already ran.
  - DownloadQueue.Queue.Finish: when `Popen` (app/main.py:998) raises, `finish` (app/main.py:1061-1070) is never scheduled. `is_downloading` stays true and every later item stays Queued. The model assumes every started download finishes.
- Fetch.Window.GetVideoInfo: the preset dropdown and `preset_options` are modelled as flags. After a successful fetch they always hold the fixed table of app/main.py:876-894, and after `clear_ui` they are empty. `Presets.PresetOptions` holds the table itself.
- Monitor.Kept: a line of only whitespace is kept as an empty tail line after `rstrip`, as the code does. The model does not claim the tail lines are non-empty.
- Markdown.CloseFrom: the pattern's `.` is not checked against line breaks, since the lines come from `splitlines` and contain none.
- `Fetch.Window.GetVideoInfoGuarded` is the corrected method. The as-written `Fetch.Window.GetVideoInfo` stays, because it is what the code does.

## Findings

| source | as written | input that shows it | evidently intended | confidence | as-written member | corrected member |
|---|---|---|---|---|---|---|
| app/main.py:810-863 | `get_video_info` assigns `formats_all`, the catalog fields, `current_title` and `preset_options` without comparing its token to `fetch_token`; only the `safe_idle` widget updates are guarded | fetch A starts (token 1); the user clears the window or fetches B (token 2); A's extractor then succeeds: the catalog and title become A's while `current_url` is B's or empty, so `start_download` can queue A's format ids for B's URL | a fetch whose token is no longer current leaves the catalog, title and presets alone | not executed | Fetch.StaleFetchOverwritesCatalog | Fetch.GuardedFetchKeepsData |
