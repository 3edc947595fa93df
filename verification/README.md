# itemz core in Dafny

itemz polls listing pages with a browser "feeder" and shows a desktop
notification for each item it has not seen before. This project models its
deduplication and history core and the run that drives it.

- **History of one URL** (`ItemHistory`). Each URL has a directory named by
  percent-encoding the URL. The directory holds shard files, and each shard
  maps item names to ranks. The items already seen are the union of the
  shards that load as non-empty maps. A shard that fails to load adds
  nothing. `save` has two steps:
  1. It deletes every shard that shares no key with the live listing.
  2. It writes one new shard holding only the new items.

  A shard that cannot be read makes `save` raise part-way through.
- **Diff and notification** (`_fetch_url_items`, `_notify_new_items`). The
  new items are the live entries whose names are not yet seen. When there
  are any, the at most ten highest-ranked names are notified one at a time
  in ascending rank order, and then the history is saved.
- **The run** (`run`, `_fetch_items`, `_must_run`, `RunFile.get_ts`).
  - A gate needs more than four hours since the run file was last touched,
    and an idle machine.
  - Sources are processed in configured order, and a source's URLs in order.
  - Each URL and each source sits inside its own catch-report-continue
    boundary.
  - `feeder.quit()` runs once per feeder that was built.
  - The run file is touched at the end.

Modules:

- `Wrappers`: `Option`.
- `UrlQuote`: the directory name. It is the UTF-8 encoding of the URL,
  percent-encoded outside the unreserved set of section 2.3 of RFC 3986. It
  has a decoder that proves the name is injective.
- `History`: shards, listing, load, diff, prune and save. The `HistoryScenario`
  module is a worked four-poll example.
- `Notify`: the choice of the notified names.
- `Trace`: the observable events of a run (fetch, send, write, quit, touch)
  and their projections.
- `Fetcher`: the per-URL, per-source and whole-run control flow. It runs over
  an environment oracle.

Directory listing order (`glob`) is left open. `History.ListShards` may
return the shards in any order, and every property is proved for every
order. A directory is a map from shard id to `Option<Items>`, where `None`
marks a shard that cannot be read. Shard ids come from a run-wide counter
`clock` instead of the millisecond clock.

## Model

| member | source | states |
|---|---|---|
| UrlQuote.Quote | itemz/itemz.py:124-125 | The directory name uses only unreserved characters and `%`, so it never contains `/`. |
| UrlQuote.QuoteRoundTrip | itemz/itemz.py:124-125 | Percent-decoding and then UTF-8-decoding the directory name gives back the URL. |
| UrlQuote.QuoteInjective | itemz/itemz.py:118-125 | Two URLs share a history directory only if they are the same URL. |
| UrlQuote.DirnameIsPathComponent | itemz/itemz.py:118-125 | A URL with any reserved character (every absolute URL has its `:`) gets a name that is one path component: not empty, not `.` or `..`, and without `/`. |
| History.OtherHistoriesUnchanged | itemz/itemz.py:116-118 | A change confined to one URL's directory leaves the history of every other URL as it was. |
| History.ListShards | itemz/itemz.py:135-137 | The shard listing names every shard of the directory exactly once, in an unspecified order. |
| History.LoadItems | itemz/itemz.py:119-137 | The loaded history holds exactly the names recorded by some listed shard that loads. Each rank comes from a shard that records the name. Unreadable and empty shards add nothing. |
| History.NewItems | itemz/itemz.py:211 | The new items are a sub-map of the live listing, disjoint from the history. They hold every live entry not in the history, with its rank. |
| History.NewItemsAreUnseen | itemz/itemz.py:209-211 | Whatever the listing order, the diff equals the reference set of live entries no readable shard records. Recomputing it without a save gives the same result. |
| History.PruneShards | itemz/itemz.py:139-144 | Pruning completes exactly when every listed shard is readable, and then leaves exactly the shards that are not deletable (readable and sharing no key with the live items). Otherwise it stops at the first unreadable shard in listing order: exactly the deletable shards listed before it are gone, and nothing else. |
| History.PruneShardsFrame | itemz/itemz.py:139-144 | Pruning adds and changes no shard, keeps unlisted shards, removes only deletable ones, and a stopped pass keeps its unreadable shard and every later one. |
| History.Save | itemz/itemz.py:139-149 | Save fails exactly when some shard is unreadable. A successful save leaves exactly the non-deletable shards plus one new shard holding the new items. A failed save leaves the directory as pruned up to the first unreadable shard, with no new shard. |
| History.SaveRecordsLiveItems | itemz/itemz.py:139-149 | After a successful save under a fresh id, every live item is recorded by some shard. |
| History.NothingNewAfterSave | itemz/itemz.py:139-149 | After a successful save, diffing the same live listing again finds nothing new, in any listing order. |
| History.CrashedSaveRenotifies | itemz/itemz.py:127-142 | A save that fails on an unreadable shard leaves the set of unseen live items unchanged, so the same items are new again on the next run. |
| HistoryScenario.FirstPoll | itemz/itemz.py:208-214 | On an empty history every item is new, and one shard holding all of them is written. |
| HistoryScenario.SecondPollDiff | itemz/itemz.py:119-122 | Only the item that appeared since the first poll is new. |
| HistoryScenario.SecondPollSave | itemz/itemz.py:139-149 | A shard that still holds live items survives the save. |
| HistoryScenario.ThirdPoll | itemz/itemz.py:211-212 | A poll where an item vanished and none appeared finds nothing new, in any listing order. |
| HistoryScenario.FourthPollDiff | itemz/itemz.py:211 | Only the appeared item is new, in any listing order. |
| HistoryScenario.FourthPollSave | itemz/itemz.py:140-149 | The shard whose items are all gone is deleted, and the shard with a live item is kept. |
| Notify.SelectNotified | itemz/itemz.py:202-206 | The notified names are the `min(10, n)` highest-ranked new names, each once, in ascending rank order. |
| Notify.AllNotifiedWhenFew | itemz/itemz.py:204-205 | With at most ten new items, every one of them is notified. |
| Notify.SelectionUnique | itemz/itemz.py:204-205 | When no two new items share a rank (the feeder ranks rows `now - index`), the notified sequence is fully determined. |
| Fetcher.GetTs | itemz/itemz.py:83-86 | The run file's timestamp is its modification time, or the default when the file does not exist. |
| Fetcher.MustRun | itemz/itemz.py:190-191 | A run starts only on an idle machine, and exactly when more than `RUN_DELTA` seconds have passed since the last touch (since time 0 without a run file). |
| Fetcher.ListingStepRecords | itemz/itemz.py:208-214 | After handling a listing, when the history was readable and the shard id fresh, every live item is recorded. |
| Fetcher.NotifyAndSave | itemz/itemz.py:202-214 | Notifications come first, then the save. A successful save writes shard `clock`, and the directory becomes exactly the non-deletable shards plus that shard. Under a fresh shard id, every live item is then recorded. A failed save is reported as a failure of the URL. The directory is left exactly as a save stopped at its first unreadable shard leaves it, and the same items stay new. |
| Fetcher.HandleListing | itemz/itemz.py:208-214 | With nothing new there is no notification and no save. Otherwise the selection is notified, then saved with the exact directory outcome of `Save`, or reported. Only this URL's directory changes. |
| Fetcher.ProcessUrl | itemz/itemz.py:208-225 | A URL is fetched exactly once. A failing fetch is reported, with nothing saved. Otherwise the URL's directory goes exactly as `Save` decides. Another URL's history is never touched. With a readable history every live item ends up recorded. |
| Fetcher.ProcessUrls | itemz/itemz.py:219-225 | The trace is one piece per URL, in configured order, each meeting the per-URL contract from the state the previous URL left. So every URL is fetched once, whatever happened to the earlier ones, and no other history changes. |
| Fetcher.UrlsChainRecords | itemz/itemz.py:219-225 | In the per-URL loop, a URL listed once whose fetch succeeds, with a readable history and a fresh clock at the start, has every live item recorded at the end. |
| Fetcher.UrlsChainReports | itemz/itemz.py:208-225 | Every URL of the loop whose processing raises is reported by its own failure notification. It raises when its fetch fails, or when something is new and its save meets an unreadable shard. |
| Fetcher.UrlsRunReports | itemz/itemz.py:208-225 | The same, for any trace the per-URL loop relation admits. A failing fetch is always reported. A failing save is reported for the first occurrence of a URL, judged on its history before the loop. |
| Fetcher.QuitTail | itemz/itemz.py:226-227 | The `finally` clause calls `quit` once. It adds a failure report for the source exactly when `quit` raises. |
| Fetcher.ProcessSource | itemz/itemz.py:216-227 | A feeder that cannot be built gives one failure report, no fetch and no quit. Otherwise the trace is the per-URL loop's trace followed by the quit tail. |
| Fetcher.SourceStepFacts | itemz/itemz.py:216-227 | One source fetches its URLs in order and quits once when its feeder can be built, and does neither otherwise. Only its own URLs' histories change. |
| Fetcher.ProcessSources | itemz/itemz.py:233-239 | The trace is one piece per source, in configured order, each meeting the per-source contract from the state the previous one left. The fetches and quits are exactly those of the sources whose feeder can be built, so one source's failure does not stop the others. |
| Fetcher.SourceStepReports | itemz/itemz.py:216-227 | Every failure one source meets is in its own trace: a feeder that cannot be built, a failing fetch, a save that meets an unreadable shard (first occurrence of the URL in the source), and a `quit` that raises. |
| Fetcher.SourcesChainReports | itemz/itemz.py:208-239 | Every failure in the sources loop is reported: a feeder that cannot be built, a failing fetch, a save that meets an unreadable shard (first occurrence of the URL in the configuration, judged on its history before the loop), and a `quit` that raises. |
| Fetcher.SourcesRunReports | itemz/itemz.py:218-239 | The same, for any trace the sources loop relation admits, which includes every trace of `Run` before its touch. |
| Fetcher.SourcesChainRecords | itemz/itemz.py:208-239 | After the sources loop, every live item of a URL configured once is recorded, provided its feeder can be built, its fetch succeeds and its history was readable. So the next run does not notify it again. |
| Fetcher.SourcesRunRecords | itemz/itemz.py:208-239 | The same, for any state the sources loop relation admits, which includes the store `Run` leaves. |
| Fetcher.Run | itemz/itemz.py:229-241 | A closed gate does nothing. An open gate runs the sources loop exactly as `ProcessSources` specifies, touches the run file exactly once as the last event, and changes no unconfigured URL's history. |
| Fetcher.RunTwice | itemz/itemz.py:187-241 | A run that ran touches the run file at the touch time. A later run within `RUN_DELTA` of that touch does nothing at all: no event, no store change, no touch. |

## Left out

- Notification delivery (win11toast, `notify-send`) is foreign I/O. `Notifier.send` catches every error, so a notification is an event that never fails.
- The `Https1337xto` Selenium scraper and its polling loop are browser automation and wall-clock timing. `fetch` is an oracle returning a listing or failing. It is a function of the feeder and the URL, so a URL configured twice gets the same answer both times in a run. The program fetches twice, and the ranks `int(time.time()) - index` can differ between the two fetches.
- `_list_feeders` reflection is replaced by the oracle's `registry` of feeder ids plus a per-feeder "constructor succeeds" flag.
- Logging, `psutil` idle detection (it becomes the `idle` input), the settings import, and `to_json` formatting are left out. Shard contents are abstract maps.
- Millisecond file names are replaced by the `clock` counter, so collisions between two saves in the same millisecond are not modelled. Freshness is kept as an invariant.
- Time is a `real`; float rounding of `time.time()` and file modification times is not modelled.
- The `None` of a shard stands for a file `_load_file_items` cannot parse, and also for valid JSON that is falsy and not an object (`[]`, `0`, `""`, `false`). Both add nothing at load (`if items:`), and both make `save` raise at `.keys()`. Truthy JSON that is not an object is not modelled. A list of pairs such as `[["x", 1]]` is merged by `dict.update` at load as if it were a map, yet it makes `save` raise at `.keys()`. The model has no shard state that is readable at load and unreadable at save. Any other such value makes the history constructor raise, which the per-URL boundary reports.
- History.OtherHistoriesUnchanged: the store is keyed by the exact directory name. File-system aliasing is not modelled: `os.path.join` treats the names `""`, `"."` and `".."` specially, and case-insensitive file systems (Windows) merge names that differ only in case. `UrlQuote.DirnameIsPathComponent` rules out the first three for any URL with a reserved character. Percent escapes are upper-case, but other letters keep the URL's case.
- Failures of `makedirs`, `os.remove`, the shard write and `self.run_file.touch()` are filesystem errors and are not modelled. `Run` always touches the run file. The only save failure modelled is an unreadable shard.
- Exceptions outside `Exception` (`KeyboardInterrupt`, say) are not modelled.
- `clean_item`, `URLIdGenerator`, `split_into_batches`, `fetch_items`, `collect_items` and retention cleanup are referenced by the tests and `scripts/run.py` but have no implementation in `itemz/itemz.py`. They are not part of this model.
- `setup.py`, `itemz/bootstrap.py` and `scripts/run.py` are packaging and service plumbing.
- Fetcher.SourcesRunRecords: the no-repeat fact is stated for URLs configured once. A URL listed twice is handled twice in one run, and the trace relation `ProcessSources` ensures still covers that case step by step.
- Notify.SelectNotified: when ranks tie, Python's stable sort orders the tied names by dictionary insertion order. Maps have no insertion order, so the model leaves the order among equal ranks open. `Notify.SelectionUnique` shows the result is unique when ranks are distinct.
- History.LoadItems: when two shards hold the same name, the later shard's rank wins in Python. The contract states only that the rank comes from some shard recording the name, because the listing order is unspecified.
