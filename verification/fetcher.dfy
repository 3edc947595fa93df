/** The collection run (`ItemFetcher`): the run gate, the loop over the
    configured sources, the loop over each source's URLs, and the two
    catch-report-continue boundaries around them.

    The browser feeder is an oracle: the registry of feeder ids, whether a
    feeder's constructor succeeds, what `fetch` returns for a URL (`None`
    when it raises) and whether `quit` raises. Notification delivery never
    fails (`Notifier.send` catches everything), so a notification is just
    an event. The shard id of a written shard is the run's `clock`, which
    advances by one for every shard written. */
module Fetcher {
  import opened Wrappers
  import opened History
  import opened Notify
  import opened Trace
  import UrlQuote

  /** Minimum time between two runs, in seconds (4 hours). */
  const RUN_DELTA: real := 14400.0

  /** `RunFile.get_ts`: the run file's modification time, or `default`
      when there is no run file. */
  function GetTs(mtime: Option<real>, default: real): (ts: real)
    ensures mtime.None? ==> ts == default
    ensures mtime.Some? ==> ts == mtime.value
  {
    mtime.GetOr(default)
  }

  /** `ItemFetcher._must_run`: more than `RUN_DELTA` seconds since the run
      file was last touched, and idle. A missing run file counts as touched
      at time 0. */
  function MustRun(now: real, runFile: Option<real>, idle: bool): (run: bool)
    ensures run ==> idle
    ensures runFile.None? ==> (run <==> idle && now > RUN_DELTA)
    ensures runFile.Some? ==> (run <==> idle && now - runFile.value > RUN_DELTA)
  {
    now > GetTs(runFile, 0.0) + RUN_DELTA && idle
  }

  /** The environment the core runs against. */
  datatype Env = Env(
    registry: set<FeederId>,                 // ids of the feeder classes found
    constructs: FeederId -> bool,            // the feeder's constructor succeeds
    fetch: (FeederId, Url) -> Option<Items>, // `feeder.fetch(url)`, None if it raises
    quitFails: FeederId -> bool)             // `feeder.quit()` raises

  /** `self.feeders[feeder_id]()` returns a feeder instead of raising. */
  predicate Opens(env: Env, feeder: FeederId)
  {
    feeder in env.registry && env.constructs(feeder)
  }

  /** Body of the notification reporting a failed URL or source. */
  function FailureBody(what: string): string
  {
    "failed to process " + what
  }

  /** One notification per name, titled `NAME`, in order. */
  function Sends(names: seq<string>): (events: seq<Event>)
    ensures |events| == |names|
    ensures forall i :: 0 <= i < |names| ==> events[i] == Send(NAME, names[i])
  {
    seq(|names|, i requires 0 <= i < |names| => Send(NAME, names[i]))
  }

  /** Every shard id in the store is below `clock`: the next shard written
      gets a fresh file name. */
  ghost predicate FreshClock(store: Store, clock: ShardId)
  {
    forall dn, id :: dn in store && id in store[dn] ==> id < clock
  }

  ghost predicate AllReadable(dir: Dir)
  {
    forall s :: s in dir ==> dir[s].Some?
  }

  /** The `if new_items:` branch of `_fetch_url_items` when the names
      `names` are the ones notified: they are sent in order, then the
      history is saved. A successful save leaves the pruned directory plus
      shard `clock` holding the new items; a failing one leaves the
      directory as far as it was pruned and is reported as a failure of
      the URL. */
  ghost predicate NotifiedThenSaved(url: Url, dir: Dir, clock: ShardId, all: Items, names: seq<string>,
                                    dir': Dir, clock': ShardId, tail: seq<Event>)
  {
    var newItems := Unseen(all, dir);
    && IsSelection(newItems, names)
    && |tail| == |names| + 1 && tail[..|names|] == Sends(names)
    && (AllReadable(dir) ==>
          && tail[|names|] == Write(UrlQuote.Quote(url), clock) && clock' == clock + 1
          && dir' == Kept(dir, all.Keys)[clock := Some(newItems)])
    && (!AllReadable(dir) ==>
          && tail[|names|] == Send(NAME, FailureBody(url)) && clock' == clock
          && exists order :: IsListing(order, dir) && Save(dir, order, all, newItems, clock) == Crashed(dir'))
  }

  /** `_fetch_url_items` once `fetch` has returned the live listing `all`:
      nothing happens when no item is new; otherwise the new items are
      notified, then saved. */
  ghost predicate ListingStep(url: Url, dir: Dir, clock: ShardId, all: Items,
                              dir': Dir, clock': ShardId, tail: seq<Event>)
  {
    if Unseen(all, dir) == map[] then tail == [] && dir' == dir && clock' == clock
    else exists names :: NotifiedThenSaved(url, dir, clock, all, names, dir', clock', tail)
  }

  /** No repeat: when the history was readable and the shard id fresh,
      every live item is recorded once the listing has been handled. */
  lemma ListingStepRecords(url: Url, dir: Dir, clock: ShardId, all: Items,
                           dir': Dir, clock': ShardId, tail: seq<Event>)
    requires ListingStep(url, dir, clock, all, dir', clock', tail)
    requires AllReadable(dir) && clock !in dir
    ensures forall k :: k in all ==> IsKnown(dir', k)
  {
    var newItems := Unseen(all, dir);
    forall k | k in all
      ensures IsKnown(dir', k)
    {
      if IsKnown(dir, k) {
        var s :| Records(dir, s, k);
        if newItems != map[] {
          assert k in dir[s].value.Keys * all.Keys;
          assert s in Kept(dir, all.Keys);
          assert Records(dir', s, k);
        }
      } else {
        assert k in newItems;
        assert Records(dir', clock, k);
      }
    }
  }

  /** The `if new_items:` branch of `_fetch_url_items`: notify the
      selected names, then save; a failing save is reported as a failure
      of the URL. */
  method NotifyAndSave(url: Url, dir: Dir, all: Items, newItems: Items, clock: ShardId)
    returns (dir': Dir, clock': ShardId, events: seq<Event>, notified: seq<string>)
    requires newItems == Unseen(all, dir) && newItems != map[]
    ensures NotifiedThenSaved(url, dir, clock, all, notified, dir', clock', events)
    ensures forall i :: 0 <= i < |events| ==> events[i].Send? || events[i].Write?
    ensures forall id :: id in dir' ==> id in dir || (id == clock && clock' == clock + 1)
    // no repeat: a successful save under a fresh id records every live item
    ensures AllReadable(dir) && clock !in dir ==> forall k :: k in all ==> IsKnown(dir', k)
    // a failed save leaves the same items new for the next run
    ensures !AllReadable(dir) ==> Unseen(all, dir') == newItems
  {
    notified := SelectNotified(newItems);
    events := Sends(notified);
    var order := ListShards(dir);
    match Save(dir, order, all, newItems, clock) {
      case Saved(d) =>
        dir', clock' := d, clock + 1;
        events := events + [Write(UrlQuote.Quote(url), clock)];
        if clock !in dir {
          SaveRecordsLiveItems(dir, order, all, clock);
        }
      case Crashed(d) =>
        dir', clock' := d, clock;
        events := events + [Send(NAME, FailureBody(url))];
        assert IsListing(order, dir) && Save(dir, order, all, newItems, clock) == Crashed(dir');
        CrashedSaveRenotifies(dir, order, all, newItems, clock);
    }
  }

  /** A store change confined to the directory of `url` that uses no shard
      id at or above `clock'` keeps the clock fresh. */
  lemma FreshAfterUpdate(store: Store, clock: ShardId, url: Url, d: Dir, clock': ShardId)
    requires FreshClock(store, clock) && clock <= clock'
    requires forall id :: id in d ==> id in DirOf(store, url) || id < clock'
    ensures FreshClock(store[UrlQuote.Quote(url) := d], clock')
  {
  }

  /** `_fetch_url_items` once `fetch` has returned the live listing `all`. */
  method HandleListing(url: Url, store: Store, clock: ShardId, all: Items)
    returns (store': Store, clock': ShardId, tail: seq<Event>, notified: seq<string>)
    ensures ListingStep(url, DirOf(store, url), clock, all, DirOf(store', url), clock', tail)
    ensures Unseen(all, DirOf(store, url)) == map[] ==> store' == store && notified == []
    ensures Unseen(all, DirOf(store, url)) != map[] ==>
      NotifiedThenSaved(url, DirOf(store, url), clock, all, notified, DirOf(store', url), clock', tail)
    ensures forall i :: 0 <= i < |tail| ==> tail[i].Send? || tail[i].Write?
    ensures OnlyDirChanged(store, store', UrlQuote.Quote(url))
    ensures clock <= clock'
    ensures FreshClock(store, clock) ==> FreshClock(store', clock')
    ensures !AllReadable(DirOf(store, url)) ==>
      Unseen(all, DirOf(store', url)) == Unseen(all, DirOf(store, url))
    ensures FreshClock(store, clock) && AllReadable(DirOf(store, url)) ==>
      forall k :: k in all ==> IsKnown(DirOf(store', url), k)
  {
    var dir := DirOf(store, url);
    var order := ListShards(dir);
    var known := LoadItems(dir, order);
    NewItemsAreUnseen(all, dir, order);
    var newItems := NewItems(all, known);
    store', clock', tail, notified := store, clock, [], [];
    if newItems != map[] {
      var d;
      d, clock', tail, notified := NotifyAndSave(url, dir, all, newItems, clock);
      store' := store[UrlQuote.Quote(url) := d];
      SavedDirFacts(url, store, clock, all, notified, d, clock', tail);
    } else {
      NothingUnseenAllKnown(all, dir);
    }
  }

  /** Installing the directory `NotifyAndSave` left as the history of
      `url` changes only that history, keeps the clock fresh and records
      every live item when the history was readable. */
  lemma SavedDirFacts(url: Url, store: Store, clock: ShardId, all: Items, names: seq<string>,
                      d: Dir, clock': ShardId, tail: seq<Event>)
    requires Unseen(all, DirOf(store, url)) != map[]
    requires NotifiedThenSaved(url, DirOf(store, url), clock, all, names, d, clock', tail)
    requires forall id :: id in d ==> id in DirOf(store, url) || (id == clock && clock' == clock + 1)
    requires AllReadable(DirOf(store, url)) && clock !in DirOf(store, url) ==>
      forall k :: k in all ==> IsKnown(d, k)
    ensures var store' := store[UrlQuote.Quote(url) := d];
      && DirOf(store', url) == d
      && ListingStep(url, DirOf(store, url), clock, all, d, clock', tail)
      && OnlyDirChanged(store, store', UrlQuote.Quote(url))
      && clock <= clock'
      && (FreshClock(store, clock) ==> FreshClock(store', clock'))
      && (FreshClock(store, clock) && AllReadable(DirOf(store, url)) ==> forall k :: k in all ==> IsKnown(d, k))
  {
    if FreshClock(store, clock) {
      FreshAfterUpdate(store, clock, url, d, clock');
      FreshNotInDir(store, clock, url);
    }
  }

  lemma NothingUnseenAllKnown(all: Items, dir: Dir)
    requires Unseen(all, dir) == map[]
    ensures forall k :: k in all ==> IsKnown(dir, k)
  {
    forall k | k in all ensures IsKnown(dir, k) {
      assert k !in Unseen(all, dir);
    }
  }

  /** One pass of the per-URL loop body: `_fetch_url_items` inside its
      `try`. The URL is fetched; a failing fetch is reported and changes
      nothing; otherwise the listing is handled. Only the URL's own
      directory can change, and the clock stays fresh. */
  ghost predicate UrlStep(env: Env, feeder: FeederId, url: Url, store: Store, clock: ShardId,
                          store': Store, clock': ShardId, events: seq<Event>)
  {
    && events != [] && events[0] == Fetch(feeder, url)
    && (forall i :: 1 <= i < |events| ==> events[i].Send? || events[i].Write?)
    && OnlyDirChanged(store, store', UrlQuote.Quote(url))
    && clock <= clock'
    && (FreshClock(store, clock) ==> FreshClock(store', clock'))
    && (match env.fetch(feeder, url)
        case None =>
          events[1..] == [Send(NAME, FailureBody(url))] && store' == store && clock' == clock
        case Some(all) =>
          ListingStep(url, DirOf(store, url), clock, all, DirOf(store', url), clock', events[1..]))
  }

  /** `ItemFetcher._fetch_url_items` inside the per-URL `try`: load the
      history, fetch the live listing, and when some items are new notify
      them, then save. A failing fetch or save is reported and swallowed. */
  method ProcessUrl(env: Env, feeder: FeederId, url: Url, store: Store, clock: ShardId)
    returns (store': Store, clock': ShardId, events: seq<Event>, notified: seq<string>)
    ensures UrlStep(env, feeder, url, store, clock, store', clock', events)
    // exactly one fetch, of this URL; nothing else the outer loops count
    ensures Fetches(events) == [(feeder, url)] && Quits(events) == [] && Touches(events) == 0
    // another URL's history is never touched
    ensures forall u :: u != url ==> DirOf(store', u) == DirOf(store, u)
    // the notified names, sent right after the fetch
    ensures env.fetch(feeder, url).Some? && Unseen(env.fetch(feeder, url).value, DirOf(store, url)) != map[] ==>
      && IsSelection(Unseen(env.fetch(feeder, url).value, DirOf(store, url)), notified)
      && |events| == |notified| + 2
      && events[1..|notified| + 1] == Sends(notified)
    ensures env.fetch(feeder, url).None? || Unseen(env.fetch(feeder, url).value, DirOf(store, url)) == map[] ==>
      notified == [] && store' == store
    // a failed save leaves the same items new for the next run
    ensures env.fetch(feeder, url).Some? && !AllReadable(DirOf(store, url)) ==>
      Unseen(env.fetch(feeder, url).value, DirOf(store', url))
        == Unseen(env.fetch(feeder, url).value, DirOf(store, url))
    // no repeat: with a readable history every live item ends up recorded
    ensures FreshClock(store, clock) && env.fetch(feeder, url).Some? && AllReadable(DirOf(store, url)) ==>
      forall k :: k in env.fetch(feeder, url).value ==> IsKnown(DirOf(store', url), k)
  {
    var tail: seq<Event>;
    match env.fetch(feeder, url) {
      case None =>
        store', clock', tail, notified := store, clock, [Send(NAME, FailureBody(url))], [];
      case Some(all) =>
        store', clock', tail, notified := HandleListing(url, store, clock, all);
    }
    events := [Fetch(feeder, url)] + tail;
    assert events[1..] == tail;
    NoLoopEvents(tail);
    ProjectionsAppend([Fetch(feeder, url)], tail);
    OtherHistoriesUnchanged(store, store', url);
  }

  /** The fetch calls expected for `urls` under `feeder`, in order. */
  function Pair(feeder: FeederId, urls: seq<Url>): (calls: seq<(FeederId, Url)>)
    ensures |calls| == |urls|
    ensures forall i :: 0 <= i < |urls| ==> calls[i] == (feeder, urls[i])
  {
    seq(|urls|, i requires 0 <= i < |urls| => (feeder, urls[i]))
  }

  /** The per-URL loop of `_fetch_items` over `urls`, step by step:
      `stores[i]` and `clocks[i]` are the state before URL `i`, and
      `segs[i]` is what URL `i` produced. */
  ghost predicate UrlsChain(env: Env, feeder: FeederId, urls: seq<Url>, stores: seq<Store>,
                            clocks: seq<ShardId>, segs: seq<seq<Event>>)
  {
    && |stores| == |clocks| == |urls| + 1 && |segs| == |urls|
    && forall i :: 0 <= i < |urls| ==>
         UrlStep(env, feeder, urls[i], stores[i], clocks[i], stores[i + 1], clocks[i + 1], segs[i])
  }

  /** The per-URL loop as a relation from the state before it to the state
      after it and its trace: the trace is one `UrlStep` per URL, in order,
      each starting from the state the previous one left. */
  ghost predicate UrlsRun(env: Env, feeder: FeederId, urls: seq<Url>, store: Store, clock: ShardId,
                          store': Store, clock': ShardId, events: seq<Event>)
  {
    exists stores, clocks, segs ::
      && UrlsChain(env, feeder, urls, stores, clocks, segs)
      && Concat(segs) == events
      && stores[0] == store && clocks[0] == clock
      && stores[|urls|] == store' && clocks[|urls|] == clock'
  }

  lemma UrlsChainSnoc(env: Env, feeder: FeederId, urls: seq<Url>, i: nat, stores: seq<Store>,
                      clocks: seq<ShardId>, segs: seq<seq<Event>>, s: Store, c: ShardId, ev: seq<Event>)
    requires i < |urls|
    requires UrlsChain(env, feeder, urls[..i], stores, clocks, segs)
    requires UrlStep(env, feeder, urls[i], stores[i], clocks[i], s, c, ev)
    ensures UrlsChain(env, feeder, urls[..i + 1], stores + [s], clocks + [c], segs + [ev])
  {
    assert forall j :: 0 <= j < i ==> urls[..i + 1][j] == urls[..i][j];
  }

  /** One URL's trace holds exactly its own fetch, and no quit or touch. */
  lemma UrlStepProjections(env: Env, feeder: FeederId, url: Url, store: Store, clock: ShardId,
                           store': Store, clock': ShardId, events: seq<Event>)
    requires UrlStep(env, feeder, url, store, clock, store', clock', events)
    ensures Fetches(events) == [(feeder, url)] && Quits(events) == [] && Touches(events) == 0
  {
    NoLoopEvents(events[1..]);
    ProjectionsAppend([events[0]], events[1..]);
    assert [events[0]] + events[1..] == events;
  }

  /** Per-URL projection facts, for a loop whose `i`-th piece fetches
      `urls[i]` and nothing else. */
  ghost predicate FetchesOnce(feeder: FeederId, urls: seq<Url>, segs: seq<seq<Event>>)
  {
    && |segs| == |urls|
    && forall i :: 0 <= i < |segs| ==>
         Fetches(segs[i]) == [(feeder, urls[i])] && Quits(segs[i]) == [] && Touches(segs[i]) == 0
  }

  lemma {:induction false} FetchesOnceConcat(feeder: FeederId, urls: seq<Url>, segs: seq<seq<Event>>, k: nat)
    requires FetchesOnce(feeder, urls, segs) && k <= |urls|
    ensures Fetches(Concat(segs[..k])) == Pair(feeder, urls[..k])
    ensures Quits(Concat(segs[..k])) == [] && Touches(Concat(segs[..k])) == 0
  {
    if k > 0 {
      FetchesOnceConcat(feeder, urls, segs, k - 1);
      assert segs[..k][..k - 1] == segs[..k - 1];
      ProjectionsAppend(Concat(segs[..k - 1]), segs[k - 1]);
      assert Pair(feeder, urls[..k]) == Pair(feeder, urls[..k - 1]) + [(feeder, urls[k - 1])];
    }
  }

  /** The first `k` URLs of the loop fetch exactly those URLs, in order,
      and make no quit or touch. */
  lemma UrlsChainProjections(env: Env, feeder: FeederId, urls: seq<Url>, stores: seq<Store>,
                             clocks: seq<ShardId>, segs: seq<seq<Event>>, k: nat)
    requires UrlsChain(env, feeder, urls, stores, clocks, segs)
    requires k <= |urls|
    ensures Fetches(Concat(segs[..k])) == Pair(feeder, urls[..k])
    ensures Quits(Concat(segs[..k])) == [] && Touches(Concat(segs[..k])) == 0
  {
    forall i | 0 <= i < |segs|
      ensures Fetches(segs[i]) == [(feeder, urls[i])] && Quits(segs[i]) == [] && Touches(segs[i]) == 0
    {
      UrlStepProjections(env, feeder, urls[i], stores[i], clocks[i], stores[i + 1], clocks[i + 1], segs[i]);
    }
    FetchesOnceConcat(feeder, urls, segs, k);
  }

  /** Per-URL state facts, for a loop whose `i`-th step changes only the
      history of `urls[i]` and keeps the clock fresh. */
  ghost predicate StepsFramed(urls: seq<Url>, stores: seq<Store>, clocks: seq<ShardId>)
  {
    && |stores| == |clocks| == |urls| + 1
    && forall i :: 0 <= i < |urls| ==>
         && clocks[i] <= clocks[i + 1]
         && (FreshClock(stores[i], clocks[i]) ==> FreshClock(stores[i + 1], clocks[i + 1]))
         && OnlyDirChanged(stores[i], stores[i + 1], UrlQuote.Quote(urls[i]))
  }

  lemma {:induction false} StepsFramedClock(urls: seq<Url>, stores: seq<Store>, clocks: seq<ShardId>, lo: nat, hi: nat)
    requires StepsFramed(urls, stores, clocks) && lo <= hi <= |urls|
    ensures clocks[lo] <= clocks[hi]
    ensures FreshClock(stores[lo], clocks[lo]) ==> FreshClock(stores[hi], clocks[hi])
    decreases hi
  {
    if lo < hi {
      StepsFramedClock(urls, stores, clocks, lo, hi - 1);
      assert clocks[hi - 1] <= clocks[hi];
      assert FreshClock(stores[hi - 1], clocks[hi - 1]) ==> FreshClock(stores[hi], clocks[hi]);
    }
  }

  lemma {:induction false} StepsFramedDirs(urls: seq<Url>, stores: seq<Store>, clocks: seq<ShardId>, lo: nat, hi: nat)
    requires StepsFramed(urls, stores, clocks) && lo <= hi <= |urls|
    ensures forall u :: u !in urls[lo..hi] ==> DirOf(stores[hi], u) == DirOf(stores[lo], u)
    decreases hi
  {
    if lo < hi {
      StepsFramedDirs(urls, stores, clocks, lo, hi - 1);
      assert OnlyDirChanged(stores[hi - 1], stores[hi], UrlQuote.Quote(urls[hi - 1]));
      OtherHistoriesUnchanged(stores[hi - 1], stores[hi], urls[hi - 1]);
      assert urls[lo..hi] == urls[lo..hi - 1] + [urls[hi - 1]];
    }
  }

  /** Between positions `lo` and `hi` of the loop the clock never goes
      back and stays fresh, and only the histories of the URLs visited in
      between change. */
  lemma UrlsChainState(env: Env, feeder: FeederId, urls: seq<Url>, stores: seq<Store>,
                       clocks: seq<ShardId>, segs: seq<seq<Event>>, lo: nat, hi: nat)
    requires UrlsChain(env, feeder, urls, stores, clocks, segs)
    requires lo <= hi <= |urls|
    ensures clocks[lo] <= clocks[hi]
    ensures FreshClock(stores[lo], clocks[lo]) ==> FreshClock(stores[hi], clocks[hi])
    ensures forall u :: u !in urls[lo..hi] ==> DirOf(stores[hi], u) == DirOf(stores[lo], u)
  {
    forall i | 0 <= i < |urls|
      ensures && clocks[i] <= clocks[i + 1]
              && (FreshClock(stores[i], clocks[i]) ==> FreshClock(stores[i + 1], clocks[i + 1]))
              && OnlyDirChanged(stores[i], stores[i + 1], UrlQuote.Quote(urls[i]))
    {
      assert UrlStep(env, feeder, urls[i], stores[i], clocks[i], stores[i + 1], clocks[i + 1], segs[i]);
    }
    StepsFramedClock(urls, stores, clocks, lo, hi);
    StepsFramedDirs(urls, stores, clocks, lo, hi);
  }

  /** A fresh clock is not the id of a shard of any history. */
  lemma FreshNotInDir(store: Store, clock: ShardId, url: Url)
    requires FreshClock(store, clock)
    ensures clock !in DirOf(store, url)
  {
  }

  /** No repeat across the loop: a URL listed once, whose fetch succeeds
      and whose history was readable when the loop began, has every live
      item recorded when the loop ends. */
  lemma UrlsChainRecords(env: Env, feeder: FeederId, urls: seq<Url>, stores: seq<Store>,
                         clocks: seq<ShardId>, segs: seq<seq<Event>>, j: nat)
    requires UrlsChain(env, feeder, urls, stores, clocks, segs)
    requires j < |urls| && urls[j] !in urls[..j] && urls[j] !in urls[j + 1..]
    requires env.fetch(feeder, urls[j]).Some?
    requires FreshClock(stores[0], clocks[0]) && AllReadable(DirOf(stores[0], urls[j]))
    ensures forall k :: k in env.fetch(feeder, urls[j]).value ==> IsKnown(DirOf(stores[|urls|], urls[j]), k)
  {
    var u, all := urls[j], env.fetch(feeder, urls[j]).value;
    UrlsChainState(env, feeder, urls, stores, clocks, segs, 0, j);
    assert urls[0..j] == urls[..j];
    FreshNotInDir(stores[j], clocks[j], u);
    assert UrlStep(env, feeder, u, stores[j], clocks[j], stores[j + 1], clocks[j + 1], segs[j]);
    ListingStepRecords(u, DirOf(stores[j], u), clocks[j], all, DirOf(stores[j + 1], u), clocks[j + 1], segs[j][1..]);
    UrlsChainState(env, feeder, urls, stores, clocks, segs, j + 1, |urls|);
    assert urls[j + 1..|urls|] == urls[j + 1..];
  }

  /** `_fetch_url_items` raises for `url` against the history `dir`: the
      fetch fails, or something is new and the save meets an unreadable
      shard. */
  ghost predicate UrlFails(env: Env, feeder: FeederId, url: Url, dir: Dir)
  {
    match env.fetch(feeder, url)
    case None => true
    case Some(all) => Unseen(all, dir) != map[] && !AllReadable(dir)
  }

  /** A URL of the loop whose processing raises, because its fetch fails
      or its save meets an unreadable shard, is reported by its own
      notification. */
  lemma UrlsChainReports(env: Env, feeder: FeederId, urls: seq<Url>, stores: seq<Store>,
                         clocks: seq<ShardId>, segs: seq<seq<Event>>, j: nat)
    requires UrlsChain(env, feeder, urls, stores, clocks, segs)
    requires j < |urls|
    ensures UrlFails(env, feeder, urls[j], DirOf(stores[j], urls[j])) ==>
      Send(NAME, FailureBody(urls[j])) in Concat(segs)
  {
    var u, seg := urls[j], segs[j];
    assert UrlStep(env, feeder, u, stores[j], clocks[j], stores[j + 1], clocks[j + 1], seg);
    match env.fetch(feeder, u)
    case None =>
      assert seg[1..] == [Send(NAME, FailureBody(u))];
      assert seg[1] in seg;
      ConcatMember(segs, j, seg[1]);
    case Some(all) =>
      var dir := DirOf(stores[j], u);
      if Unseen(all, dir) != map[] && !AllReadable(dir) {
        var tail := seg[1..];
        var names :| NotifiedThenSaved(u, dir, clocks[j], all, names, DirOf(stores[j + 1], u), clocks[j + 1], tail);
        assert tail[|names|] == Send(NAME, FailureBody(u));
        assert seg[1 + |names|] in seg;
        ConcatMember(segs, j, seg[1 + |names|]);
      }
  }

  /** The same, for the trace of a whole per-URL loop: a failing fetch is
      always reported, and so is a failing save of the first occurrence of
      a URL, judged on the history before the loop. */
  lemma UrlsRunReports(env: Env, feeder: FeederId, urls: seq<Url>, s: Store, c: ShardId,
                       s': Store, c': ShardId, ev: seq<Event>, j: nat)
    requires UrlsRun(env, feeder, urls, s, c, s', c', ev)
    requires j < |urls|
    ensures env.fetch(feeder, urls[j]).None? ==> Send(NAME, FailureBody(urls[j])) in ev
    ensures urls[j] !in urls[..j] && UrlFails(env, feeder, urls[j], DirOf(s, urls[j])) ==>
      Send(NAME, FailureBody(urls[j])) in ev
  {
    var stores, clocks, segs :| UrlsChain(env, feeder, urls, stores, clocks, segs)
      && Concat(segs) == ev
      && stores[0] == s && clocks[0] == c && stores[|urls|] == s' && clocks[|urls|] == c';
    UrlsChainState(env, feeder, urls, stores, clocks, segs, 0, j);
    assert urls[0..j] == urls[..j];
    UrlsChainReports(env, feeder, urls, stores, clocks, segs, j);
  }

  /** What the `finally: feeder.quit()` contributes: the quit, and a
      report for the source when `quit` raises. */
  function QuitTail(env: Env, feeder: FeederId): (tail: seq<Event>)
    ensures tail != [] && tail[0] == Quit(feeder)
    ensures env.quitFails(feeder) <==> Send(NAME, FailureBody(feeder)) in tail
    ensures forall i :: 1 <= i < |tail| ==> tail[i].Send?
  {
    [Quit(feeder)] + if env.quitFails(feeder) then [Send(NAME, FailureBody(feeder))] else []
  }

  lemma QuitTailProjections(env: Env, feeder: FeederId)
    ensures Fetches(QuitTail(env, feeder)) == []
    ensures Quits(QuitTail(env, feeder)) == [feeder]
    ensures Touches(QuitTail(env, feeder)) == 0
  {
    var tail := QuitTail(env, feeder);
    NoLoopEvents(tail[1..]);
    ProjectionsAppend([tail[0]], tail[1..]);
    assert [tail[0]] + tail[1..] == tail;
  }

  /** The `for url in urls` loop of `_fetch_items`: each URL inside its own
      catch-report-continue boundary, so every URL is fetched, in order,
      whatever happened to the ones before it. */
  method ProcessUrls(env: Env, feeder: FeederId, urls: seq<Url>, store: Store, clock: ShardId)
    returns (store': Store, clock': ShardId, events: seq<Event>)
    ensures UrlsRun(env, feeder, urls, store, clock, store', clock', events)
    ensures Fetches(events) == Pair(feeder, urls)
    ensures Quits(events) == [] && Touches(events) == 0
    ensures forall u :: u !in urls ==> DirOf(store', u) == DirOf(store, u)
    ensures clock <= clock'
    ensures FreshClock(store, clock) ==> FreshClock(store', clock')
  {
    store', clock', events := store, clock, [];
    ghost var stores, clocks, segs := [store], [clock], [];
    var i := 0;
    while i < |urls|
      invariant 0 <= i <= |urls|
      invariant UrlsChain(env, feeder, urls[..i], stores, clocks, segs) && Concat(segs) == events
      invariant stores[0] == store && clocks[0] == clock
      invariant stores[i] == store' && clocks[i] == clock'
    {
      var s, c, ev, _ := ProcessUrl(env, feeder, urls[i], store', clock');
      UrlsChainSnoc(env, feeder, urls, i, stores, clocks, segs, s, c, ev);
      ConcatSnoc(segs, ev);
      stores, clocks, segs := stores + [s], clocks + [c], segs + [ev];
      events := events + ev;
      store', clock' := s, c;
      i := i + 1;
    }
    assert urls[..i] == urls && segs[..i] == segs;
    UrlsChainProjections(env, feeder, urls, stores, clocks, segs, i);
    UrlsChainState(env, feeder, urls, stores, clocks, segs, 0, i);
    assert urls[0..i] == urls;
  }

  /** One pass of the per-source loop body of `run`: `_fetch_items` inside
      its `try`. A feeder that cannot be built is reported and nothing else
      happens; otherwise the URLs are processed in order and the quit tail
      ends the trace. */
  ghost predicate SourceStep(env: Env, feeder: FeederId, urls: seq<Url>, store: Store, clock: ShardId,
                             store': Store, clock': ShardId, events: seq<Event>)
  {
    if !Opens(env, feeder) then
      events == [Send(NAME, FailureBody(feeder))] && store' == store && clock' == clock
    else
      var n := |events| - |QuitTail(env, feeder)|;
      && 0 <= n
      && events[n..] == QuitTail(env, feeder)
      && UrlsRun(env, feeder, urls, store, clock, store', clock', events[..n])
  }

  /** `ItemFetcher._fetch_items` inside the per-source `try` of `run`.
      Building the feeder is outside the inner `try`/`finally`: when the id
      is unknown or the constructor raises, the source is reported, no URL
      is fetched and `quit` is not called. Otherwise every URL is processed
      in order, and `quit` runs exactly once, after the last URL; a `quit`
      that raises is reported as a failure of the source. */
  method ProcessSource(env: Env, feeder: FeederId, urls: seq<Url>, store: Store, clock: ShardId)
    returns (store': Store, clock': ShardId, events: seq<Event>)
    ensures SourceStep(env, feeder, urls, store, clock, store', clock', events)
    ensures Opens(env, feeder) ==>
      Fetches(events) == Pair(feeder, urls) && Quits(events) == [feeder]
    ensures Touches(events) == 0
    ensures forall u :: u !in urls ==> DirOf(store', u) == DirOf(store, u)
    ensures clock <= clock'
    ensures FreshClock(store, clock) ==> FreshClock(store', clock')
  {
    if !Opens(env, feeder) {
      store', clock', events := store, clock, [Send(NAME, FailureBody(feeder))];
      NoLoopEvents(events);
      return;
    }
    store', clock', events := ProcessUrls(env, feeder, urls, store, clock);
    var tail := QuitTail(env, feeder);
    QuitTailProjections(env, feeder);
    ProjectionsAppend(events, tail);
    ghost var body := events;
    events := events + tail;
    assert events[..|events| - |tail|] == body;
  }

  /** The fetch calls a run makes: every URL of every source whose feeder
      can be built, sources and URLs in configured order. */
  ghost function ExpectedFetches(env: Env, config: seq<(FeederId, seq<Url>)>): seq<(FeederId, Url)>
  {
    if config == [] then []
    else
      var (feeder, urls) := config[|config| - 1];
      ExpectedFetches(env, config[..|config| - 1])
      + if Opens(env, feeder) then Pair(feeder, urls) else []
  }

  /** The quit calls a run makes: one per source whose feeder can be built. */
  ghost function ExpectedQuits(env: Env, config: seq<(FeederId, seq<Url>)>): seq<FeederId>
  {
    if config == [] then []
    else
      var (feeder, urls) := config[|config| - 1];
      ExpectedQuits(env, config[..|config| - 1])
      + if Opens(env, feeder) then [feeder] else []
  }

  /** `u` is one of the configured URLs. */
  ghost predicate Configured(config: seq<(FeederId, seq<Url>)>, u: Url)
  {
    exists j :: 0 <= j < |config| && u in config[j].1
  }

  lemma ExpectedStep(env: Env, config: seq<(FeederId, seq<Url>)>, i: nat)
    requires i < |config|
    ensures ExpectedFetches(env, config[..i + 1]) == ExpectedFetches(env, config[..i])
      + if Opens(env, config[i].0) then Pair(config[i].0, config[i].1) else []
    ensures ExpectedQuits(env, config[..i + 1]) == ExpectedQuits(env, config[..i])
      + if Opens(env, config[i].0) then [config[i].0] else []
    ensures forall u :: Configured(config[..i + 1], u) <==> Configured(config[..i], u) || u in config[i].1
  {
    assert config[..i + 1][..i] == config[..i];
    assert config[..i + 1][i] == config[i];
    assert forall j :: 0 <= j < i ==> config[..i][j] == config[..i + 1][j];
  }

  /** The per-URL loop relation fetches exactly its URLs in order, makes
      no quit or touch, keeps the clock fresh and changes only the
      histories of its URLs. */
  lemma UrlsRunFacts(env: Env, feeder: FeederId, urls: seq<Url>, store: Store, clock: ShardId,
                     store': Store, clock': ShardId, events: seq<Event>)
    requires UrlsRun(env, feeder, urls, store, clock, store', clock', events)
    ensures Fetches(events) == Pair(feeder, urls) && Quits(events) == [] && Touches(events) == 0
    ensures clock <= clock'
    ensures FreshClock(store, clock) ==> FreshClock(store', clock')
    ensures forall u :: u !in urls ==> DirOf(store', u) == DirOf(store, u)
  {
    var stores, clocks, segs :| UrlsChain(env, feeder, urls, stores, clocks, segs)
      && Concat(segs) == events
      && stores[0] == store && clocks[0] == clock && stores[|urls|] == store' && clocks[|urls|] == clock';
    assert segs[..|urls|] == segs && urls[..|urls|] == urls && urls[0..|urls|] == urls;
    UrlsChainProjections(env, feeder, urls, stores, clocks, segs, |urls|);
    UrlsChainState(env, feeder, urls, stores, clocks, segs, 0, |urls|);
  }

  /** What one source does to the observable projections and the state:
      the fetches and the quit of a feeder that can be built, nothing of
      either otherwise; only the source's own URLs' histories change. */
  lemma SourceStepFacts(env: Env, feeder: FeederId, urls: seq<Url>, store: Store, clock: ShardId,
                        store': Store, clock': ShardId, events: seq<Event>)
    requires SourceStep(env, feeder, urls, store, clock, store', clock', events)
    ensures Fetches(events) == (if Opens(env, feeder) then Pair(feeder, urls) else [])
    ensures Quits(events) == (if Opens(env, feeder) then [feeder] else [])
    ensures Touches(events) == 0
    ensures clock <= clock'
    ensures FreshClock(store, clock) ==> FreshClock(store', clock')
    ensures forall u :: u !in urls ==> DirOf(store', u) == DirOf(store, u)
  {
    if !Opens(env, feeder) {
      NoLoopEvents(events);
    } else {
      var n := |events| - |QuitTail(env, feeder)|;
      UrlsRunFacts(env, feeder, urls, store, clock, store', clock', events[..n]);
      QuitTailProjections(env, feeder);
      ProjectionsAppend(events[..n], events[n..]);
      assert events[..n] + events[n..] == events;
    }
  }

  /** The per-source loop of `run` over `config`, step by step:
      `stores[i]` and `clocks[i]` are the state before source `i`, and
      `segs[i]` is what source `i` produced. */
  ghost predicate SourcesChain(env: Env, config: seq<(FeederId, seq<Url>)>, stores: seq<Store>,
                               clocks: seq<ShardId>, segs: seq<seq<Event>>)
  {
    && |stores| == |clocks| == |config| + 1 && |segs| == |config|
    && forall i :: 0 <= i < |config| ==>
         SourceStep(env, config[i].0, config[i].1, stores[i], clocks[i], stores[i + 1], clocks[i + 1], segs[i])
  }

  /** The per-source loop as a relation: one `SourceStep` per source, in
      configured order, each starting from the state the previous one left. */
  ghost predicate SourcesRun(env: Env, config: seq<(FeederId, seq<Url>)>, store: Store, clock: ShardId,
                             store': Store, clock': ShardId, events: seq<Event>)
  {
    exists stores, clocks, segs ::
      && SourcesChain(env, config, stores, clocks, segs)
      && Concat(segs) == events
      && stores[0] == store && clocks[0] == clock
      && stores[|config|] == store' && clocks[|config|] == clock'
  }

  lemma SourcesChainSnoc(env: Env, config: seq<(FeederId, seq<Url>)>, i: nat, stores: seq<Store>,
                         clocks: seq<ShardId>, segs: seq<seq<Event>>, s: Store, c: ShardId, ev: seq<Event>)
    requires i < |config|
    requires SourcesChain(env, config[..i], stores, clocks, segs)
    requires SourceStep(env, config[i].0, config[i].1, stores[i], clocks[i], s, c, ev)
    ensures SourcesChain(env, config[..i + 1], stores + [s], clocks + [c], segs + [ev])
  {
    assert forall j :: 0 <= j < i ==> config[..i + 1][j] == config[..i][j];
  }

  /** The first `k` sources fetch and quit exactly what `ExpectedFetches`
      and `ExpectedQuits` say, and touch nothing. */
  lemma {:induction false} SourcesChainProjections(env: Env, config: seq<(FeederId, seq<Url>)>, stores: seq<Store>,
                                                   clocks: seq<ShardId>, segs: seq<seq<Event>>, k: nat)
    requires SourcesChain(env, config, stores, clocks, segs)
    requires k <= |config|
    ensures Fetches(Concat(segs[..k])) == ExpectedFetches(env, config[..k])
    ensures Quits(Concat(segs[..k])) == ExpectedQuits(env, config[..k])
    ensures Touches(Concat(segs[..k])) == 0
  {
    if k > 0 {
      SourcesChainProjections(env, config, stores, clocks, segs, k - 1);
      SourceStepFacts(env, config[k - 1].0, config[k - 1].1, stores[k - 1], clocks[k - 1], stores[k], clocks[k], segs[k - 1]);
      assert segs[..k][..k - 1] == segs[..k - 1];
      ProjectionsAppend(Concat(segs[..k - 1]), segs[k - 1]);
      ExpectedStep(env, config, k - 1);
    }
  }

  /** Between sources `lo` and `hi` the clock never goes back and stays
      fresh, and a URL none of those sources lists keeps its history. */
  lemma {:induction false} SourcesChainState(env: Env, config: seq<(FeederId, seq<Url>)>, stores: seq<Store>,
                                             clocks: seq<ShardId>, segs: seq<seq<Event>>, lo: nat, hi: nat)
    requires SourcesChain(env, config, stores, clocks, segs)
    requires lo <= hi <= |config|
    ensures clocks[lo] <= clocks[hi]
    ensures FreshClock(stores[lo], clocks[lo]) ==> FreshClock(stores[hi], clocks[hi])
    ensures forall u :: (forall i :: lo <= i < hi ==> u !in config[i].1) ==> DirOf(stores[hi], u) == DirOf(stores[lo], u)
    decreases hi
  {
    if lo < hi {
      SourcesChainState(env, config, stores, clocks, segs, lo, hi - 1);
      SourceStepFacts(env, config[hi - 1].0, config[hi - 1].1, stores[hi - 1], clocks[hi - 1], stores[hi], clocks[hi], segs[hi - 1]);
    }
  }

  /** The `for feeder_id, urls in FEEDER_URLS.items()` loop of `run`. */
  method ProcessSources(env: Env, config: seq<(FeederId, seq<Url>)>, store: Store, clock: ShardId)
    returns (store': Store, clock': ShardId, events: seq<Event>)
    ensures SourcesRun(env, config, store, clock, store', clock', events)
    ensures Fetches(events) == ExpectedFetches(env, config)
    ensures Quits(events) == ExpectedQuits(env, config)
    ensures Touches(events) == 0
    ensures forall u :: !Configured(config, u) ==> DirOf(store', u) == DirOf(store, u)
    ensures clock <= clock'
    ensures FreshClock(store, clock) ==> FreshClock(store', clock')
  {
    store', clock', events := store, clock, [];
    ghost var stores, clocks, segs := [store], [clock], [];
    var i := 0;
    while i < |config|
      invariant 0 <= i <= |config|
      invariant SourcesChain(env, config[..i], stores, clocks, segs) && Concat(segs) == events
      invariant stores[0] == store && clocks[0] == clock
      invariant stores[i] == store' && clocks[i] == clock'
    {
      var (feeder, urls) := config[i];
      var s, c, ev := ProcessSource(env, feeder, urls, store', clock');
      SourcesChainSnoc(env, config, i, stores, clocks, segs, s, c, ev);
      ConcatSnoc(segs, ev);
      stores, clocks, segs := stores + [s], clocks + [c], segs + [ev];
      events := events + ev;
      store', clock' := s, c;
      i := i + 1;
    }
    assert config[..i] == config && segs[..i] == segs;
    SourcesChainProjections(env, config, stores, clocks, segs, i);
    SourcesChainState(env, config, stores, clocks, segs, 0, i);
  }

  /** One source: a URL it lists once, whose fetch succeeds, with a
      readable history and a fresh clock before the source, has every live
      item recorded after it. */
  lemma SourceStepRecords(env: Env, feeder: FeederId, urls: seq<Url>, store: Store, clock: ShardId,
                          store': Store, clock': ShardId, events: seq<Event>, j: nat)
    requires SourceStep(env, feeder, urls, store, clock, store', clock', events)
    requires j < |urls| && urls[j] !in urls[..j] && urls[j] !in urls[j + 1..]
    requires Opens(env, feeder) && env.fetch(feeder, urls[j]).Some?
    requires FreshClock(store, clock) && AllReadable(DirOf(store, urls[j]))
    ensures forall k :: k in env.fetch(feeder, urls[j]).value ==> IsKnown(DirOf(store', urls[j]), k)
  {
    var n := |events| - |QuitTail(env, feeder)|;
    var stores, clocks, segs :| UrlsChain(env, feeder, urls, stores, clocks, segs)
      && Concat(segs) == events[..n]
      && stores[0] == store && clocks[0] == clock && stores[|urls|] == store' && clocks[|urls|] == clock';
    UrlsChainRecords(env, feeder, urls, stores, clocks, segs, j);
  }

  /** The URL at position `j` of source `i` appears nowhere else in the
      configuration. */
  ghost predicate ListedOnce(config: seq<(FeederId, seq<Url>)>, i: nat, j: nat)
  {
    && i < |config| && j < |config[i].1|
    && forall i', j' :: 0 <= i' < |config| && 0 <= j' < |config[i'].1| && (i', j') != (i, j) ==>
         config[i'].1[j'] != config[i].1[j]
  }

  lemma ListedOnceElsewhere(config: seq<(FeederId, seq<Url>)>, i: nat, j: nat)
    requires ListedOnce(config, i, j)
    ensures config[i].1[j] !in config[i].1[..j] && config[i].1[j] !in config[i].1[j + 1..]
    ensures forall i' :: 0 <= i' < |config| && i' != i ==> config[i].1[j] !in config[i'].1
  {
    var urls := config[i].1;
    forall j' | 0 <= j' < |urls| && j' != j ensures urls[j'] != urls[j] {
      assert (i, j') != (i, j);
    }
    forall i' | 0 <= i' < |config| && i' != i ensures config[i].1[j] !in config[i'].1 {
      forall j' | 0 <= j' < |config[i'].1| ensures config[i'].1[j'] != config[i].1[j] {
        assert (i', j') != (i, j);
      }
    }
  }

  /** No repeat across the sources: for a URL configured once, whose
      feeder can be built and whose fetch succeeds, with a readable history
      at the start, every live item is recorded when the sources are done. */
  lemma SourcesChainRecords(env: Env, config: seq<(FeederId, seq<Url>)>, stores: seq<Store>,
                            clocks: seq<ShardId>, segs: seq<seq<Event>>, i: nat, j: nat)
    requires SourcesChain(env, config, stores, clocks, segs)
    requires ListedOnce(config, i, j)
    requires Opens(env, config[i].0) && env.fetch(config[i].0, config[i].1[j]).Some?
    requires FreshClock(stores[0], clocks[0]) && AllReadable(DirOf(stores[0], config[i].1[j]))
    ensures forall k :: k in env.fetch(config[i].0, config[i].1[j]).value ==>
      IsKnown(DirOf(stores[|config|], config[i].1[j]), k)
  {
    var u := config[i].1[j];
    ListedOnceElsewhere(config, i, j);
    SourcesChainState(env, config, stores, clocks, segs, 0, i);
    assert SourceStep(env, config[i].0, config[i].1, stores[i], clocks[i], stores[i + 1], clocks[i + 1], segs[i]);
    SourceStepRecords(env, config[i].0, config[i].1, stores[i], clocks[i], stores[i + 1], clocks[i + 1], segs[i], j);
    SourcesChainState(env, config, stores, clocks, segs, i + 1, |config|);
  }

  /** No repeat across a whole run: the live items of every URL configured
      once, with a readable history, are all recorded after the sources,
      so the next run does not notify any of them again. */
  lemma SourcesRunRecords(env: Env, config: seq<(FeederId, seq<Url>)>, store: Store, clock: ShardId,
                          store': Store, clock': ShardId, events: seq<Event>, i: nat, j: nat)
    requires SourcesRun(env, config, store, clock, store', clock', events)
    requires ListedOnce(config, i, j)
    requires Opens(env, config[i].0) && env.fetch(config[i].0, config[i].1[j]).Some?
    requires FreshClock(store, clock) && AllReadable(DirOf(store, config[i].1[j]))
    ensures forall k :: k in env.fetch(config[i].0, config[i].1[j]).value ==> IsKnown(DirOf(store', config[i].1[j]), k)
  {
    var stores, clocks, segs :| SourcesChain(env, config, stores, clocks, segs)
      && Concat(segs) == events
      && stores[0] == store && clocks[0] == clock && stores[|config|] == store' && clocks[|config|] == clock';
    SourcesChainRecords(env, config, stores, clocks, segs, i, j);
  }

  /** The URL at position `j` of source `i` is its first occurrence in the
      configuration. */
  ghost predicate FirstListed(config: seq<(FeederId, seq<Url>)>, i: nat, j: nat)
  {
    && i < |config| && j < |config[i].1|
    && config[i].1[j] !in config[i].1[..j]
    && forall i' :: 0 <= i' < i ==> config[i].1[j] !in config[i'].1
  }

  /** Every failure one source meets is reported in its own trace: a
      feeder that cannot be built, a fetch that fails, a save that meets an
      unreadable shard (for the first occurrence of a URL in the source),
      and a `quit` that raises. */
  lemma SourceStepReports(env: Env, feeder: FeederId, urls: seq<Url>, store: Store, clock: ShardId,
                          store': Store, clock': ShardId, events: seq<Event>)
    requires SourceStep(env, feeder, urls, store, clock, store', clock', events)
    ensures !Opens(env, feeder) ==> Send(NAME, FailureBody(feeder)) in events
    ensures Opens(env, feeder) && env.quitFails(feeder) ==> Send(NAME, FailureBody(feeder)) in events
    ensures Opens(env, feeder) ==>
      forall j :: 0 <= j < |urls| && env.fetch(feeder, urls[j]).None? ==>
        Send(NAME, FailureBody(urls[j])) in events
    ensures Opens(env, feeder) ==>
      forall j :: 0 <= j < |urls| && urls[j] !in urls[..j] && UrlFails(env, feeder, urls[j], DirOf(store, urls[j])) ==>
        Send(NAME, FailureBody(urls[j])) in events
  {
    if Opens(env, feeder) {
      var n := |events| - |QuitTail(env, feeder)|;
      assert events == events[..n] + events[n..];
      forall j | 0 <= j < |urls|
        ensures env.fetch(feeder, urls[j]).None? ==> Send(NAME, FailureBody(urls[j])) in events
        ensures urls[j] !in urls[..j] && UrlFails(env, feeder, urls[j], DirOf(store, urls[j])) ==>
          Send(NAME, FailureBody(urls[j])) in events
      {
        UrlsRunReports(env, feeder, urls, store, clock, store', clock', events[..n], j);
      }
    }
  }

  /** Every failure the sources loop meets is reported: a feeder that
      cannot be built, a fetch that fails, a save that meets an unreadable
      shard (for the first occurrence of a URL, judged on the history before
      the loop), and a `quit` that raises each put their failure
      notification in the trace. */
  lemma SourcesChainReports(env: Env, config: seq<(FeederId, seq<Url>)>, stores: seq<Store>,
                            clocks: seq<ShardId>, segs: seq<seq<Event>>, i: nat)
    requires SourcesChain(env, config, stores, clocks, segs)
    requires i < |config|
    ensures !Opens(env, config[i].0) ==> Send(NAME, FailureBody(config[i].0)) in Concat(segs)
    ensures Opens(env, config[i].0) && env.quitFails(config[i].0) ==>
      Send(NAME, FailureBody(config[i].0)) in Concat(segs)
    ensures Opens(env, config[i].0) ==>
      forall j :: 0 <= j < |config[i].1| && env.fetch(config[i].0, config[i].1[j]).None? ==>
        Send(NAME, FailureBody(config[i].1[j])) in Concat(segs)
    ensures Opens(env, config[i].0) ==>
      forall j: nat :: FirstListed(config, i, j) && UrlFails(env, config[i].0, config[i].1[j], DirOf(stores[0], config[i].1[j])) ==>
        Send(NAME, FailureBody(config[i].1[j])) in Concat(segs)
  {
    var (feeder, urls) := config[i];
    SourceStepReports(env, feeder, urls, stores[i], clocks[i], stores[i + 1], clocks[i + 1], segs[i]);
    SourcesChainState(env, config, stores, clocks, segs, 0, i);
    forall e | e in segs[i] ensures e in Concat(segs) {
      ConcatMember(segs, i, e);
    }
  }

  /** The same, for the trace of a whole sources loop. */
  lemma SourcesRunReports(env: Env, config: seq<(FeederId, seq<Url>)>, store: Store, clock: ShardId,
                          store': Store, clock': ShardId, events: seq<Event>, i: nat)
    requires SourcesRun(env, config, store, clock, store', clock', events)
    requires i < |config|
    ensures !Opens(env, config[i].0) ==> Send(NAME, FailureBody(config[i].0)) in events
    ensures Opens(env, config[i].0) && env.quitFails(config[i].0) ==> Send(NAME, FailureBody(config[i].0)) in events
    ensures Opens(env, config[i].0) ==>
      forall j :: 0 <= j < |config[i].1| && env.fetch(config[i].0, config[i].1[j]).None? ==>
        Send(NAME, FailureBody(config[i].1[j])) in events
    ensures Opens(env, config[i].0) ==>
      forall j: nat :: FirstListed(config, i, j) && UrlFails(env, config[i].0, config[i].1[j], DirOf(store, config[i].1[j])) ==>
        Send(NAME, FailureBody(config[i].1[j])) in events
  {
    var stores, clocks, segs :| SourcesChain(env, config, stores, clocks, segs)
      && Concat(segs) == events
      && stores[0] == store && clocks[0] == clock && stores[|config|] == store' && clocks[|config|] == clock';
    SourcesChainReports(env, config, stores, clocks, segs, i);
  }

  /** `ItemFetcher.run`: nothing at all unless the gate is open; then every
      source in configured order, each inside its own catch-report-continue
      boundary, and the run file touched at the end whatever happened.
      `config` is `FEEDER_URLS.items()`; `runFile` the run file's
      modification time (None when missing); `touchedAt` the time of the
      touch. */
  method Run(env: Env, config: seq<(FeederId, seq<Url>)>, store: Store, clock: ShardId,
             runFile: Option<real>, now: real, idle: bool, touchedAt: real)
    returns (store': Store, clock': ShardId, events: seq<Event>, runFile': Option<real>)
    ensures !MustRun(now, runFile, idle) ==>
      events == [] && store' == store && clock' == clock && runFile' == runFile
    ensures MustRun(now, runFile, idle) ==>
      && events != [] && events[|events| - 1] == Touch && Touches(events) == 1
      && runFile' == Some(touchedAt)
      && SourcesRun(env, config, store, clock, store', clock', events[..|events| - 1])
      && Fetches(events) == ExpectedFetches(env, config)
      && Quits(events) == ExpectedQuits(env, config)
    ensures forall u :: !Configured(config, u) ==> DirOf(store', u) == DirOf(store, u)
    ensures FreshClock(store, clock) ==> FreshClock(store', clock')
  {
    if !MustRun(now, runFile, idle) {
      store', clock', events, runFile' := store, clock, [], runFile;
      return;
    }
    store', clock', events := ProcessSources(env, config, store, clock);
    ProjectionsAppend(events, [Touch]);
    ghost var body := events;
    events := events + [Touch];
    assert events[..|events| - 1] == body;
    runFile' := Some(touchedAt);
  }

  /** Two runs in a row, the second at `now2`. A first run that ran
      touches the run file at `touchedAt`; while the run file says
      `touchedAt`, a second run within `RUN_DELTA` of it does nothing at
      all, whatever the machine's idleness. */
  method RunTwice(env: Env, config: seq<(FeederId, seq<Url>)>, store: Store, clock: ShardId,
                  runFile: Option<real>, now: real, idle: bool, touchedAt: real, now2: real, idle2: bool)
    returns (store1: Store, clock1: ShardId, events1: seq<Event>, runFile1: Option<real>,
             store2: Store, clock2: ShardId, events2: seq<Event>, runFile2: Option<real>)
    ensures MustRun(now, runFile, idle) ==> runFile1 == Some(touchedAt)
    ensures runFile1 == Some(touchedAt) && now2 <= touchedAt + RUN_DELTA ==>
      events2 == [] && store2 == store1 && clock2 == clock1 && runFile2 == runFile1
  {
    store1, clock1, events1, runFile1 := Run(env, config, store, clock, runFile, now, idle, touchedAt);
    store2, clock2, events2, runFile2 := Run(env, config, store1, clock1, runFile1, now2, idle2, now2);
  }
}
