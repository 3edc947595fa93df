/** The per-URL item history (`ItemHistory`).

    A URL's history is a directory of shards. Each shard is a JSON file
    holding a map from item name to rank, written by one poll that found
    new items. A directory is modelled as a map from shard id (the
    millisecond timestamp in the file name) to the shard's content, `None`
    standing for a file that fails to load. The whole history store maps
    directory names (`UrlQuote.Quote` of the URL) to directories.

    The order in which the source lists a directory (`glob`) is not
    specified; every property here holds for any listing order. */
module History {
  import opened Wrappers
  import UrlQuote

  type Url = string
  type ShardId = nat
  /** Item name to recency rank (larger is more recent). */
  type Items = map<string, int>
  type Dir = map<ShardId, Option<Items>>
  /** Directory name to directory; a missing name is a missing directory. */
  type Store = map<string, Dir>

  /** The directory a URL's history lives in; empty when it does not exist. */
  function DirOf(store: Store, url: Url): Dir
  {
    var dn := UrlQuote.Quote(url);
    if dn in store then store[dn] else map[]
  }

  /** `store'` differs from `store` at most in directory `dn`. */
  ghost predicate OnlyDirChanged(store: Store, store': Store, dn: string)
  {
    forall d :: d != dn ==> (d in store' <==> d in store) && (d in store ==> store'[d] == store[d])
  }

  /** A store change confined to the directory of `url` leaves the history
      of every other URL as it was, because distinct URLs have distinct
      directory names. */
  lemma OtherHistoriesUnchanged(store: Store, store': Store, url: Url)
    requires OnlyDirChanged(store, store', UrlQuote.Quote(url))
    ensures forall u :: u != url ==> DirOf(store', u) == DirOf(store, u)
  {
    forall u | u != url
      ensures DirOf(store', u) == DirOf(store, u)
    {
      UrlQuote.QuoteInjective(u, url);
      var dn := UrlQuote.Quote(u);
      assert dn != UrlQuote.Quote(url);
    }
  }

  ghost predicate Distinct(ids: seq<ShardId>)
  {
    forall i, j :: 0 <= i < j < |ids| ==> ids[i] != ids[j]
  }

  /** `order` lists every shard of `dir` exactly once. */
  ghost predicate IsListing(order: seq<ShardId>, dir: Dir)
  {
    && Distinct(order)
    && forall id :: id in order <==> id in dir
  }

  /** Shard `id` of `dir` loads and records item `k`. */
  ghost predicate Records(dir: Dir, id: ShardId, k: string)
  {
    id in dir && dir[id].Some? && k in dir[id].value
  }

  /** Item `k` counts as already seen for the URL of `dir`. */
  ghost predicate IsKnown(dir: Dir, k: string)
  {
    exists id :: Records(dir, id, k)
  }

  /** Lists a directory in some order (`glob`), which the model leaves open. */
  method ListShards(dir: Dir) returns (order: seq<ShardId>)
    ensures IsListing(order, dir)
  {
    order := [];
    var rest := dir.Keys;
    while rest != {}
      invariant rest <= dir.Keys
      invariant Distinct(order)
      invariant forall id :: id in order <==> id in dir && id !in rest
      decreases rest
    {
      var id :| id in rest;
      order := order + [id];
      rest := rest - {id};
    }
  }

  /** The history loaded by `ItemHistory.__init__`: the shards are read in
      `order` and every one that loads as a non-empty map is merged in, a
      later shard's rank replacing an earlier one's. The result holds
      exactly the items some readable shard records, whatever the order. */
  function LoadItems(dir: Dir, order: seq<ShardId>): (known: Items)
    requires forall i :: 0 <= i < |order| ==> order[i] in dir
    ensures forall k :: k in known <==> exists id :: id in order && Records(dir, id, k)
    ensures forall k :: k in known ==>
      exists id :: id in order && Records(dir, id, k) && known[k] == dir[id].value[k]
  {
    if order == [] then map[]
    else
      var acc := LoadItems(dir, order[..|order| - 1]);
      var last := order[|order| - 1];
      assert forall id :: id in order <==> id in order[..|order| - 1] || id == last;
      match dir[last]
      case Some(items) =>
        assert forall k :: k in items ==> Records(dir, last, k);
        if items != map[] then acc + items else acc
      case None => acc
  }

  /** The items of the live listing `all` that the history `known` does not
      hold, with their ranks (`_fetch_url_items`). */
  function NewItems(all: Items, known: Items): (newItems: Items)
    ensures newItems.Keys <= all.Keys && newItems.Keys !! known.Keys
    ensures forall k :: k in all && k !in known ==> k in newItems && newItems[k] == all[k]
  {
    map k | k in all && k !in known :: all[k]
  }

  /** Reference definition of the new items: the live entries no readable
      shard of the directory records. */
  ghost function Unseen(all: Items, dir: Dir): Items
  {
    map k | k in all && !IsKnown(dir, k) :: all[k]
  }

  /** Loading the directory in any listing order and diffing gives the
      reference new items; so recomputing the diff without an intervening
      save gives the same result every time. */
  lemma NewItemsAreUnseen(all: Items, dir: Dir, order: seq<ShardId>)
    requires IsListing(order, dir)
    ensures NewItems(all, LoadItems(dir, order)) == Unseen(all, dir)
  {
    var known := LoadItems(dir, order);
    forall k | k in all
      ensures k in known <==> IsKnown(dir, k)
    {
      if IsKnown(dir, k) {
        var id :| Records(dir, id, k);
        assert id in order;
      }
    }
  }

  /** Outcome of `ItemHistory.save`: `Crashed` when an unreadable shard made
      it raise, holding the directory as far as it had been pruned. */
  datatype SaveResult = Saved(dir: Dir) | Crashed(dir: Dir)

  /** Shard `s` is one `save` deletes: it loads, and it shares no key with
      the live items `live`. An empty shard is one of them. */
  ghost predicate Deletable(dir: Dir, s: ShardId, live: set<string>)
  {
    s in dir && dir[s].Some? && dir[s].value.Keys !! live
  }

  /** Reference result of pruning the shards `visited`: the deletable ones
      among them are gone, everything else is as it was. */
  ghost function Pruned(dir: Dir, visited: seq<ShardId>, live: set<string>): Dir
  {
    map s | s in dir && !(s in visited && Deletable(dir, s, live)) :: dir[s]
  }

  /** Reference result of pruning the whole directory. */
  ghost function Kept(dir: Dir, live: set<string>): Dir
  {
    map s | s in dir && !Deletable(dir, s, live) :: dir[s]
  }

  /** `order[i]` is the first shard of `order` that cannot be read. */
  ghost predicate FirstUnreadable(dir: Dir, order: seq<ShardId>, i: int)
  {
    && 0 <= i < |order|
    && order[i] in dir && dir[order[i]].None?
    && forall j :: 0 <= j < i ==> order[j] in dir && dir[order[j]].Some?
  }

  /** The pruning pass of `save`: shards are visited in `order`; a readable
      shard sharing no key with `live` is deleted (an empty one included);
      an unreadable shard stops the pass with an error, leaving the
      deletions already made. */
  function PruneShards(dir: Dir, order: seq<ShardId>, live: set<string>): (r: SaveResult)
    requires forall i :: 0 <= i < |order| ==> order[i] in dir
    requires Distinct(order)
    ensures r.Saved? <==> forall id :: id in order ==> dir[id].Some?
    ensures r.Saved? ==> r.dir == Pruned(dir, order, live)
    // the pass stops at the first unreadable shard, with exactly the
    // deletable shards before it deleted
    ensures r.Crashed? ==>
      exists i :: FirstUnreadable(dir, order, i) && r.dir == Pruned(dir, order[..i], live)
  {
    if order == [] then
      assert Pruned(dir, order, live) == dir;
      Saved(dir)
    else
      var id := order[0];
      match dir[id]
      case None =>
        assert FirstUnreadable(dir, order, 0);
        assert Pruned(dir, order[..0], live) == dir;
        Crashed(dir)
      case Some(items) =>
        var next := if items.Keys !! live then dir - {id} else dir;
        assert forall j :: 1 <= j < |order| ==> order[j] != id;
        var r := PruneShards(next, order[1..], live);
        if r.Crashed? then
          CrashShiftFirst(dir, next, order, live, r.dir);
          r
        else
          PrunedStep(dir, next, order, live, |order|);
          assert order[..|order|] == order;
          r
  }

  /** Visiting a readable first shard and then pruning the rest of a prefix
      is pruning the whole prefix. */
  lemma PrunedStep(dir: Dir, next: Dir, order: seq<ShardId>, live: set<string>, k: nat)
    requires Distinct(order) && 1 <= k <= |order|
    requires forall i :: 0 <= i < |order| ==> order[i] in dir
    requires dir[order[0]].Some?
    requires next == if Deletable(dir, order[0], live) then dir - {order[0]} else dir
    ensures Pruned(next, order[1..k], live) == Pruned(dir, order[..k], live)
  {
    var a, b := Pruned(next, order[1..k], live), Pruned(dir, order[..k], live);
    forall s
      ensures s in a <==> s in b
    {
      if s == order[0] {
        assert s !in order[1..k];
        assert s in order[..k];
      } else {
        assert s in order[1..k] <==> s in order[..k];
      }
    }
  }

  /** The first unreadable shard of the rest of the order is the first of
      the whole order when the first shard is readable, and the partial
      pruning extends by that first shard. */
  lemma CrashShiftFirst(dir: Dir, next: Dir, order: seq<ShardId>, live: set<string>, kept: Dir)
    requires Distinct(order) && order != []
    requires forall i :: 0 <= i < |order| ==> order[i] in dir
    requires dir[order[0]].Some?
    requires next == if Deletable(dir, order[0], live) then dir - {order[0]} else dir
    requires exists i ::
      FirstUnreadable(next, order[1..], i) && kept == Pruned(next, order[1..][..i], live)
    ensures exists i ::
      FirstUnreadable(dir, order, i) && kept == Pruned(dir, order[..i], live)
  {
    var i :| FirstUnreadable(next, order[1..], i) && kept == Pruned(next, order[1..][..i], live);
    assert order[1..][..i] == order[1..i + 1];
    PrunedStep(dir, next, order, live, i + 1);
    assert FirstUnreadable(dir, order, i + 1) by {
      assert order[i + 1] == order[1..][i];
      forall j | 1 <= j < i + 1
        ensures order[j] in dir && dir[order[j]].Some?
      {
        assert order[j] == order[1..][j - 1];
      }
    }
  }

  /** What pruning leaves, in terms of single shards: nothing is added or
      changed, a shard outside `order` is kept, and only deletable shards
      are removed. A completed pass removes every deletable listed shard; a
      stopped pass keeps its unreadable shard and every shard after it. */
  lemma PruneShardsFrame(dir: Dir, order: seq<ShardId>, live: set<string>)
    requires forall i :: 0 <= i < |order| ==> order[i] in dir
    requires Distinct(order)
    ensures var r := PruneShards(dir, order, live);
      && r.dir.Keys <= dir.Keys
      && (forall id :: id in r.dir ==> r.dir[id] == dir[id])
      && (forall id :: id in dir && id !in order ==> id in r.dir)
      && (forall id :: id in dir && id !in r.dir ==> Deletable(dir, id, live))
      && (r.Saved? ==> forall id :: id in order && Deletable(dir, id, live) ==> id !in r.dir)
      && (r.Crashed? ==>
            exists i :: 0 <= i < |order| && dir[order[i]].None?
              && forall j :: i <= j < |order| ==> order[j] in r.dir)
  {
    var r := PruneShards(dir, order, live);
    if r.Crashed? {
      var i :| FirstUnreadable(dir, order, i) && r.dir == Pruned(dir, order[..i], live);
      forall j | i <= j < |order|
        ensures order[j] in r.dir
      {
        assert order[j] !in order[..i];
      }
    }
  }

  /** `ItemHistory.save(all, newItems)`: prune against the keys of `all`, then
      write one shard `id` holding exactly `newItems`. It fails, writing
      nothing, exactly when some shard of the directory is unreadable. */
  function Save(dir: Dir, order: seq<ShardId>, all: Items, newItems: Items, id: ShardId): (r: SaveResult)
    requires IsListing(order, dir)
    ensures r.Crashed? <==> exists s :: s in dir && dir[s].None?
    ensures r.Saved? ==> id in r.dir && r.dir[id] == Some(newItems)
    ensures r.Saved? ==> forall s :: s != id ==>
      (s in r.dir <==> s in dir && dir[s].Some? && !(dir[s].value.Keys !! all.Keys))
    ensures forall s :: s in r.dir && (r.Crashed? || s != id) ==> s in dir && r.dir[s] == dir[s]
    ensures forall s :: s in dir && s !in r.dir ==> dir[s].Some? && dir[s].value.Keys !! all.Keys
    ensures r.Saved? ==> r.dir == Kept(dir, all.Keys)[id := Some(newItems)]
    ensures r.Crashed? ==>
      exists i :: FirstUnreadable(dir, order, i) && r.dir == Pruned(dir, order[..i], all.Keys)
  {
    PruneShardsFrame(dir, order, all.Keys);
    match PruneShards(dir, order, all.Keys)
    case Crashed(d) => Crashed(d)
    case Saved(d) =>
      assert d == Kept(dir, all.Keys);
      Saved(d[id := Some(newItems)])
  }

  /** No repeat: after a successful save with a fresh shard id, every item
      of the live listing counts as seen, so diffing the same listing again
      finds nothing new. Shards pruned by the save held no live item, and
      the new shard holds the rest. */
  lemma {:induction false} SaveRecordsLiveItems(
    dir: Dir, order: seq<ShardId>, all: Items, id: ShardId)
    requires IsListing(order, dir)
    requires id !in dir
    requires Save(dir, order, all, Unseen(all, dir), id).Saved?
    ensures forall k :: k in all ==> IsKnown(Save(dir, order, all, Unseen(all, dir), id).dir, k)
  {
    var newItems := Unseen(all, dir);
    var d := Save(dir, order, all, newItems, id).dir;
    forall k | k in all
      ensures IsKnown(d, k)
    {
      if IsKnown(dir, k) {
        var s :| Records(dir, s, k);
        assert k in dir[s].value.Keys * all.Keys;
        assert Records(d, s, k);
      } else {
        assert k in newItems;
        assert Records(d, id, k);
      }
    }
  }

  /** After a successful save, the next diff against the same live listing
      is empty, in whatever order the directory is listed. */
  lemma NothingNewAfterSave(
    dir: Dir, order: seq<ShardId>, all: Items, id: ShardId, next: seq<ShardId>)
    requires IsListing(order, dir)
    requires id !in dir
    requires Save(dir, order, all, Unseen(all, dir), id).Saved?
    requires IsListing(next, Save(dir, order, all, Unseen(all, dir), id).dir)
    ensures NewItems(all, LoadItems(Save(dir, order, all, Unseen(all, dir), id).dir, next)) == map[]
  {
    var d := Save(dir, order, all, Unseen(all, dir), id).dir;
    SaveRecordsLiveItems(dir, order, all, id);
    NewItemsAreUnseen(all, d, next);
    assert Unseen(all, d).Keys == {};
  }

  /** A save that fails on an unreadable shard leaves the set of seen live
      items unchanged: the shards it already deleted held no live item. The
      same new items are therefore notified again on the next run, and on
      every run until the unreadable shard is gone. */
  lemma CrashedSaveRenotifies(
    dir: Dir, order: seq<ShardId>, all: Items, newItems: Items, id: ShardId)
    requires IsListing(order, dir)
    requires Save(dir, order, all, newItems, id).Crashed?
    ensures Unseen(all, Save(dir, order, all, newItems, id).dir) == Unseen(all, dir)
  {
    var d := Save(dir, order, all, newItems, id).dir;
    forall k | k in all
      ensures IsKnown(d, k) <==> IsKnown(dir, k)
    {
      if IsKnown(dir, k) {
        var s :| Records(dir, s, k);
        assert k in dir[s].value.Keys * all.Keys;
        assert Records(d, s, k);
      }
      if IsKnown(d, k) {
        var s :| Records(d, s, k);
        assert Records(dir, s, k);
      }
    }
  }
}

/** A worked polling sequence for one URL, starting from an empty history:
    the first poll saves both items, the second finds only the one that
    appeared, the third (an item gone, nothing new) saves nothing, and the
    fourth prunes the first shard once none of its items is live any
    more, while the second shard survives through its live item. */
module HistoryScenario {
  import opened Wrappers
  import opened History

  const Poll1: Items := map["A" := 1, "B" := 2]
  const Poll2: Items := map["A" := 1, "B" := 2, "C" := 3]
  const Poll3: Items := map["B" := 2, "C" := 3]
  const Poll4: Items := map["C" := 3, "D" := 4]
  const Dir1: Dir := map[1 := Some(Poll1)]
  const Dir2: Dir := map[1 := Some(Poll1), 2 := Some(map["C" := 3])]

  /** First poll on an empty history: everything is new and one shard is
      written. */
  lemma FirstPoll()
    ensures NewItems(Poll1, LoadItems(map[], [])) == Poll1
    ensures Save(map[], [], Poll1, Poll1, 1) == Saved(Dir1)
  {
  }

  /** Second poll: only the item that appeared is new. */
  lemma SecondPollDiff()
    ensures NewItems(Poll2, LoadItems(Dir1, [1])) == map["C" := 3]
  {
    assert [1][..0] == [];
    assert LoadItems(Dir1, [1]) == Poll1;
  }

  /** Second poll, saved: the first shard keeps live items and stays. */
  lemma SecondPollSave()
    ensures Save(Dir1, [1], Poll2, map["C" := 3], 2) == Saved(Dir2)
  {
    assert [1][1..] == [];
    assert "A" in Poll1.Keys * Poll2.Keys;
  }

  /** Third poll: an item vanished and none appeared, so nothing is new and
      nothing is saved, whichever way the directory is listed. */
  lemma ThirdPoll(order: seq<ShardId>)
    requires IsListing(order, Dir2)
    ensures NewItems(Poll3, LoadItems(Dir2, order)) == map[]
  {
    NewItemsAreUnseen(Poll3, Dir2, order);
    assert Records(Dir2, 1, "B") && Records(Dir2, 2, "C");
    assert Poll3.Keys == {"B", "C"};
  }

  /** Fourth poll: only the item that appeared is new, whichever way the
      directory is listed. */
  lemma FourthPollDiff(order: seq<ShardId>)
    requires IsListing(order, Dir2)
    ensures NewItems(Poll4, LoadItems(Dir2, order)) == map["D" := 4]
  {
    NewItemsAreUnseen(Poll4, Dir2, order);
    UnseenInFourthPoll();
  }

  lemma UnseenInFourthPoll()
    ensures Unseen(Poll4, Dir2) == map["D" := 4]
  {
    assert Records(Dir2, 2, "C");
    forall id
      ensures !Records(Dir2, id, "D")
    {
      if id in Dir2 {
        assert id == 1 || id == 2;
      }
    }
    assert Poll4.Keys == {"C", "D"};
    assert Unseen(Poll4, Dir2).Keys == {"D"};
  }

  /** Fourth poll, saved with the directory listed newest first: the shard
      holding only vanished items is pruned, the other one kept. */
  lemma FourthPollSave()
    ensures Save(Dir2, [2, 1], Poll4, map["D" := 4], 3)
      == Saved(map[2 := Some(map["C" := 3]), 3 := Some(map["D" := 4])])
  {
    assert [2, 1][1..] == [1];
    assert "C" in map["C" := 3].Keys * Poll4.Keys;
    assert Poll1.Keys !! Poll4.Keys;
    assert Dir2 - {1} == map[2 := Some(map["C" := 3])];
  }
}
