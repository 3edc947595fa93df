/** Choice of the new items that get a desktop notification
    (`ItemFetcher._notify_new_items`): the names are sorted by ascending
    rank and only the last `MAX_NOTIFIED` are sent, one notification each,
    in that order. */
module Notify {
  import opened History

  /** Title of every notification: the module name `itemz`. */
  const NAME: string := "itemz"

  /** How many of the new items get a notification (`names[-10:]`). */
  const MAX_NOTIFIED: nat := 10

  function Min(a: nat, b: nat): nat
  {
    if a <= b then a else b
  }

  ghost predicate DistinctNames(names: seq<string>)
  {
    forall i, j :: 0 <= i < j < |names| ==> names[i] != names[j]
  }

  /** `names` is what `sorted(...)[-10:]` can produce for `items`: the
      `min(10, |items|)` highest-ranked names, each once, in ascending rank
      order. Ties between equal ranks are left open. */
  ghost predicate IsSelection(items: Items, names: seq<string>)
  {
    && |names| == Min(MAX_NOTIFIED, |items|)
    && (forall i :: 0 <= i < |names| ==> names[i] in items)
    && DistinctNames(names)
    && (forall i, j :: 0 <= i < j < |names| ==> items[names[i]] <= items[names[j]])
    && (forall k, i :: k in items && k !in names && 0 <= i < |names| ==> items[k] <= items[names[i]])
  }

  /** A name of highest rank among `candidates`. */
  method MaxRanked(items: Items, candidates: set<string>) returns (k: string)
    requires candidates != {} && candidates <= items.Keys
    ensures k in candidates
    ensures forall j :: j in candidates ==> items[j] <= items[k]
  {
    k :| k in candidates;
    var todo := candidates - {k};
    while todo != {}
      invariant todo <= candidates && k in candidates
      invariant forall j :: j in candidates && j !in todo ==> items[j] <= items[k]
      decreases todo
    {
      var j :| j in todo;
      if items[j] > items[k] {
        k := j;
      }
      todo := todo - {j};
    }
  }

  /** The names to notify, in sending order: the highest-ranked names are
      picked one by one and put in front, so the result ends with the most
      recent item. */
  method SelectNotified(items: Items) returns (names: seq<string>)
    ensures IsSelection(items, names)
  {
    names := [];
    var rest := items.Keys;
    while |names| < MAX_NOTIFIED && rest != {}
      invariant rest <= items.Keys
      invariant |names| <= MAX_NOTIFIED
      invariant |names| + |rest| == |items|
      invariant forall i :: 0 <= i < |names| ==> names[i] in items && names[i] !in rest
      invariant forall k :: k in items ==> k in rest || k in names
      invariant DistinctNames(names)
      invariant forall i, j :: 0 <= i < j < |names| ==> items[names[i]] <= items[names[j]]
      invariant forall k, i :: k in rest && 0 <= i < |names| ==> items[k] <= items[names[i]]
      decreases rest
    {
      var k := MaxRanked(items, rest);
      names := [k] + names;
      rest := rest - {k};
    }
  }

  /** Every name is unique in the selection, so the selection notifies
      `|names|` different items. */
  lemma {:induction false} DistinctCard(names: seq<string>)
    requires DistinctNames(names)
    ensures |set k | k in names| == |names|
  {
    if names != [] {
      var tail := names[1..];
      DistinctCard(tail);
      assert (set k | k in names) == {names[0]} + (set k | k in tail);
      assert names[0] !in tail;
    }
  }

  lemma SubsetCard(a: set<string>, b: set<string>)
    requires a <= b
    ensures |a| <= |b|
  {
    assert b == a + (b - a);
  }

  /** With at most ten new items, every one of them is notified. */
  lemma AllNotifiedWhenFew(items: Items, names: seq<string>)
    requires IsSelection(items, names)
    requires |items| <= MAX_NOTIFIED
    ensures forall k :: k in items <==> k in names
  {
    var picked := set k | k in names;
    DistinctCard(names);
    assert picked <= items.Keys;
    forall k | k in items
      ensures k in names
    {
      if k !in names {
        SubsetCard(picked, items.Keys - {k});
      }
    }
  }

  ghost predicate InjectiveRanks(items: Items)
  {
    forall j, k :: j in items && k in items && j != k ==> items[j] != items[k]
  }

  ghost predicate StrictlyAscending(items: Items, a: seq<string>)
  {
    && (forall i :: 0 <= i < |a| ==> a[i] in items)
    && (forall i, j :: 0 <= i < j < |a| ==> items[a[i]] < items[a[j]])
  }

  /** Two strictly ascending sequences with the same members end alike. */
  lemma SameLast(items: Items, a: seq<string>, b: seq<string>)
    requires StrictlyAscending(items, a) && StrictlyAscending(items, b)
    requires forall k :: k in a <==> k in b
    requires a != []
    ensures b != [] && a[|a| - 1] == b[|b| - 1]
  {
    assert a[0] in a && a[0] in b;
    var la, lb := a[|a| - 1], b[|b| - 1];
    assert lb in b && lb in a && la in a && la in b;
    var i :| 0 <= i < |a| && a[i] == lb;
    var j :| 0 <= j < |b| && b[j] == la;
    assert items[lb] <= items[la];
    assert items[la] <= items[lb];
  }

  /** Dropping the common last element keeps the members equal. */
  lemma SameMembersOfPrefix(items: Items, a: seq<string>, b: seq<string>, a': seq<string>, b': seq<string>)
    requires StrictlyAscending(items, a) && StrictlyAscending(items, b)
    requires forall k :: k in a <==> k in b
    requires a != [] && b != [] && a[|a| - 1] == b[|b| - 1]
    requires a' == a[..|a| - 1] && b' == b[..|b| - 1]
    ensures forall k :: k in a' <==> k in b'
  {
    var last := a[|a| - 1];
    forall k
      ensures k in a' <==> k in b'
    {
      if k in a' {
        var p :| 0 <= p < |a'| && a'[p] == k;
        assert a[p] == k && k in a && k in b;
        assert k != last;
        var q :| 0 <= q < |b| && b[q] == k;
        assert q != |b| - 1;
        assert b'[q] == k;
      }
      if k in b' {
        var p :| 0 <= p < |b'| && b'[p] == k;
        assert b[p] == k && k in b && k in a;
        assert k != last;
        var q :| 0 <= q < |a| && a[q] == k;
        assert q != |a| - 1;
        assert a'[q] == k;
      }
    }
  }

  /** A strictly ascending sequence is determined by its members. */
  lemma {:induction false} StrictlySortedUnique(items: Items, a: seq<string>, b: seq<string>)
    requires StrictlyAscending(items, a) && StrictlyAscending(items, b)
    requires forall k :: k in a <==> k in b
    ensures a == b
    decreases |a|
  {
    assert b == [] || b[0] in b;
    if a != [] {
      SameLast(items, a, b);
      var a', b' := a[..|a| - 1], b[..|b| - 1];
      SameMembersOfPrefix(items, a, b, a', b');
      StrictlySortedUnique(items, a', b');
      assert a == a' + [a[|a| - 1]] && b == b' + [b[|b| - 1]];
    }
  }

  /** A name one selection picks and the other leaves out cannot exist when
      ranks are distinct. */
  lemma SelectionsAgreeOnMembers(items: Items, a: seq<string>, b: seq<string>)
    requires InjectiveRanks(items)
    requires IsSelection(items, a) && IsSelection(items, b)
    ensures forall k :: k in a ==> k in b
  {
    forall x | x in a
      ensures x in b
    {
      if x !in b {
        var sa, sb := set k | k in a, set k | k in b;
        assert forall y :: y in b ==> y in a;
        SubsetCard(sb, sa - {x});
        DistinctCard(a);
        DistinctCard(b);
      }
    }
  }

  /** When no two new items share a rank (the only feeder ranks a page's
      rows as `now - index`, all distinct), the notified names are fully
      determined: any two selections are the same sequence. */
  lemma SelectionUnique(items: Items, a: seq<string>, b: seq<string>)
    requires InjectiveRanks(items)
    requires IsSelection(items, a) && IsSelection(items, b)
    ensures a == b
  {
    SelectionsAgreeOnMembers(items, a, b);
    SelectionsAgreeOnMembers(items, b, a);
    StrictlySortedUnique(items, a, b);
  }
}
