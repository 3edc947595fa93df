/** The observable effects of a run, as a sequence of events, and the
    projections the orchestration's contracts are stated with. */
module Trace {
  import opened Wrappers
  import opened History

  type FeederId = string

  datatype Event =
    | Fetch(feeder: FeederId, url: Url)   // `feeder.fetch(url)` is called
    | Send(title: string, body: string)   // `Notifier().send(title=..., body=...)`
    | Write(dirname: string, id: ShardId) // `save` writes a new shard file
    | Quit(feeder: FeederId)              // `feeder.quit()` is called
    | Touch                               // the run file is touched

  /** The values `pick` extracts from `events`, in order. */
  ghost function Collect<U>(events: seq<Event>, pick: Event -> Option<U>): seq<U>
  {
    if events == [] then []
    else
      (match pick(events[0]) case Some(u) => [u] case None => [])
      + Collect(events[1..], pick)
  }

  lemma {:induction false} CollectAppend<U>(a: seq<Event>, b: seq<Event>, pick: Event -> Option<U>)
    ensures Collect(a + b, pick) == Collect(a, pick) + Collect(b, pick)
  {
    if a == [] {
      assert a + b == b;
    } else {
      assert (a + b)[0] == a[0];
      assert (a + b)[1..] == a[1..] + b;
      CollectAppend(a[1..], b, pick);
    }
  }

  ghost function PickFetch(e: Event): Option<(FeederId, Url)>
  {
    if e.Fetch? then Some((e.feeder, e.url)) else None
  }

  ghost function PickQuit(e: Event): Option<FeederId>
  {
    if e.Quit? then Some(e.feeder) else None
  }

  ghost function PickTouch(e: Event): Option<()>
  {
    if e.Touch? then Some(()) else None
  }

  /** The `fetch` calls of a trace, in order. */
  ghost function Fetches(events: seq<Event>): seq<(FeederId, Url)>
  {
    Collect(events, PickFetch)
  }

  /** The `quit` calls of a trace, in order. */
  ghost function Quits(events: seq<Event>): seq<FeederId>
  {
    Collect(events, PickQuit)
  }

  /** How many times a trace touches the run file. */
  ghost function Touches(events: seq<Event>): nat
  {
    |Collect(events, PickTouch)|
  }

  /** Projections of a concatenated trace are the concatenated projections. */
  lemma ProjectionsAppend(a: seq<Event>, b: seq<Event>)
    ensures Fetches(a + b) == Fetches(a) + Fetches(b)
    ensures Quits(a + b) == Quits(a) + Quits(b)
    ensures Touches(a + b) == Touches(a) + Touches(b)
  {
    CollectAppend(a, b, PickFetch);
    CollectAppend(a, b, PickQuit);
    CollectAppend(a, b, PickTouch);
  }

  /** A trace made only of notifications and shard writes has no fetch,
      quit or touch. */
  lemma {:induction false} NoLoopEvents(events: seq<Event>)
    requires forall i :: 0 <= i < |events| ==> events[i].Send? || events[i].Write?
    ensures Fetches(events) == [] && Quits(events) == [] && Touches(events) == 0
  {
    if events != [] {
      NoLoopEvents(events[1..]);
    }
  }

  /** The trace made of `segs` one after the other. */
  function Concat(segs: seq<seq<Event>>): seq<Event>
  {
    if segs == [] then [] else Concat(segs[..|segs| - 1]) + segs[|segs| - 1]
  }

  lemma ConcatSnoc(segs: seq<seq<Event>>, seg: seq<Event>)
    ensures Concat(segs + [seg]) == Concat(segs) + seg
  {
    assert (segs + [seg])[..|segs|] == segs;
  }

  /** A prefix of the segments gives a prefix of the concatenation. */
  lemma {:induction false} ConcatPrefix(segs: seq<seq<Event>>, k: nat)
    requires k <= |segs|
    ensures |Concat(segs[..k])| <= |Concat(segs)|
    ensures Concat(segs)[..|Concat(segs[..k])|] == Concat(segs[..k])
    decreases |segs|
  {
    if k < |segs| {
      var n := |segs|;
      ConcatPrefix(segs[..n - 1], k);
      assert segs[..n - 1][..k] == segs[..k];
      assert Concat(segs) == Concat(segs[..n - 1]) + segs[n - 1];
    } else {
      assert segs[..k] == segs;
    }
  }

  /** Segment `j` sits, in one piece, right after the segments before it. */
  lemma ConcatSegment(segs: seq<seq<Event>>, j: nat)
    requires j < |segs|
    ensures var a := |Concat(segs[..j])|;
      a + |segs[j]| <= |Concat(segs)| && Concat(segs)[a..a + |segs[j]|] == segs[j]
  {
    ConcatPrefix(segs, j + 1);
    assert segs[..j + 1][..j] == segs[..j];
    assert Concat(segs[..j + 1]) == Concat(segs[..j]) + segs[j];
  }

  lemma ConcatMember(segs: seq<seq<Event>>, j: nat, e: Event)
    requires j < |segs| && e in segs[j]
    ensures e in Concat(segs)
  {
    ConcatSegment(segs, j);
    var a := |Concat(segs[..j])|;
    var k :| 0 <= k < |segs[j]| && segs[j][k] == e;
    assert Concat(segs)[a + k] == e;
  }
}
