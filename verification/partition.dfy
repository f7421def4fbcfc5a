/** Partitioning of the event list into per-day buckets of clipped
    occurrences, each bucket sorted by start minute. */
module Partition {
  import opened Calendar
  import opened Events
  import opened StartSort

  /** Reference definition of the bucket of day `d` before sorting: the
      clipped copies of the events that overlap `d`, in list order. */
  function Bucket(events: seq<Event>, d: int): seq<Event> {
    if |events| == 0 then []
    else
      var e := events[|events| - 1];
      Bucket(events[..|events| - 1], d) + (if Touches(e, d) then [Clip(e, d)] else [])
  }

  /** The bucket of day `d` while event `e` is being added: the bucket of
      the events before it, plus the occurrence of `e` if `d` is one of the
      days already visited (`d < date`). */
  function PartialBucket(done: seq<Event>, e: Event, date: int, d: int): seq<Event> {
    Bucket(done, d) + (if Touches(e, d) && d < date then [Clip(e, d)] else [])
  }

  /** `m` holds, for every day, the bucket `Bucket(done, d)`, and has a key
      for exactly the days whose bucket is not empty. */
  ghost predicate Indexes(m: map<int, seq<Event>>, done: seq<Event>) {
    forall d :: (d in m <==> Bucket(done, d) != []) && (d in m ==> m[d] == Bucket(done, d))
  }

  lemma BucketAppend(done: seq<Event>, e: Event)
    ensures forall d :: Bucket(done + [e], d) == PartialBucket(done, e, DayOf(e.end) + 1, d)
  {
    assert (done + [e])[..|done|] == done;
  }

  /** Pushes the clipped copy of `e` onto the bucket of every day from the
      day it starts on to the day it ends on. */
  method PushOccurrences(pushed: map<int, seq<Event>>, done: seq<Event>, e: Event)
    returns (result: map<int, seq<Event>>)
    requires Indexes(pushed, done)
    ensures Indexes(result, done + [e])
  {
    result := pushed;
    var date := DayOf(e.start);
    var last := DayOf(e.end);
    while date <= last
      invariant DayOf(e.start) <= date
      invariant date <= last + 1 || date == DayOf(e.start)
      invariant forall d :: d in result <==> PartialBucket(done, e, date, d) != []
      invariant forall d :: d in result ==> result[d] == PartialBucket(done, e, date, d)
    {
      var bucket := if date in result then result[date] else [];
      result := result[date := bucket + [Clip(e, date)]];
      date := date + 1;
    }
    BucketAppend(done, e);
  }

  /** Splits every event into one clipped copy per day it overlaps, keyed by
      day, then sorts each day's copies by start minute (stably). A day is a
      key exactly when some event overlaps it. */
  method SortEventsByDate(events: seq<Event>) returns (buckets: map<int, seq<Event>>)
    ensures forall d :: d in buckets <==> Bucket(events, d) != []
    ensures forall d :: d in buckets ==>
      && buckets[d] == SortByStart(Bucket(events, d))
      && SortedByStart(buckets[d])
      && multiset(buckets[d]) == multiset(Bucket(events, d))
  {
    var pushed: map<int, seq<Event>> := map[];
    var i := 0;
    while i < |events|
      invariant 0 <= i <= |events|
      invariant Indexes(pushed, events[..i])
    {
      pushed := PushOccurrences(pushed, events[..i], events[i]);
      assert events[..i + 1] == events[..i] + [events[i]];
      i := i + 1;
    }
    assert events[..i] == events;
    buckets := map d | d in pushed :: SortByStart(pushed[d]);
  }

  /** An occurrence is in the bucket of day `d` exactly when it is the
      clipped copy, for day `d`, of some event that overlaps `d`: no event is
      dropped and nothing else appears. */
  lemma {:induction false} BucketMembers(events: seq<Event>, d: int, o: Event)
    ensures o in Bucket(events, d) <==>
      exists i :: 0 <= i < |events| && Touches(events[i], d) && o == Clip(events[i], d)
  {
    if |events| > 0 {
      var init := events[..|events| - 1];
      BucketMembers(init, d, o);
      if o in Bucket(init, d) {
        var i :| 0 <= i < |init| && Touches(init[i], d) && o == Clip(init[i], d);
        assert events[i] == init[i];
      }
      if exists i :: 0 <= i < |events| && Touches(events[i], d) && o == Clip(events[i], d) {
        var i :| 0 <= i < |events| && Touches(events[i], d) && o == Clip(events[i], d);
        if i < |init| {
          assert init[i] == events[i];
        }
      }
    }
  }

  /** `o` carries the identity and fields of `e` and lies within its bounds
      (and is not inverted when `e` is not). */
  predicate OccurrenceOf(o: Event, e: Event) {
    && o.id == e.id && o.payload == e.payload
    && e.start <= o.start && o.end <= e.end
    && (e.start <= e.end ==> o.start <= o.end)
  }

  /** Every occurrence in the bucket of day `d` lies within that day, and
      within its event when the event does not end before it starts. */
  lemma BucketWithinDay(events: seq<Event>, d: int, o: Event)
    requires o in Bucket(events, d)
    ensures StartOfDay(d) <= o.start <= EndOfDay(d)
    ensures StartOfDay(d) <= o.end <= EndOfDay(d)
    ensures exists i :: 0 <= i < |events| && OccurrenceOf(o, events[i])
  {
    BucketMembers(events, d, o);
  }

  /** The days `lo..hi`, inclusive. */
  function DayRange(lo: int, hi: int): (r: set<int>)
    ensures forall d :: d in r <==> lo <= d <= hi
    ensures lo <= hi + 1 ==> |r| == hi - lo + 1
    decreases hi - lo
  {
    if lo > hi then {} else {lo} + DayRange(lo + 1, hi)
  }

  /** The days an event overlaps. */
  function DaysOf(e: Event): set<int> {
    DayRange(DayOf(e.start), DayOf(e.end))
  }

  /** A lone event has one bucket, holding its single clipped copy, for each
      day from its start day to its end day and none elsewhere: as many
      occurrences as days in that span, and none if it ends on an earlier
      day than it starts. */
  lemma SingleEventSpan(e: Event)
    ensures forall d :: d in DaysOf(e) <==> Bucket([e], d) != []
    ensures forall d :: d in DaysOf(e) ==> Bucket([e], d) == [Clip(e, d)]
    ensures DayOf(e.start) <= DayOf(e.end) ==> |DaysOf(e)| == DayOf(e.end) - DayOf(e.start) + 1
    ensures DayOf(e.end) < DayOf(e.start) ==> DaysOf(e) == {}
  {
  }

  /** The occurrences of an event tile it without gap or overlap at minute
      resolution: the first starts where the event starts, each ends one
      minute before the next starts, and the last ends where the event ends. */
  lemma OccurrencesTile(e: Event)
    ensures Touches(e, DayOf(e.start)) ==> Clip(e, DayOf(e.start)).start == e.start
    ensures Touches(e, DayOf(e.end)) ==> Clip(e, DayOf(e.end)).end == e.end
    ensures forall d :: DayOf(e.start) <= d < DayOf(e.end) ==>
      Clip(e, d).end + 1 == Clip(e, d + 1).start
  {
    var first, last := DayOf(e.start), DayOf(e.end);
    forall d | first <= d < last
      ensures Clip(e, d).end + 1 == Clip(e, d + 1).start
    {
      assert e.start <= EndOfDay(first) <= EndOfDay(d);
      assert StartOfDay(d + 1) <= StartOfDay(last) <= e.end;
      assert EndOfDay(d) + 1 == StartOfDay(d + 1);
    }
  }
}
