/** Stable sort of an event list by start minute. The comparator of the
    week view subtracts whole-minute start times, so with integer minutes it
    orders by `start` and keeps equal starts in their original order. */
module StartSort {
  import opened Events

  predicate SortedByStart(s: seq<Event>) {
    forall i, j :: 0 <= i < j < |s| ==> s[i].start <= s[j].start
  }

  /** The events of `s` that start at minute `t`, in their order in `s`. */
  function WithStart(s: seq<Event>, t: int): seq<Event> {
    if |s| == 0 then []
    else WithStart(s[..|s| - 1], t) + (if s[|s| - 1].start == t then [s[|s| - 1]] else [])
  }

  lemma WithStartAppend(s: seq<Event>, x: Event)
    ensures forall t :: WithStart(s + [x], t) == WithStart(s, t) + (if x.start == t then [x] else [])
  {
    assert (s + [x])[..|s|] == s;
  }

  /** Places `x` after every element of `s` that starts no later than it. */
  function Insert(s: seq<Event>, x: Event): (r: seq<Event>)
    requires SortedByStart(s)
    ensures SortedByStart(r)
    ensures multiset(r) == multiset(s) + multiset{x}
    ensures forall t :: WithStart(r, t) == WithStart(s, t) + (if x.start == t then [x] else [])
  {
    if |s| == 0 then
      WithStartAppend([], x);
      [x]
    else if s[|s| - 1].start <= x.start then
      WithStartAppend(s, x);
      s + [x]
    else
      var r0 := Insert(s[..|s| - 1], x);
      InsertBeforeLast(s, x, r0);
      r0 + [s[|s| - 1]]
  }

  /** The recursive step of `Insert`: `x` goes before the last element of
      `s`, which starts later, into the rest `r0`. */
  lemma InsertBeforeLast(s: seq<Event>, x: Event, r0: seq<Event>)
    requires SortedByStart(s) && |s| > 0 && x.start < s[|s| - 1].start
    requires SortedByStart(r0)
    requires multiset(r0) == multiset(s[..|s| - 1]) + multiset{x}
    requires forall t :: WithStart(r0, t) == WithStart(s[..|s| - 1], t) + (if x.start == t then [x] else [])
    ensures SortedByStart(r0 + [s[|s| - 1]])
    ensures multiset(r0 + [s[|s| - 1]]) == multiset(s) + multiset{x}
    ensures forall t :: WithStart(r0 + [s[|s| - 1]], t) == WithStart(s, t) + (if x.start == t then [x] else [])
  {
    StartsBefore(s, x, r0);
    SortedAppend(r0, s[|s| - 1]);
    WithStartBeforeLast(s, x, r0);
    MultisetBeforeLast(s, x, r0);
  }

  lemma MultisetBeforeLast(s: seq<Event>, x: Event, r0: seq<Event>)
    requires |s| > 0
    requires multiset(r0) == multiset(s[..|s| - 1]) + multiset{x}
    ensures multiset(r0 + [s[|s| - 1]]) == multiset(s) + multiset{x}
  {
    assert s == s[..|s| - 1] + [s[|s| - 1]];
  }

  lemma SortedAppend(r0: seq<Event>, last: Event)
    requires SortedByStart(r0)
    requires forall i :: 0 <= i < |r0| ==> r0[i].start <= last.start
    ensures SortedByStart(r0 + [last])
  {
    var r := r0 + [last];
    forall i, j | 0 <= i < j < |r|
      ensures r[i].start <= r[j].start
    {
      assert r[i] == r0[i];
    }
  }

  lemma WithStartBeforeLast(s: seq<Event>, x: Event, r0: seq<Event>)
    requires |s| > 0 && x.start < s[|s| - 1].start
    requires forall t :: WithStart(r0, t) == WithStart(s[..|s| - 1], t) + (if x.start == t then [x] else [])
    ensures forall t :: WithStart(r0 + [s[|s| - 1]], t) == WithStart(s, t) + (if x.start == t then [x] else [])
  {
    var last := s[|s| - 1];
    var init := s[..|s| - 1];
    assert s == init + [last];
    WithStartAppend(r0, last);
    WithStartAppend(init, last);
    forall t
      ensures WithStart(r0 + [last], t) == WithStart(s, t) + (if x.start == t then [x] else [])
    {
      var xs := if x.start == t then [x] else [];
      var ls := if last.start == t then [last] else [];
      assert xs == [] || ls == [];
      calc {
        WithStart(r0 + [last], t);
        WithStart(r0, t) + ls;
        WithStart(init, t) + xs + ls;
        WithStart(init, t) + ls + xs;
        WithStart(s, t) + xs;
      }
    }
  }

  /** Every element of `r0`, a permutation of `s` without its last element
      plus `x`, starts no later than that last element. */
  lemma StartsBefore(s: seq<Event>, x: Event, r0: seq<Event>)
    requires SortedByStart(s) && |s| > 0 && x.start < s[|s| - 1].start
    requires multiset(r0) == multiset(s[..|s| - 1]) + multiset{x}
    ensures forall i :: 0 <= i < |r0| ==> r0[i].start <= s[|s| - 1].start
  {
    var init := s[..|s| - 1];
    forall i | 0 <= i < |r0|
      ensures r0[i].start <= s[|s| - 1].start
    {
      assert r0[i] in multiset(r0);
      if r0[i] != x {
        assert r0[i] in multiset(init);
        var k :| 0 <= k < |init| && init[k] == r0[i];
        assert s[k] == r0[i];
      }
    }
  }

  /** Insertion sort by start minute, stable. */
  function SortByStart(s: seq<Event>): (r: seq<Event>)
    ensures SortedByStart(r)
    ensures multiset(r) == multiset(s)
    ensures forall t :: WithStart(r, t) == WithStart(s, t)
  {
    if |s| == 0 then []
    else
      var r0 := SortByStart(s[..|s| - 1]);
      assert s == s[..|s| - 1] + [s[|s| - 1]];
      WithStartAppend(s[..|s| - 1], s[|s| - 1]);
      Insert(r0, s[|s| - 1])
  }
}
