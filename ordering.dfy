/**
 * Ordering time entries by their start instant: the ascending sort of the list and report
 * commands, and the descending sort on start that the store's queries apply when newestFirst.
 * The sort is an insertion sort; among entries with equal starts it keeps input order,
 * one of the orders the unstable library sort may produce.
 */
module Ordering {
  import opened Records

  predicate Precedes(a: TimeEntry, b: TimeEntry, newestFirst: bool) {
    if newestFirst then a.start >= b.start else a.start <= b.start
  }

  predicate SortedByStart(s: seq<TimeEntry>, newestFirst: bool) {
    forall i, j :: 0 <= i < j < |s| ==> Precedes(s[i], s[j], newestFirst)
  }

  /** Every element of an insertion into the tail of s comes after s's head. */
  lemma HeadPrecedesInsertion(e: TimeEntry, s: seq<TimeEntry>, newestFirst: bool, tail: seq<TimeEntry>)
    requires s != [] && SortedByStart(s, newestFirst) && !Precedes(e, s[0], newestFirst)
    requires multiset(tail) == multiset(s[1..]) + multiset{e}
    ensures forall k :: 0 <= k < |tail| ==> Precedes(s[0], tail[k], newestFirst)
  {
    forall k | 0 <= k < |tail| ensures Precedes(s[0], tail[k], newestFirst) {
      assert tail[k] in multiset(tail);
      if tail[k] != e {
        assert tail[k] in multiset(s[1..]);
        var j :| 0 <= j < |s[1..]| && s[1..][j] == tail[k];
        assert s[j + 1] == tail[k];
      }
    }
  }

  /** A head that precedes every element of a sorted tail keeps the sequence sorted. */
  lemma SortedCons(h: TimeEntry, tail: seq<TimeEntry>, newestFirst: bool)
    requires SortedByStart(tail, newestFirst)
    requires forall k :: 0 <= k < |tail| ==> Precedes(h, tail[k], newestFirst)
    ensures SortedByStart([h] + tail, newestFirst)
  {
    var r := [h] + tail;
    forall i, j | 0 <= i < j < |r| ensures Precedes(r[i], r[j], newestFirst) {
      if i > 0 {
        assert r[i] == tail[i - 1] && r[j] == tail[j - 1];
      } else {
        assert r[j] == tail[j - 1];
      }
    }
  }

  /** Places e in front of the first entry it precedes. */
  function InsertByStart(e: TimeEntry, s: seq<TimeEntry>, newestFirst: bool): (r: seq<TimeEntry>)
    requires SortedByStart(s, newestFirst)
    ensures multiset(r) == multiset(s) + multiset{e}
    ensures SortedByStart(r, newestFirst)
  {
    if s == [] || Precedes(e, s[0], newestFirst) then
      assert forall k :: 0 <= k < |s| ==> Precedes(e, s[k], newestFirst) by {
        forall k | 0 <= k < |s| ensures Precedes(e, s[k], newestFirst) {
          if k > 0 {
            assert Precedes(s[0], s[k], newestFirst);
          }
        }
      }
      SortedCons(e, s, newestFirst);
      [e] + s
    else
      var tail := InsertByStart(e, s[1..], newestFirst);
      assert s == [s[0]] + s[1..];
      HeadPrecedesInsertion(e, s, newestFirst, tail);
      SortedCons(s[0], tail, newestFirst);
      [s[0]] + tail
  }

  /** The entries in start order (ascending, or descending when newestFirst), all of them. */
  function SortByStart(s: seq<TimeEntry>, newestFirst: bool): (r: seq<TimeEntry>)
    ensures multiset(r) == multiset(s)
    ensures |r| == |s|
    ensures SortedByStart(r, newestFirst)
  {
    if s == [] then []
    else
      assert s == [s[0]] + s[1..];
      InsertByStart(s[0], SortByStart(s[1..], newestFirst), newestFirst)
  }

  /** The first entry of a newest-first ordering starts no earlier than any entry. */
  lemma NewestFirstHeadIsLatest(s: seq<TimeEntry>, x: TimeEntry)
    requires x in s
    ensures SortByStart(s, true) != []
    ensures SortByStart(s, true)[0] in s
    ensures SortByStart(s, true)[0].start >= x.start
  {
    var r := SortByStart(s, true);
    assert x in multiset(r);
    var j :| 0 <= j < |r| && r[j] == x;
    assert r[0] in multiset(s);
    if j > 0 {
      assert Precedes(r[0], r[j], true);
    }
  }
}
