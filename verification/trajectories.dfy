/**
  `get_trajectory_files` (flyhostel/quantification/trajectorytools.py): the paths
  of the trajectory map ordered by key, without the "original" files. The map
  itself is an input, given as its items; a dict's keys are distinct.
 */
module Trajectories {
  import opened Strings
  import opened Sorting

  /** One item of the trajectory map: its key and the trajectory file path. */
  type Entry = (int, string)

  function KeyLe(a: Entry, b: Entry): bool {
    a.0 <= b.0
  }

  lemma KeyLeTotalOrder()
    ensures Total(KeyLe) && Transitive(KeyLe)
  {
  }

  /** The path is one the function returns: it does not contain "original". */
  predicate Kept(e: Entry) {
    !Contains(e.1, "original")
  }

  /** The entries whose paths are kept, in their given order. */
  function KeepEntries(entries: seq<Entry>): (r: seq<Entry>)
    ensures forall i :: 0 <= i < |r| ==> Kept(r[i])
    ensures |r| <= |entries|
  {
    if entries == [] then []
    else (if Kept(entries[0]) then [entries[0]] else []) + KeepEntries(entries[1..])
  }

  /** The number of items whose paths are kept. */
  function CountKept(entries: seq<Entry>): nat {
    if entries == [] then 0 else (if Kept(entries[0]) then 1 else 0) + CountKept(entries[1..])
  }

  /** Filtering keeps every kept entry as many times as it occurs and drops every other one. */
  lemma {:induction false} KeepEntriesCount(entries: seq<Entry>, e: Entry)
    ensures multiset(KeepEntries(entries))[e] == if Kept(e) then multiset(entries)[e] else 0
    decreases |entries|
  {
    if entries != [] {
      KeepEntriesCount(entries[1..], e);
      assert entries == [entries[0]] + entries[1..];
    }
  }

  lemma KeepEntriesPermutation(a: seq<Entry>, b: seq<Entry>)
    requires multiset(a) == multiset(b)
    ensures multiset(KeepEntries(a)) == multiset(KeepEntries(b))
  {
    forall e: Entry
      ensures multiset(KeepEntries(a))[e] == multiset(KeepEntries(b))[e]
    {
      KeepEntriesCount(a, e);
      KeepEntriesCount(b, e);
    }
  }

  lemma {:induction false} KeepEntriesLength(entries: seq<Entry>)
    ensures |KeepEntries(entries)| == CountKept(entries)
    decreases |entries|
  {
    if entries != [] {
      KeepEntriesLength(entries[1..]);
    }
  }

  /** Keys ascend along the sequence. */
  predicate KeySorted(entries: seq<Entry>) {
    forall i, j :: 0 <= i < j < |entries| ==> entries[i].0 <= entries[j].0
  }

  /** The kept items sorted by key. */
  function SortedKeptEntries(items: seq<Entry>): (r: seq<Entry>)
    ensures KeySorted(r)
    ensures forall i :: 0 <= i < |r| ==> Kept(r[i])
    ensures multiset(r) == multiset(KeepEntries(items))
    ensures |r| == CountKept(items)
  {
    KeyLeTotalOrder();
    var sorted := SortBy(items, KeyLe);
    var r := KeepEntries(sorted);
    forall i, j | 0 <= i < j < |sorted|
      ensures sorted[i].0 <= sorted[j].0
    {
      SortedPairwise(sorted, KeyLe, i, j);
    }
    KeepSorted(sorted);
    KeepEntriesPermutation(sorted, items);
    KeepEntriesLength(items);
    assert |r| == |multiset(r)| == |multiset(KeepEntries(items))| == |KeepEntries(items)|;
    r
  }

  /** Dropping entries from a list sorted by key leaves it sorted by key. */
  lemma {:induction false} KeepSorted(entries: seq<Entry>)
    requires KeySorted(entries)
    ensures KeySorted(KeepEntries(entries))
    decreases |entries|
  {
    if entries == [] {
    } else {
      var tail := entries[1..];
      KeepSorted(tail);
      assert forall i :: 0 <= i < |tail| ==> entries[0].0 <= tail[i].0 by {
        forall i | 0 <= i < |tail| ensures entries[0].0 <= tail[i].0 {
          assert tail[i] == entries[i + 1];
        }
      }
      KeepFrom(tail, entries[0].0);
      var rest := KeepEntries(tail);
      if Kept(entries[0]) {
        var r := [entries[0]] + rest;
        assert r == KeepEntries(entries);
        forall i, j | 0 <= i < j < |r| ensures r[i].0 <= r[j].0 {
          assert r[j] == rest[j - 1];
          if i > 0 {
            assert r[i] == rest[i - 1];
          }
        }
      } else {
        assert KeepEntries(entries) == rest;
      }
    }
  }

  /** Entries that are all at or above a key stay so after filtering. */
  lemma {:induction false} KeepFrom(entries: seq<Entry>, k: int)
    requires forall i :: 0 <= i < |entries| ==> k <= entries[i].0
    ensures forall i :: 0 <= i < |KeepEntries(entries)| ==> k <= KeepEntries(entries)[i].0
    decreases |entries|
  {
    if entries != [] {
      KeepFrom(entries[1..], k);
    }
  }

  /**
    `get_trajectory_files`: the path of every item whose path does not contain
    "original", ordered by ascending key.
   */
  function GetTrajectoryFiles(items: seq<Entry>): (r: seq<string>)
    ensures |r| == CountKept(items)
    ensures forall i :: 0 <= i < |r| ==> !Contains(r[i], "original")
    ensures forall i :: 0 <= i < |r| ==> exists j :: 0 <= j < |items| && items[j].1 == r[i]
    ensures forall i :: 0 <= i < |r| ==> r[i] == SortedKeptEntries(items)[i].1
  {
    var entries := SortedKeptEntries(items);
    var r := seq(|entries|, i requires 0 <= i < |entries| => entries[i].1);
    assert forall i :: 0 <= i < |r| ==> exists j :: 0 <= j < |items| && items[j].1 == r[i] by {
      forall i | 0 <= i < |r|
        ensures exists j :: 0 <= j < |items| && items[j].1 == r[i]
      {
        assert entries[i] in multiset(entries);
        KeepEntriesCount(items, entries[i]);
        assert entries[i] in items;
      }
    }
    r
  }
}
