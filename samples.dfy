/**
 * Timestamped samples of a location history, and the two list passes
 * `extract_raw_points` makes over them once they are all emitted: the
 * stable sort by time and the removal of near-duplicates.
 */
module Samples {

  /** One point of the history: its time in seconds and its position in degrees. */
  datatype Sample = Sample(time: real, lon: real, lat: real)

  predicate Sorted(s: seq<Sample>) {
    forall j, k :: 0 <= j <= k < |s| ==> s[j].time <= s[k].time
  }

  /** The samples stamped exactly `t`, in their order in `s`. */
  function AtTime(s: seq<Sample>, t: real): (r: seq<Sample>)
    ensures |r| <= |s|
  {
    if s == [] then []
    else AtTime(s[..|s| - 1], t) + (if s[|s| - 1].time == t then [s[|s| - 1]] else [])
  }

  lemma {:induction false} AtTimeAppend(a: seq<Sample>, b: seq<Sample>, t: real)
    ensures AtTime(a + b, t) == AtTime(a, t) + AtTime(b, t)
  {
    if b != [] {
      var b' := b[..|b| - 1];
      AtTimeAppend(a, b', t);
      assert (a + b)[..|a + b| - 1] == a + b';
    } else {
      assert a + b == a;
    }
  }

  // ---------------------------------------------------------------------
  // The stable sort by time
  // ---------------------------------------------------------------------

  /** `x` placed after every sample of `s` that is not later than it. */
  function Insert(s: seq<Sample>, x: Sample): seq<Sample> {
    if s == [] || s[|s| - 1].time <= x.time then s + [x]
    else Insert(s[..|s| - 1], x) + [s[|s| - 1]]
  }

  /**
   * `pts.sort(key=lambda p: p["time"])`: a stable sort, written as an
   * insertion sort. A stable sort has exactly one possible result, so this
   * is the list Python's sort produces.
   */
  function SortByTime(s: seq<Sample>): seq<Sample> {
    if s == [] then [] else Insert(SortByTime(s[..|s| - 1]), s[|s| - 1])
  }

  lemma {:induction false} InsertSorted(s: seq<Sample>, x: Sample)
    requires Sorted(s)
    ensures Sorted(Insert(s, x))
  {
    if s != [] && s[|s| - 1].time > x.time {
      var init := s[..|s| - 1];
      var last := s[|s| - 1];
      InsertSorted(init, x);
      InsertBounded(init, x, last.time);
      AppendLatest(Insert(init, x), last);
    }
  }

  lemma {:induction false} InsertBounded(s: seq<Sample>, x: Sample, b: real)
    requires forall k :: 0 <= k < |s| ==> s[k].time <= b
    requires x.time <= b
    ensures forall k :: 0 <= k < |Insert(s, x)| ==> Insert(s, x)[k].time <= b
  {
    if s != [] && s[|s| - 1].time > x.time {
      InsertBounded(s[..|s| - 1], x, b);
    }
  }

  lemma {:induction false} InsertMultiset(s: seq<Sample>, x: Sample)
    ensures multiset(Insert(s, x)) == multiset(s) + multiset{x}
  {
    if s != [] && s[|s| - 1].time > x.time {
      InsertMultiset(s[..|s| - 1], x);
      assert s == s[..|s| - 1] + [s[|s| - 1]];
    }
  }

  lemma AppendLatest(s: seq<Sample>, x: Sample)
    requires Sorted(s)
    requires forall k :: 0 <= k < |s| ==> s[k].time <= x.time
    ensures Sorted(s + [x])
  {
    var r := s + [x];
    forall j, k | 0 <= j <= k < |r| ensures r[j].time <= r[k].time {
      if k < |s| {
        assert r[j] == s[j] && r[k] == s[k];
      } else if j < |s| {
        assert r[j] == s[j];
      }
    }
  }

  lemma {:induction false} InsertAtTime(s: seq<Sample>, x: Sample, t: real)
    ensures AtTime(Insert(s, x), t) == AtTime(s, t) + (if x.time == t then [x] else [])
  {
    if s == [] || s[|s| - 1].time <= x.time {
      AtTimeAppend(s, [x], t);
    } else {
      var init := s[..|s| - 1];
      var last := s[|s| - 1];
      InsertAtTime(init, x, t);
      AtTimeAppend(Insert(init, x), [last], t);
      AtTimeSingle(last, t);
      // `last` is later than `x`, so at most one of them is stamped `t`.
      if x.time == t {
        assert AtTime(Insert(s, x), t) == AtTime(init, t) + [x];
      } else {
        assert AtTime(Insert(s, x), t) == AtTime(init, t) + AtTime([last], t);
      }
    }
  }

  lemma AtTimeSingle(y: Sample, t: real)
    ensures AtTime([y], t) == if y.time == t then [y] else []
  {
    assert [y][..0] == [];
  }

  /** The sorted list is in time order. */
  lemma {:induction false} SortByTimeSorted(s: seq<Sample>)
    ensures Sorted(SortByTime(s))
  {
    if s != [] {
      SortByTimeSorted(s[..|s| - 1]);
      InsertSorted(SortByTime(s[..|s| - 1]), s[|s| - 1]);
    }
  }

  /** The sort keeps every sample exactly as often as it occurred. */
  lemma {:induction false} SortByTimePermutes(s: seq<Sample>)
    ensures multiset(SortByTime(s)) == multiset(s)
  {
    if s != [] {
      var init := s[..|s| - 1];
      SortByTimePermutes(init);
      InsertMultiset(SortByTime(init), s[|s| - 1]);
      assert s == init + [s[|s| - 1]];
    }
  }

  /** The sort is stable: samples with equal times keep their original order. */
  lemma {:induction false} SortByTimeStable(s: seq<Sample>, t: real)
    ensures AtTime(SortByTime(s), t) == AtTime(s, t)
  {
    if s != [] {
      var init := s[..|s| - 1];
      SortByTimeStable(init, t);
      InsertAtTime(SortByTime(init), s[|s| - 1], t);
    }
  }

  // ---------------------------------------------------------------------
  // Removal of near-duplicates
  // ---------------------------------------------------------------------

  /** `x` repeats the retained sample `kept`: same longitude and latitude, less than 10 seconds later. */
  predicate Near(kept: Sample, x: Sample) {
    x.lon == kept.lon && x.lat == kept.lat && x.time - kept.time < 10.0
  }

  /**
   * The deduplication loop: each sample is compared with the last sample
   * retained so far (not with its predecessor in the input) and dropped
   * when it is near it.
   */
  function Dedup(s: seq<Sample>): (r: seq<Sample>)
    ensures |r| <= |s|
    ensures s != [] ==> r != [] && r[0] == s[0]
    ensures forall y :: y in r ==> y in s
  {
    if s == [] then []
    else
      var init := s[..|s| - 1];
      var x := s[|s| - 1];
      var d := Dedup(init);
      assert forall y :: y in init ==> y in s;
      if d != [] && Near(d[|d| - 1], x) then d else d + [x]
  }

  /** `a` is `b` with some elements deleted. */
  predicate IsSubsequence(a: seq<Sample>, b: seq<Sample>) {
    if b == [] then a == []
    else
      (a != [] && a[|a| - 1] == b[|b| - 1] && IsSubsequence(a[..|a| - 1], b[..|b| - 1]))
      || IsSubsequence(a, b[..|b| - 1])
  }

  lemma {:induction false} DedupSubsequence(s: seq<Sample>)
    ensures IsSubsequence(Dedup(s), s)
  {
    if s != [] {
      var init := s[..|s| - 1];
      DedupSubsequence(init);
      var d := Dedup(init);
      if !(d != [] && Near(d[|d| - 1], s[|s| - 1])) {
        assert (d + [s[|s| - 1]])[..|d|] == d;
      }
    }
  }

  /** Deleting elements keeps the order of the samples stamped with any one time. */
  lemma {:induction false} SubsequenceAtTime(a: seq<Sample>, b: seq<Sample>, t: real)
    requires IsSubsequence(a, b)
    ensures IsSubsequence(AtTime(a, t), AtTime(b, t))
  {
    if b != [] {
      var b' := b[..|b| - 1];
      var y := b[|b| - 1];
      assert AtTime(b, t) == AtTime(b', t) + (if y.time == t then [y] else []);
      if a != [] && a[|a| - 1] == y && IsSubsequence(a[..|a| - 1], b') {
        var a' := a[..|a| - 1];
        assert AtTime(a, t) == AtTime(a', t) + (if y.time == t then [y] else []);
        SubsequenceAtTime(a', b', t);
        if y.time == t {
          SubsequenceBothEnd(AtTime(a', t), AtTime(b', t), y);
        } else {
          assert AtTime(a, t) == AtTime(a', t) && AtTime(b, t) == AtTime(b', t);
        }
      } else {
        SubsequenceAtTime(a, b', t);
        if y.time == t {
          SubsequenceLongerEnd(AtTime(a, t), AtTime(b', t), y);
        } else {
          assert AtTime(b, t) == AtTime(b', t);
        }
      }
    }
  }

  lemma SubsequenceBothEnd(a: seq<Sample>, b: seq<Sample>, y: Sample)
    requires IsSubsequence(a, b)
    ensures IsSubsequence(a + [y], b + [y])
  {
    assert (a + [y])[..|a|] == a && (b + [y])[..|b|] == b;
  }

  lemma SubsequenceLongerEnd(a: seq<Sample>, b: seq<Sample>, y: Sample)
    requires IsSubsequence(a, b)
    ensures IsSubsequence(a, b + [y])
  {
    assert (b + [y])[..|b|] == b;
  }

  /** No two neighbours of the result are near each other. */
  predicate NoNearNeighbours(r: seq<Sample>) {
    forall j, k {:trigger r[j], r[k]} :: 0 <= j < |r| && k == j + 1 && k < |r| ==> !Near(r[j], r[k])
  }

  lemma {:induction false} DedupNoNearNeighbours(s: seq<Sample>)
    ensures NoNearNeighbours(Dedup(s))
  {
    if s != [] {
      var init := s[..|s| - 1];
      DedupNoNearNeighbours(init);
      var d := Dedup(init);
      var r := Dedup(s);
      if r != d {
        assert r == d + [s[|s| - 1]];
        forall j, k {:trigger r[j], r[k]} | 0 <= j < |r| && k == j + 1 && k < |r| ensures !Near(r[j], r[k]) {
          if k < |d| {
            assert r[j] == d[j] && r[k] == d[k];
          }
        }
      }
    }
  }

  /** Dropping samples from a sorted list leaves it sorted. */
  lemma {:induction false} DedupSorted(s: seq<Sample>)
    requires Sorted(s)
    ensures Sorted(Dedup(s))
  {
    if s != [] {
      var init := s[..|s| - 1];
      var x := s[|s| - 1];
      assert Sorted(init);
      DedupSorted(init);
      var d := Dedup(init);
      forall y | y in d ensures y.time <= x.time {
        assert y in init;
      }
    }
  }

  /** Every sample of the input is retained or repeats a retained sample. */
  lemma {:induction false} DedupCovers(s: seq<Sample>)
    ensures forall x :: x in s ==> x in Dedup(s) || exists y :: y in Dedup(s) && Near(y, x)
  {
    if s != [] {
      var init := s[..|s| - 1];
      DedupCovers(init);
      var d := Dedup(init);
      var r := Dedup(s);
      assert forall y :: y in d ==> y in r;
      assert s == init + [s[|s| - 1]];
    }
  }

  /** One more input sample is dropped exactly when it is near the last retained sample. */
  lemma DedupStep(s: seq<Sample>, x: Sample)
    ensures var d := Dedup(s);
      Dedup(s + [x]) == if d != [] && Near(d[|d| - 1], x) then d else d + [x]
  {
    assert (s + [x])[..|s|] == s;
  }
}
