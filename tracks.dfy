/**
 * The trajectory record (THaTrack as the spectrometer reads and annotates it)
 * and the ordering by chi2 per degree of freedom used by the default strategy.
 */
module Tracks {
  import opened Wrappers

  /**
   * One track. Focal-plane inputs (x, y in cm; theta, phi in rad), target
   * quantities written by the reconstruction, and the quality fields supplied
   * by the tracking and hodoscope stages.
   */
  datatype Track = Track(
    x: real, theta: real, y: real, phi: real,
    tX: real, tY: real, tTheta: real, tPhi: real, dp: real, p: real,
    ndof: int, chi2: real, dedx: real, beta: real, energy: real,
    npmt: real, betaChi2: real, fpTime: real, goodPlane3: int, goodPlane4: int)

  /** chi2 / ndof; the source divides unguarded, so callers must rule out ndof == 0. */
  function Chi2PerDof(t: Track): real
    requires t.ndof != 0
  {
    t.chi2 / (t.ndof as real)
  }

  predicate AllPresent(s: seq<Option<Track>>) {
    forall i :: 0 <= i < |s| ==> s[i].Some?
  }

  predicate NonZeroDof(s: seq<Track>) {
    forall i :: 0 <= i < |s| ==> s[i].ndof != 0
  }

  /** The records of a track list with no NULL entry. */
  function Values(s: seq<Option<Track>>): (r: seq<Track>)
    requires AllPresent(s)
    ensures |r| == |s| && forall i :: 0 <= i < |s| ==> s[i] == Some(r[i])
  {
    seq(|s|, i requires 0 <= i < |s| => s[i].value)
  }

  /** A track list without NULL entries holding the given records. */
  function Present(ts: seq<Track>): (r: seq<Option<Track>>)
    ensures |r| == |ts| && AllPresent(r) && Values(r) == ts
  {
    seq(|ts|, i requires 0 <= i < |ts| => Some(ts[i]))
  }

  predicate SortedByChi2(s: seq<Track>)
    requires NonZeroDof(s)
  {
    forall i, j :: 0 <= i < j < |s| ==> Chi2PerDof(s[i]) <= Chi2PerDof(s[j])
  }

  /** Insert `t` before the first element with a larger chi2/ndof. */
  function Insert(t: Track, s: seq<Track>): (r: seq<Track>)
    requires t.ndof != 0 && NonZeroDof(s)
    ensures |r| == |s| + 1 && NonZeroDof(r)
    ensures multiset(r) == multiset(s) + multiset{t}
    ensures forall x :: x in r <==> x == t || x in s
  {
    if s == [] then [t]
    else if Chi2PerDof(t) <= Chi2PerDof(s[0]) then [t] + s
    else
      assert s == [s[0]] + s[1..];
      [s[0]] + Insert(t, s[1..])
  }

  /** Inserting into a sorted list keeps it sorted. */
  lemma {:induction false} InsertSorted(t: Track, s: seq<Track>)
    requires t.ndof != 0 && NonZeroDof(s) && SortedByChi2(s)
    ensures SortedByChi2(Insert(t, s))
  {
    if s != [] && Chi2PerDof(t) > Chi2PerDof(s[0]) {
      var tail := s[1..];
      InsertSorted(t, tail);
      var r' := Insert(t, tail);
      assert Insert(t, s) == [s[0]] + r';
      forall j | 0 <= j < |r'|
        ensures Chi2PerDof(s[0]) <= Chi2PerDof(r'[j])
      {
        assert r'[j] in r';
        if r'[j] != t {
          var k :| 0 <= k < |tail| && tail[k] == r'[j];
          assert tail[k] == s[k + 1];
        }
      }
    }
  }

  /** Insertion sort by chi2/ndof: some ordering of the tracks, ascending by that key. */
  function SortByChi2(s: seq<Track>): (r: seq<Track>)
    requires NonZeroDof(s)
    ensures |r| == |s| && NonZeroDof(r)
    ensures multiset(r) == multiset(s)
    ensures SortedByChi2(r)
  {
    if s == [] then []
    else
      assert s == [s[0]] + s[1..];
      InsertSorted(s[0], SortByChi2(s[1..]));
      Insert(s[0], SortByChi2(s[1..]))
  }

  /** After sorting, the first track has the smallest chi2/ndof of all the tracks. */
  lemma SortedFirstIsBest(s: seq<Track>)
    requires NonZeroDof(s) && |s| > 0
    ensures var r := SortByChi2(s);
            |r| == |s| &&
            forall i :: 0 <= i < |s| ==> Chi2PerDof(r[0]) <= Chi2PerDof(s[i])
  {
    var r := SortByChi2(s);
    forall i | 0 <= i < |s|
      ensures Chi2PerDof(r[0]) <= Chi2PerDof(s[i])
    {
      assert s[i] in multiset(s);
      assert s[i] in multiset(r);
      var j :| 0 <= j < |r| && r[j] == s[i];
    }
  }
}
