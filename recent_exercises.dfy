/** The dashboard's "Recent Activities" table (src/components/dashboard/RecentExercises.tsx): the
    five newest entries, newest first. The log itself is a value and sorting a copy of it leaves it
    as it was. */
module RecentActivity {
  import opened Types
  import opened Seqs

  /** `[...exercises].sort(newest first).slice(0, 5)`. */
  function Recent(xs: seq<Exercise>): seq<Exercise>
  {
    Take(SortDesc(xs, Timestamp), 5)
  }

  /** Five rows, or all of them when fewer are logged; newest first; none exactly when the log is empty. */
  lemma RecentShape(xs: seq<Exercise>)
    ensures |Recent(xs)| == Min(5, |xs|)
    ensures forall i, j :: 0 <= i < j < |Recent(xs)| ==> Recent(xs)[i].timestamp >= Recent(xs)[j].timestamp
    ensures Recent(xs) == [] <==> xs == []
  {
    var r := Recent(xs);
    TakeKeepsLargest(SortDesc(xs, Timestamp), 5, Timestamp);
    forall i, j | 0 <= i < j < |r| ensures r[i].timestamp >= r[j].timestamp {
      assert Timestamp(r[i]) >= Timestamp(r[j]);
    }
  }

  /** The rows are entries of the log, none shown more often than logged. */
  lemma RecentFromLog(xs: seq<Exercise>)
    ensures multiset(Recent(xs)) <= multiset(xs)
  {
    var s := SortDesc(xs, Timestamp);
    var n := |Recent(xs)|;
    assert s == s[..n] + s[n..];
  }

  /** Every entry left out is no newer than any entry shown. */
  lemma RecentAreNewest(xs: seq<Exercise>)
    ensures forall e, k :: e in multiset(xs) - multiset(Recent(xs)) && 0 <= k < |Recent(xs)| ==>
      e.timestamp <= Recent(xs)[k].timestamp
  {
    var s := SortDesc(xs, Timestamp);
    TakeKeepsLargest(s, 5, Timestamp);
    forall e, k | e in multiset(xs) - multiset(Recent(xs)) && 0 <= k < |Recent(xs)|
      ensures e.timestamp <= Recent(xs)[k].timestamp
    {
      assert Timestamp(e) <= Timestamp(Recent(xs)[k]);
    }
  }
}
