/** The per-name dictionary two views build from the exercise log,
    `acc[e.name] = (acc[e.name] || 0) + e.count` (src/components/stats/ExerciseStats.tsx and
    src/pages/LeaderboardPage.tsx), and its `Object.entries`. */
module NameTotals {
  import opened Types
  import opened Seqs
  import opened Grouping

  /** The contributions to the dictionary: each entry adds its count under its name. */
  function CountItems(xs: seq<Exercise>): (items: seq<Item>)
    ensures |items| == |xs| && forall i :: 0 <= i < |xs| ==> items[i] == Item(xs[i].name, xs[i].count)
  {
    seq(|xs|, i requires 0 <= i < |xs| => Item(xs[i].name, xs[i].count))
  }

  /** The entries logged under `name`, in their order. */
  function Named(xs: seq<Exercise>, name: string): seq<Exercise>
  {
    Filter(xs, (e: Exercise) => e.name == name)
  }

  /** The summed count of the entries logged under `name`. */
  function NameTotal(xs: seq<Exercise>, name: string): int
  {
    SumCounts(Named(xs, name))
  }

  /** `Object.entries` of the dictionary: one `[name, total]` pair per name, first-logged first. */
  function NameEntries(xs: seq<Exercise>): seq<Entry>
  {
    Entries(CountItems(xs))
  }

  /** The loop that fills the dictionary, then `Object.entries`. */
  method CountByName(xs: seq<Exercise>) returns (es: seq<Entry>)
    ensures es == NameEntries(xs)
  {
    var keys, totals := Tally(CountItems(xs));
    es := seq(|keys|, i requires 0 <= i < |keys| => Entry(keys[i], totals[keys[i]]));
  }

  lemma SumCountsSingle(e: Exercise)
    ensures SumCounts([e]) == e.count
  {
    assert [e][..0] == [];
  }

  /** The dictionary's value for a name is the summed count of the entries logged under it. */
  lemma {:induction false} TotalIsNameTotal(xs: seq<Exercise>, name: string)
    ensures Total(CountItems(xs), name) == NameTotal(xs, name)
  {
    if xs != [] {
      var init := xs[..|xs| - 1];
      var last := xs[|xs| - 1];
      assert CountItems(xs)[..|xs| - 1] == CountItems(init);
      TotalIsNameTotal(init, name);
      var tail := if last.name == name then [last] else [];
      assert Named(xs, name) == Named(init, name) + tail;
      SumCountsAppend(Named(init, name), tail);
      SumCountsSingle(last);
    }
  }

  lemma {:induction false} SumOfCountItems(xs: seq<Exercise>)
    ensures Sum(CountItems(xs)) == SumCounts(xs)
  {
    if xs != [] {
      assert CountItems(xs)[..|xs| - 1] == CountItems(xs[..|xs| - 1]);
      SumOfCountItems(xs[..|xs| - 1]);
    }
  }

  /** Some entry of the log has this name. */
  predicate Logged(xs: seq<Exercise>, name: string)
  {
    exists j :: 0 <= j < |xs| && xs[j].name == name
  }

  /** Some pair has this key. */
  predicate Listed(es: seq<Entry>, name: string)
  {
    exists i :: 0 <= i < |es| && es[i].key == name
  }

  lemma LoggedIsKey(xs: seq<Exercise>, name: string)
    ensures Logged(xs, name) <==> HasKey(CountItems(xs), name)
  {
    var items := CountItems(xs);
    if HasKey(items, name) {
      var j :| 0 <= j < |items| && items[j].key == name;
      assert xs[j].name == name;
    }
    if Logged(xs, name) {
      var j :| 0 <= j < |xs| && xs[j].name == name;
      assert items[j].key == name;
    }
  }

  lemma ListedIsKey(xs: seq<Exercise>, name: string)
    ensures Listed(NameEntries(xs), name) <==> name in Keys(CountItems(xs))
  {
    var ks := Keys(CountItems(xs));
    if name in ks {
      var i :| 0 <= i < |ks| && ks[i] == name;
      assert NameEntries(xs)[i].key == name;
    }
  }

  /** One pair per distinct name that occurs in the log: no name twice, none missing, none invented. */
  lemma NameEntriesDistinct(xs: seq<Exercise>)
    ensures forall i, j :: 0 <= i < j < |NameEntries(xs)| ==> NameEntries(xs)[i].key != NameEntries(xs)[j].key
    ensures forall name :: Listed(NameEntries(xs), name) <==> Logged(xs, name)
  {
    var ks := Keys(CountItems(xs));
    assert Distinct(ks);
    forall name ensures Listed(NameEntries(xs), name) <==> Logged(xs, name) {
      ListedIsKey(xs, name);
      LoggedIsKey(xs, name);
    }
  }

  /** Each pair carries its name's summed count. */
  lemma NameEntriesValues(xs: seq<Exercise>)
    ensures forall i :: 0 <= i < |NameEntries(xs)| ==> NameEntries(xs)[i].total == NameTotal(xs, NameEntries(xs)[i].key)
  {
    var es := NameEntries(xs);
    forall i | 0 <= i < |es| ensures es[i].total == NameTotal(xs, es[i].key) {
      TotalIsNameTotal(xs, es[i].key);
    }
  }

  /** An empty log gives no pairs, and a non-empty one at least one. */
  lemma NameEntriesEmpty(xs: seq<Exercise>)
    ensures NameEntries(xs) == [] <==> xs == []
  {
    if xs != [] {
      assert Logged(xs, xs[0].name);
      LoggedIsKey(xs, xs[0].name);
    }
  }

  /** The pairs' totals add up to the summed count of the whole log. */
  lemma NameEntriesSum(xs: seq<Exercise>)
    ensures SumBy(NameEntries(xs), EntryTotal) == SumCounts(xs)
  {
    EntriesSum(CountItems(xs));
    SumOfCountItems(xs);
  }

  /** The pairs sorted by decreasing total, `(a, b) => b.value - a.value`; equal totals keep
      their first-logged order. */
  function Ranking(xs: seq<Exercise>): seq<Entry>
  {
    SortDesc(NameEntries(xs), EntryTotal)
  }

  /** The ranking has one row per distinct logged name, with that name's summed count. */
  lemma RankingRows(xs: seq<Exercise>)
    ensures var r := Ranking(xs);
      && (forall i, j :: 0 <= i < j < |r| ==> r[i].key != r[j].key)
      && (forall name :: Listed(r, name) <==> Logged(xs, name))
      && (forall i :: 0 <= i < |r| ==> r[i].total == NameTotal(xs, r[i].key))
  {
    RankingDistinct(xs);
    RankingContents(xs);
  }

  lemma RankingDistinct(xs: seq<Exercise>)
    ensures forall i, j :: 0 <= i < j < |Ranking(xs)| ==> Ranking(xs)[i].key != Ranking(xs)[j].key
  {
    var es := NameEntries(xs);
    var r := Ranking(xs);
    NameEntriesDistinct(xs);
    assert InjectiveOn(es, EntryKey);
    SortDescInjective(es, EntryTotal, EntryKey);
    forall i, j | 0 <= i < j < |r| ensures r[i].key != r[j].key {
      assert EntryKey(r[i]) != EntryKey(r[j]);
    }
  }

  lemma RankingContents(xs: seq<Exercise>)
    ensures forall name :: Listed(Ranking(xs), name) <==> Logged(xs, name)
    ensures forall i :: 0 <= i < |Ranking(xs)| ==> Ranking(xs)[i].total == NameTotal(xs, Ranking(xs)[i].key)
  {
    var es := NameEntries(xs);
    var r := Ranking(xs);
    NameEntriesDistinct(xs);
    NameEntriesValues(xs);
    forall i | 0 <= i < |r| ensures Listed(es, r[i].key) && r[i].total == NameTotal(xs, r[i].key) {
      var m := RankedRowIsEntry(xs, i);
    }
    forall name | Listed(es, name) ensures Listed(r, name) {
      var m :| 0 <= m < |es| && es[m].key == name;
      var i := EntryIsRanked(xs, m);
    }
  }

  lemma RankedRowIsEntry(xs: seq<Exercise>, i: nat) returns (m: nat)
    requires i < |Ranking(xs)|
    ensures m < |NameEntries(xs)| && NameEntries(xs)[m] == Ranking(xs)[i]
  {
    assert Ranking(xs)[i] in multiset(NameEntries(xs));
    m :| 0 <= m < |NameEntries(xs)| && NameEntries(xs)[m] == Ranking(xs)[i];
  }

  lemma EntryIsRanked(xs: seq<Exercise>, m: nat) returns (i: nat)
    requires m < |NameEntries(xs)|
    ensures i < |Ranking(xs)| && Ranking(xs)[i] == NameEntries(xs)[m]
  {
    assert NameEntries(xs)[m] in multiset(Ranking(xs));
    i :| 0 <= i < |Ranking(xs)| && Ranking(xs)[i] == NameEntries(xs)[m];
  }

  /** The ranking is ordered by decreasing total, keeps the grand total, and is empty exactly
      when the log is. */
  lemma RankingOrder(xs: seq<Exercise>)
    ensures SortedDesc(Ranking(xs), EntryTotal)
    ensures SumBy(Ranking(xs), EntryTotal) == SumCounts(xs)
    ensures Ranking(xs) == [] <==> xs == []
  {
    SortDescSum(NameEntries(xs), EntryTotal, EntryTotal);
    NameEntriesSum(xs);
    NameEntriesEmpty(xs);
  }
}
