/** The two charts of the statistics panel (src/components/stats/ExerciseStats.tsx): entries per
    category, and the five names with the largest summed counts. */
module ExerciseStatsCharts {
  import opened Types
  import opened JsStrings
  import opened Seqs
  import opened Grouping
  import opened NameTotals

  /** A `{name, value}` slice of the category pie chart. */
  datatype Slice = Slice(name: string, value: int)

  const Uncategorized: string := "uncategorized"

  /** `exercise.category || 'uncategorized'`: a missing or empty category is filed under the
      fallback key. */
  function CategoryKey(e: Exercise): string
  {
    match e.category
    case Some(c) => if c != [] then c else Uncategorized
    case None => Uncategorized
  }

  /** The slice name of a key: the fallback reads `Uncategorized`, any other key has its first
      character upper-cased. */
  function Label(key: string): (r: string)
    ensures key == Uncategorized ==> r == "Uncategorized"
    ensures key != Uncategorized ==> |r| == |key| && forall i :: 0 < i < |key| ==> r[i] == key[i]
    ensures key != Uncategorized && key != [] ==> r[0] == UpperChar(key[0])
  {
    if key == Uncategorized then "Uncategorized" else if key == [] then [] else [UpperChar(key[0])] + key[1..]
  }

  /** The contributions to `categories`: one per entry, under its category key. */
  function CategoryItems(xs: seq<Exercise>): (items: seq<Item>)
    ensures |items| == |xs| && forall i :: 0 <= i < |xs| ==> items[i] == Item(CategoryKey(xs[i]), 1)
  {
    seq(|xs|, i requires 0 <= i < |xs| => Item(CategoryKey(xs[i]), 1))
  }

  /** The category keys in the order `Object.entries` returns them. */
  function Categories(xs: seq<Exercise>): seq<string>
  {
    Keys(CategoryItems(xs))
  }

  /** The entries filed under a category key. */
  function InCategory(xs: seq<Exercise>, key: string): seq<Exercise>
  {
    Filter(xs, (e: Exercise) => CategoryKey(e) == key)
  }

  function SlicesOf(es: seq<Entry>): (r: seq<Slice>)
    ensures |r| == |es| && forall i :: 0 <= i < |es| ==> r[i] == Slice(Label(es[i].key), es[i].total)
  {
    seq(|es|, i requires 0 <= i < |es| => Slice(Label(es[i].key), es[i].total))
  }

  /** `categoryData`. */
  function CategorySlices(xs: seq<Exercise>): seq<Slice>
  {
    SlicesOf(Entries(CategoryItems(xs)))
  }

  /** The `forEach` that fills `categories`, then the `map` over its entries. */
  method CategoryData(xs: seq<Exercise>) returns (r: seq<Slice>)
    ensures r == CategorySlices(xs)
  {
    var keys, totals := Tally(CategoryItems(xs));
    r := seq(|keys|, i requires 0 <= i < |keys| => Slice(Label(keys[i]), totals[keys[i]]));
  }

  function SliceValue(s: Slice): int
  {
    s.value
  }

  lemma {:induction false} CountIsFiltered(xs: seq<Exercise>, key: string)
    ensures Total(CategoryItems(xs), key) == |InCategory(xs, key)|
  {
    if xs != [] {
      var init := xs[..|xs| - 1];
      assert CategoryItems(xs)[..|xs| - 1] == CategoryItems(init);
      CountIsFiltered(init, key);
    }
  }

  /** One slice per distinct category key, first-filed first, each named by the key's label and
      valued by the number of entries filed under it. */
  lemma CategoryBuckets(xs: seq<Exercise>)
    ensures var r := CategorySlices(xs); var ks := Categories(xs);
      && |r| == |ks|
      && (forall i, j :: 0 <= i < j < |ks| ==> ks[i] != ks[j])
      && (forall key :: key in ks <==> exists j :: 0 <= j < |xs| && CategoryKey(xs[j]) == key)
      && (forall i :: 0 <= i < |r| ==> r[i] == Slice(Label(ks[i]), |InCategory(xs, ks[i])|))
  {
    var items := CategoryItems(xs);
    var ks := Categories(xs);
    assert Distinct(ks);
    forall key ensures HasKey(items, key) <==> exists j :: 0 <= j < |xs| && CategoryKey(xs[j]) == key {
      if HasKey(items, key) {
        var j :| 0 <= j < |items| && items[j].key == key;
      }
      if exists j :: 0 <= j < |xs| && CategoryKey(xs[j]) == key {
        var j :| 0 <= j < |xs| && CategoryKey(xs[j]) == key;
        assert items[j].key == key;
      }
    }
    forall i | 0 <= i < |ks| ensures CategorySlices(xs)[i] == Slice(Label(ks[i]), |InCategory(xs, ks[i])|) {
      CountIsFiltered(xs, ks[i]);
    }
  }

  lemma {:induction false} SlicesOfSum(es: seq<Entry>)
    ensures SumBy(SlicesOf(es), SliceValue) == SumBy(es, EntryTotal)
  {
    if es != [] {
      assert SlicesOf(es)[..|es| - 1] == SlicesOf(es[..|es| - 1]);
      SlicesOfSum(es[..|es| - 1]);
    }
  }

  lemma {:induction false} CategoryItemsSum(xs: seq<Exercise>)
    ensures Sum(CategoryItems(xs)) == |xs|
  {
    if xs != [] {
      assert CategoryItems(xs)[..|xs| - 1] == CategoryItems(xs[..|xs| - 1]);
      CategoryItemsSum(xs[..|xs| - 1]);
    }
  }

  /** The slice values add up to the number of entries: each entry is in exactly one slice. */
  lemma CategoryValuesSum(xs: seq<Exercise>)
    ensures SumBy(CategorySlices(xs), SliceValue) == |xs|
  {
    SlicesOfSum(Entries(CategoryItems(xs)));
    EntriesSum(CategoryItems(xs));
    CategoryItemsSum(xs);
  }

  /** An empty log draws no slices; a non-empty one at least one. */
  lemma CategoryEmpty(xs: seq<Exercise>)
    ensures CategorySlices(xs) == [] <==> xs == []
  {
    if xs != [] {
      assert HasKey(CategoryItems(xs), CategoryKey(xs[0])) by {
        assert CategoryItems(xs)[0].key == CategoryKey(xs[0]);
      }
    }
  }

  /** `exerciseData`: the ranking of name totals cut to five. */
  function TopExercises(xs: seq<Exercise>): seq<Entry>
  {
    Take(Ranking(xs), 5)
  }

  /** The `forEach` that fills `exerciseCounts`, then `map`, `sort` and `slice(0, 5)`. */
  method ExerciseData(xs: seq<Exercise>) returns (r: seq<Entry>)
    ensures r == TopExercises(xs)
  {
    var es := CountByName(xs);
    r := Take(SortDesc(es, EntryTotal), 5);
  }

  /** At most five rows, by decreasing total; none exactly when nothing is logged. */
  lemma TopExercisesShape(xs: seq<Exercise>)
    ensures SortedDesc(TopExercises(xs), EntryTotal)
    ensures |TopExercises(xs)| == Min(5, |NameEntries(xs)|) <= 5
    ensures TopExercises(xs) == [] <==> xs == []
  {
    RankingOrder(xs);
    TakeKeepsLargest(Ranking(xs), 5, EntryTotal);
  }

  /** Each row is a distinct logged name with the summed count of its entries. */
  lemma TopExercisesValues(xs: seq<Exercise>)
    ensures var r := TopExercises(xs);
      && (forall i, j :: 0 <= i < j < |r| ==> r[i].key != r[j].key)
      && (forall i :: 0 <= i < |r| ==> Logged(xs, r[i].key) && r[i].total == NameTotal(xs, r[i].key))
  {
    var r := TopExercises(xs);
    var all := Ranking(xs);
    RankingRows(xs);
    forall i | 0 <= i < |r| ensures Logged(xs, r[i].key) && r[i].total == NameTotal(xs, r[i].key) {
      assert r[i] == all[i];
      assert Listed(all, r[i].key);
    }
  }

  /** A logged name left out of the five has a total no larger than any shown one. */
  lemma TopExercisesDropped(xs: seq<Exercise>, name: string)
    requires Logged(xs, name) && !Listed(TopExercises(xs), name)
    ensures forall k :: 0 <= k < |TopExercises(xs)| ==> NameTotal(xs, name) <= TopExercises(xs)[k].total
  {
    var x := RankedEntry(xs, name);
    var r := TopExercises(xs);
    assert x !in multiset(r) by {
      assert forall m :: 0 <= m < |r| ==> r[m].key != name;
    }
    TakeDropped(Ranking(xs), 5, EntryTotal, x);
  }

  /** The ranking row of a logged name. */
  lemma RankedEntry(xs: seq<Exercise>, name: string) returns (x: Entry)
    requires Logged(xs, name)
    ensures x in multiset(Ranking(xs)) && x.key == name && x.total == NameTotal(xs, name)
  {
    var all := Ranking(xs);
    RankingRows(xs);
    var i :| 0 <= i < |all| && all[i].key == name;
    x := all[i];
  }
}
