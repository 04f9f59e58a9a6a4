/** The history table (src/components/history/ExerciseList.tsx): the entries whose name contains
    the search term, ignoring case, and that carry the selected category, newest first. */
module ExerciseHistory {
  import opened Types
  import opened JsStrings
  import opened Seqs

  /** The row filter. An empty category selection is falsy and lets every entry through; any other
      selection must equal the entry's category, which an entry without one never does. */
  predicate Matches(e: Exercise, search: string, category: string)
  {
    Includes(Lower(e.name), Lower(search)) && (category == [] || e.category == Some(category))
  }

  function Matching(xs: seq<Exercise>, search: string, category: string): seq<Exercise>
  {
    Filter(xs, (e: Exercise) => Matches(e, search, category))
  }

  /** `filteredExercises`: the `filter`, then the newest-first `sort`. */
  function History(xs: seq<Exercise>, search: string, category: string): seq<Exercise>
  {
    SortDesc(Matching(xs, search, category), Timestamp)
  }

  /** How often the filter keeps an entry: as often as the log holds it when it matches, else never. */
  function Kept(xs: seq<Exercise>, e: Exercise, search: string, category: string): nat
  {
    if Matches(e, search, category) then multiset(xs)[e] else 0
  }

  /** The table holds each matching entry as often as the log does, and nothing else. */
  lemma HistoryContents(xs: seq<Exercise>, search: string, category: string)
    ensures forall e :: multiset(History(xs, search, category))[e] == Kept(xs, e, search, category)
    ensures forall e :: e in History(xs, search, category) <==> e in xs && Matches(e, search, category)
  {
    var h := History(xs, search, category);
    FilterCount(xs, (e: Exercise) => Matches(e, search, category));
    forall e ensures e in h <==> e in xs && Matches(e, search, category) {
      assert e in h <==> e in multiset(h);
      assert e in xs <==> e in multiset(xs);
    }
  }

  /** Newest first. */
  lemma HistorySorted(xs: seq<Exercise>, search: string, category: string)
    ensures forall i, j :: 0 <= i < j < |History(xs, search, category)| ==>
      History(xs, search, category)[i].timestamp >= History(xs, search, category)[j].timestamp
  {
    var h := History(xs, search, category);
    forall i, j | 0 <= i < j < |h| ensures h[i].timestamp >= h[j].timestamp {
      assert Timestamp(h[i]) >= Timestamp(h[j]);
    }
  }

  lemma LowerEmpty()
    ensures Lower("") == ""
  {
  }

  /** With an empty search term and no category selected the table shows the whole log. */
  lemma HistoryUnfiltered(xs: seq<Exercise>)
    ensures multiset(History(xs, "", "")) == multiset(xs)
    ensures |History(xs, "", "")| == |xs|
  {
    LowerEmpty();
    forall e ensures Matches(e, "", "") {
      IncludesEmpty(Lower(e.name));
    }
    FilterCount(xs, (e: Exercise) => Matches(e, "", ""));
    assert multiset(Matching(xs, "", "")) == multiset(xs);
  }

  /** With a category selected every row carries exactly that category. */
  lemma HistoryCategory(xs: seq<Exercise>, search: string, category: string)
    requires category != []
    ensures forall i :: 0 <= i < |History(xs, search, category)| ==>
      History(xs, search, category)[i].category == Some(category)
  {
    HistoryContents(xs, search, category);
    var h := History(xs, search, category);
    forall i | 0 <= i < |h| ensures h[i].category == Some(category) {
      assert h[i] in h;
    }
  }

  lemma LowerIdempotent(s: string)
    ensures Lower(Lower(s)) == Lower(s)
  {
  }

  /** The search ignores the case of the term: it makes no difference whether it is typed in capitals. */
  lemma SearchIgnoresCase(xs: seq<Exercise>, search: string, category: string)
    ensures History(xs, Lower(search), category) == History(xs, search, category)
  {
    LowerIdempotent(search);
    assert forall e :: Matches(e, Lower(search), category) == Matches(e, search, category);
    assert Matching(xs, Lower(search), category) == Matching(xs, search, category) by {
      FilterSame(xs, (e: Exercise) => Matches(e, Lower(search), category),
        (e: Exercise) => Matches(e, search, category));
    }
  }
}
