/** The leaderboard page (src/pages/LeaderboardPage.tsx): every exercise name with the summed count
    of its entries, largest first, ranked from 1. */
module Leaderboard {
  import opened Types
  import opened Seqs
  import opened Grouping
  import opened NameTotals

  /** A table row: `#rank`, the exercise name and its total count. */
  datatype Standing = Standing(rank: nat, name: string, count: int)

  /** `exerciseTotals` by `reduce`, then `Object.entries`, `map` and `sort`. */
  method SortedExercises(xs: seq<Exercise>) returns (r: seq<Entry>)
    ensures r == Ranking(xs)
  {
    var es := CountByName(xs);
    r := SortDesc(es, EntryTotal);
  }

  /** The rendered rows: `#{index + 1}`, the name and the count of each sorted pair. */
  function Standings(r: seq<Entry>): seq<Standing>
  {
    seq(|r|, i requires 0 <= i < |r| => Standing(i + 1, r[i].key, r[i].total))
  }

  /** The table the page shows for a log. */
  function Board(xs: seq<Exercise>): seq<Standing>
  {
    Standings(Ranking(xs))
  }

  function StandingCount(s: Standing): int
  {
    s.count
  }

  /** Some row shows this name. */
  predicate Shown(b: seq<Standing>, name: string)
  {
    exists i :: 0 <= i < |b| && b[i].name == name
  }

  /** "No data to display" appears exactly when nothing is logged. */
  lemma BoardEmpty(xs: seq<Exercise>)
    ensures Board(xs) == [] <==> xs == []
  {
    RankingOrder(xs);
  }

  /** One row per distinct logged name, none invented, each with the summed count of its entries. */
  lemma BoardRows(xs: seq<Exercise>)
    ensures var b := Board(xs);
      && (forall i, j :: 0 <= i < j < |b| ==> b[i].name != b[j].name)
      && (forall name :: Shown(b, name) <==> Logged(xs, name))
      && (forall i :: 0 <= i < |b| ==> b[i].count == NameTotal(xs, b[i].name))
  {
    var b := Board(xs);
    var r := Ranking(xs);
    RankingRows(xs);
    forall name ensures Shown(b, name) <==> Listed(r, name) {
      if Shown(b, name) {
        var i :| 0 <= i < |b| && b[i].name == name;
        assert r[i].key == name;
      }
      if Listed(r, name) {
        var i :| 0 <= i < |r| && r[i].key == name;
        assert b[i].name == name;
      }
    }
  }

  /** Ranks run 1, 2, 3, … down the table, and a better rank never has a smaller count. */
  lemma BoardOrder(xs: seq<Exercise>)
    ensures var b := Board(xs);
      && (forall i :: 0 <= i < |b| ==> b[i].rank == i + 1)
      && (forall i, j :: 0 <= i < j < |b| ==> b[i].count >= b[j].count)
  {
    RankingOrder(xs);
    var b := Board(xs);
    var r := Ranking(xs);
    forall i, j | 0 <= i < j < |b| ensures b[i].count >= b[j].count {
      assert EntryTotal(r[i]) >= EntryTotal(r[j]);
    }
  }

  lemma {:induction false} StandingsSum(r: seq<Entry>)
    ensures SumBy(Standings(r), StandingCount) == SumBy(r, EntryTotal)
  {
    if r != [] {
      assert Standings(r)[..|r| - 1] == Standings(r[..|r| - 1]);
      StandingsSum(r[..|r| - 1]);
    }
  }

  /** The counts in the table add up to the summed count of the whole log. */
  lemma BoardSum(xs: seq<Exercise>)
    ensures SumBy(Board(xs), StandingCount) == SumCounts(xs)
  {
    StandingsSum(Ranking(xs));
    RankingOrder(xs);
  }

  /** Whatever name is logged, the row ranked first has at least its summed count. */
  lemma LeaderHasMost(xs: seq<Exercise>, name: string)
    requires Logged(xs, name)
    ensures Board(xs) != [] && Board(xs)[0].rank == 1
    ensures NameTotal(xs, name) <= Board(xs)[0].count
  {
    var r := Ranking(xs);
    RankingRows(xs);
    RankingOrder(xs);
    var i :| 0 <= i < |r| && r[i].key == name;
    if i > 0 {
      assert EntryTotal(r[0]) >= EntryTotal(r[i]);
    }
  }
}
