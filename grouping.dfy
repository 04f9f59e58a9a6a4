/** Grouping a list by a string key into a JavaScript object used as a dictionary:
    `acc[key] = (acc[key] || 0) + weight` in a `forEach` or `reduce`, then `Object.entries(acc)`.
    The object's keys come back in the order they were first inserted. */
module Grouping {
  import opened Seqs

  /** One contribution: the key it is filed under and the amount it adds. */
  datatype Item = Item(key: string, weight: int)

  /** One `[key, total]` pair of `Object.entries`. */
  datatype Entry = Entry(key: string, total: int)

  predicate HasKey(items: seq<Item>, k: string)
  {
    exists i :: 0 <= i < |items| && items[i].key == k
  }

  ghost predicate Distinct(ks: seq<string>)
  {
    forall i, j :: 0 <= i < j < |ks| ==> ks[i] != ks[j]
  }

  /** The keys of the dictionary, in first-insertion order. */
  function Keys(items: seq<Item>): (ks: seq<string>)
    ensures Distinct(ks)
    ensures forall k :: k in ks <==> HasKey(items, k)
  {
    if items == [] then []
    else
      var init := items[..|items| - 1];
      var last := items[|items| - 1];
      var ks := Keys(init);
      assert forall k :: HasKey(items, k) <==> HasKey(init, k) || k == last.key by {
        forall k | HasKey(items, k) ensures HasKey(init, k) || k == last.key {
          var i :| 0 <= i < |items| && items[i].key == k;
          if i < |init| { assert init[i] == items[i]; }
        }
        forall k | HasKey(init, k) ensures HasKey(items, k) {
          var i :| 0 <= i < |init| && init[i].key == k;
          assert items[i] == init[i];
        }
      }
      if last.key in ks then ks else ks + [last.key]
  }

  /** The dictionary's value for `k`: the sum of the weights filed under `k`. */
  function Total(items: seq<Item>, k: string): int
  {
    if items == [] then 0
    else
      var last := items[|items| - 1];
      Total(items[..|items| - 1], k) + (if last.key == k then last.weight else 0)
  }

  /** The sum of all weights. */
  function Sum(items: seq<Item>): int
  {
    if items == [] then 0 else Sum(items[..|items| - 1]) + items[|items| - 1].weight
  }

  /** The totals of the keys `ks`, added up. */
  function SumOfTotals(items: seq<Item>, ks: seq<string>): int
  {
    if ks == [] then 0 else SumOfTotals(items, ks[..|ks| - 1]) + Total(items, ks[|ks| - 1])
  }

  /** The `[key, total]` pairs for the keys `ks`, in their order. */
  function EntriesFor(items: seq<Item>, ks: seq<string>): (es: seq<Entry>)
    ensures |es| == |ks| && forall i :: 0 <= i < |ks| ==> es[i] == Entry(ks[i], Total(items, ks[i]))
  {
    seq(|ks|, i requires 0 <= i < |ks| => Entry(ks[i], Total(items, ks[i])))
  }

  /** `Object.entries` of the finished dictionary. */
  function Entries(items: seq<Item>): (es: seq<Entry>)
    ensures |es| == |Keys(items)|
    ensures forall i :: 0 <= i < |es| ==> es[i] == Entry(Keys(items)[i], Total(items, Keys(items)[i]))
  {
    EntriesFor(items, Keys(items))
  }

  function EntryTotal(e: Entry): int
  {
    e.total
  }

  function EntryKey(e: Entry): string
  {
    e.key
  }

  lemma {:induction false} TotalOfAbsentKey(items: seq<Item>, k: string)
    requires !HasKey(items, k)
    ensures Total(items, k) == 0
  {
    if items != [] {
      TotalOfAbsentKey(items[..|items| - 1], k);
    }
  }

  /** With positive weights, every key that occurs has a positive total. */
  lemma {:induction false} TotalOfPresentKey(items: seq<Item>, k: string)
    requires forall i :: 0 <= i < |items| ==> items[i].weight > 0
    requires HasKey(items, k)
    ensures Total(items, k) > 0
  {
    var init := items[..|items| - 1];
    if items[|items| - 1].key == k {
      TotalNonNegative(init, k);
    } else {
      var i :| 0 <= i < |items| && items[i].key == k;
      assert init[i] == items[i];
      TotalOfPresentKey(init, k);
    }
  }

  lemma {:induction false} TotalNonNegative(items: seq<Item>, k: string)
    requires forall i :: 0 <= i < |items| ==> items[i].weight >= 0
    ensures Total(items, k) >= 0
  {
    if items != [] {
      TotalNonNegative(items[..|items| - 1], k);
    }
  }

  /** Adding one item to the dictionary raises the sum over distinct keys `ks` by its weight
      exactly when its key is among them. */
  lemma {:induction false} SumOfTotalsStep(items: seq<Item>, x: Item, ks: seq<string>)
    requires Distinct(ks)
    ensures SumOfTotals(items + [x], ks) == SumOfTotals(items, ks) + (if x.key in ks then x.weight else 0)
  {
    assert (items + [x])[..|items + [x]| - 1] == items;
    if ks != [] {
      var init := ks[..|ks| - 1];
      assert Distinct(init);
      assert x.key in ks <==> x.key in init || x.key == ks[|ks| - 1];
      assert x.key == ks[|ks| - 1] ==> x.key !in init;
      SumOfTotalsStep(items, x, init);
    }
  }

  /** The dictionary's values add up to the sum of all weights: nothing is lost or counted twice. */
  lemma {:induction false} EntriesSumToTotal(items: seq<Item>)
    ensures SumOfTotals(items, Keys(items)) == Sum(items)
  {
    if items != [] {
      var init := items[..|items| - 1];
      var x := items[|items| - 1];
      assert items == init + [x];
      var ks := Keys(init);
      EntriesSumToTotal(init);
      SumOfTotalsStep(init, x, ks);
      if x.key !in ks {
        assert Keys(items) == ks + [x.key];
        assert (ks + [x.key])[..|ks|] == ks;
        TotalOfAbsentKey(init, x.key);
      }
    }
  }

  lemma {:induction false} EntriesForSum(items: seq<Item>, ks: seq<string>)
    ensures SumBy(EntriesFor(items, ks), EntryTotal) == SumOfTotals(items, ks)
  {
    if ks != [] {
      var init := ks[..|ks| - 1];
      assert EntriesFor(items, ks)[..|ks| - 1] == EntriesFor(items, init);
      EntriesForSum(items, init);
    }
  }

  /** The values `Object.entries` returns add up to the sum of all weights. */
  lemma EntriesSum(items: seq<Item>)
    ensures SumBy(Entries(items), EntryTotal) == Sum(items)
  {
    EntriesForSum(items, Keys(items));
    EntriesSumToTotal(items);
  }

  /** The `forEach` over `items` that fills the dictionary `totals`; `keys` records the order in
      which keys were first inserted, which is the order `Object.entries` returns them in. */
  method Tally(items: seq<Item>) returns (keys: seq<string>, totals: map<string, int>)
    ensures keys == Keys(items)
    ensures forall k :: k in totals <==> k in keys
    ensures forall k :: k in totals ==> totals[k] == Total(items, k)
  {
    keys, totals := [], map[];
    var i := 0;
    while i < |items|
      invariant 0 <= i <= |items|
      invariant keys == Keys(items[..i])
      invariant forall k :: k in totals <==> k in keys
      invariant forall k :: k in totals ==> totals[k] == Total(items[..i], k)
    {
      var it := items[i];
      assert items[..i + 1][..i] == items[..i];
      if it.key in totals {
        totals := totals[it.key := totals[it.key] + it.weight];
      } else {
        TotalOfAbsentKey(items[..i], it.key);
        totals := totals[it.key := it.weight];
        keys := keys + [it.key];
      }
      i := i + 1;
    }
    assert items[..i] == items;
  }
}
