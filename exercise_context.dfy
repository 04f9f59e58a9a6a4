/** The exercise log store (src/context/ExerciseContext.tsx): the list of logged exercises, the
    statistics derived from it after every change, and the three list edits. */
module ExerciseContext {
  import opened Types
  import opened Time
  import opened Grouping

  /** What the `exerciseFrequency` dictionary is filled from: one entry per exercise, by name. */
  function NameItems(xs: seq<Exercise>): (items: seq<Item>)
    ensures |items| == |xs| && forall i :: 0 <= i < |xs| ==> items[i] == Item(xs[i].name, 1)
  {
    seq(|xs|, i requires 0 <= i < |xs| => Item(xs[i].name, 1))
  }

  /** How many exercises are named `name`. */
  function Frequency(xs: seq<Exercise>, name: string): int
  {
    Total(NameItems(xs), name)
  }

  /** The distinct names in order of first appearance: the key order of `exerciseFrequency`. */
  function Names(xs: seq<Exercise>): seq<string>
  {
    Keys(NameItems(xs))
  }

  /** The calendar days the exercises fall on (`new Set(exercises.map(toDateString))`). */
  function Days(xs: seq<Exercise>): set<int>
  {
    set e | e in xs :: DayIndex(e.timestamp)
  }

  /** `m` names an exercise that no other name outnumbers, with its number of entries; among
      names with as many entries it is the first in key order. */
  ghost predicate IsMostFrequent(xs: seq<Exercise>, m: MostFrequent)
  {
    var ns := Names(xs);
    && m.name in ns
    && m.count == Frequency(xs, m.name)
    && (forall n :: Frequency(xs, n) <= m.count)
    && (forall k, l :: 0 <= k < l < |ns| && ns[l] == m.name ==> Frequency(xs, ns[k]) < m.count)
  }

  /** What `calculateStats` promises about the statistics of `xs`, rounding of the average aside. */
  ghost predicate IsStatsOf(s: ExerciseStats, xs: seq<Exercise>)
  {
    && s.totalExercises == |xs|
    && s.totalCount == SumCounts(xs)
    && (xs == [] ==> s.averagePerDay == 0.0)
    && (xs != [] ==> |Days(xs)| > 0 && s.averagePerDay == |xs| as real / |Days(xs)| as real)
    && (s.mostFrequent.None? <==> xs == [])
    && (s.mostFrequent.Some? ==> IsMostFrequent(xs, s.mostFrequent.value))
  }

  lemma FrequencyOfName(xs: seq<Exercise>, name: string)
    ensures name in Names(xs) ==> Frequency(xs, name) > 0
    ensures name !in Names(xs) ==> Frequency(xs, name) == 0
  {
    if name in Names(xs) {
      TotalOfPresentKey(NameItems(xs), name);
    } else {
      TotalOfAbsentKey(NameItems(xs), name);
    }
  }

  lemma DaysNonEmpty(xs: seq<Exercise>)
    requires xs != []
    ensures |Days(xs)| > 0
  {
    assert DayIndex(xs[0].timestamp) in Days(xs);
  }

  /** A scan over the names in key order that keeps the first strict maximum has found the
      most frequent name. */
  lemma ScanFindsMostFrequent(xs: seq<Exercise>, best: int, highest: int)
    requires xs != []
    requires 0 < |Names(xs)| ==> 0 <= best < |Names(xs)| && highest == Frequency(xs, Names(xs)[best]) && highest > 0
    requires 0 == |Names(xs)| ==> highest == 0
    requires forall k :: 0 <= k < |Names(xs)| ==> Frequency(xs, Names(xs)[k]) <= highest
    requires forall k :: 0 <= k < best ==> Frequency(xs, Names(xs)[k]) < highest
    ensures highest > 0 && IsMostFrequent(xs, MostFrequent(Names(xs)[best], highest))
  {
    var ns := Names(xs);
    assert HasKey(NameItems(xs), xs[0].name);
    assert xs[0].name in ns;
    forall n ensures Frequency(xs, n) <= highest {
      FrequencyOfName(xs, n);
    }
    forall k, l | 0 <= k < l < |ns| && ns[l] == ns[best]
      ensures Frequency(xs, ns[k]) < highest
    {
      assert l == best;
    }
  }

  /** The scan over `Object.entries(exerciseFrequency)` that keeps a name only when its number of
      entries beats the best so far with a strict `>`. */
  method ScanNames(xs: seq<Exercise>, names: seq<string>, frequency: map<string, int>)
    returns (mostFrequentName: string, highestFrequency: int, ghost best: int)
    requires names == Names(xs)
    requires forall k :: k in frequency <==> k in names
    requires forall k :: k in frequency ==> frequency[k] == Frequency(xs, k)
    ensures forall k :: 0 <= k < |names| ==> Frequency(xs, names[k]) <= highestFrequency
    ensures |names| == 0 ==> highestFrequency == 0
    ensures |names| > 0 ==> && 0 <= best < |names| && names[best] == mostFrequentName
                            && highestFrequency == Frequency(xs, mostFrequentName) && highestFrequency > 0
                            && forall k :: 0 <= k < best ==> Frequency(xs, names[k]) < highestFrequency
  {
    mostFrequentName := "";
    highestFrequency := 0;
    best := 0;
    var j := 0;
    while j < |names|
      invariant 0 <= j <= |names|
      invariant forall k :: 0 <= k < j ==> Frequency(xs, names[k]) <= highestFrequency
      invariant j == 0 ==> highestFrequency == 0
      invariant j > 0 ==> && 0 <= best < j && names[best] == mostFrequentName
                          && highestFrequency == Frequency(xs, mostFrequentName) && highestFrequency > 0
                          && forall k :: 0 <= k < best ==> Frequency(xs, names[k]) < highestFrequency
    {
      var f := frequency[names[j]];
      FrequencyOfName(xs, names[j]);
      if f > highestFrequency {
        mostFrequentName := names[j];
        highestFrequency := f;
        best := j;
      }
      j := j + 1;
    }
  }

  /** `calculateStats`: the early return for an empty list, then the `reduce`, the `forEach` that
      counts entries per name, the scan over its entries, and the day count. */
  method CalculateStats(xs: seq<Exercise>) returns (s: ExerciseStats)
    ensures IsStatsOf(s, xs)
  {
    if |xs| == 0 {
      return ExerciseStats(0, 0, 0.0, None);
    }
    var totalCount := SumCounts(xs);
    var names, frequency := Tally(NameItems(xs));
    var mostFrequentName: string, highestFrequency: int;
    ghost var best: int;
    mostFrequentName, highestFrequency, best := ScanNames(xs, names, frequency);
    ScanFindsMostFrequent(xs, best, highestFrequency);
    var days := |Days(xs)|;
    DaysNonEmpty(xs);
    var averagePerDay := if days > 0 then |xs| as real / days as real else |xs| as real;
    s := ExerciseStats(|xs|, totalCount, averagePerDay,
      if highestFrequency > 0 then Some(MostFrequent(mostFrequentName, highestFrequency)) else None);
  }

  /** The statistics are a function of the list alone: two results that both meet the promise
      are equal, so the tie-break leaves no choice. */
  lemma {:induction false} StatsDeterministic(s1: ExerciseStats, s2: ExerciseStats, xs: seq<Exercise>)
    requires IsStatsOf(s1, xs) && IsStatsOf(s2, xs)
    ensures s1 == s2
  {
    if xs != [] {
      var m1, m2 := s1.mostFrequent.value, s2.mostFrequent.value;
      var ns := Names(xs);
      assert m1.count == m2.count by {
        assert Frequency(xs, m1.name) <= m2.count;
        assert Frequency(xs, m2.name) <= m1.count;
      }
      var l1 :| 0 <= l1 < |ns| && ns[l1] == m1.name;
      var l2 :| 0 <= l2 < |ns| && ns[l2] == m2.name;
    }
  }

  /** Three entries on one day and two on the next are spread over two days, 2.5 entries per day. */
  lemma AverageExample(a: Exercise, b: Exercise, c: Exercise, d: Exercise, e: Exercise)
    requires DayIndex(a.timestamp) == DayIndex(b.timestamp) == DayIndex(c.timestamp)
    requires DayIndex(d.timestamp) == DayIndex(e.timestamp) == DayIndex(a.timestamp) + 1
    ensures |Days([a, b, c, d, e])| == 2
    ensures |[a, b, c, d, e]| as real / |Days([a, b, c, d, e])| as real == 2.5
  {
    var xs := [a, b, c, d, e];
    var day := DayIndex(a.timestamp);
    forall x | x in xs ensures DayIndex(x.timestamp) in {day, day + 1} {
    }
    assert day in Days(xs) by { assert a in xs; }
    assert day + 1 in Days(xs) by { assert d in xs; }
    assert Days(xs) == {day, day + 1};
  }

  function Pick<T>(patch: Option<T>, current: T): T
  {
    if patch.Some? then patch.value else current
  }

  /** `{ ...exercise, ...patch }`: every property present in the patch wins. */
  function Merge(e: Exercise, p: ExercisePatch): Exercise
  {
    Exercise(Pick(p.id, e.id), Pick(p.name, e.name), Pick(p.count, e.count),
      Pick(p.timestamp, e.timestamp), Pick(p.category, e.category), Pick(p.personName, e.personName))
  }

  /** Property by property, a merge takes the patch's value where the patch has the property and
      keeps the entry's value where it does not. */
  lemma MergeFields(e: Exercise, p: ExercisePatch)
    ensures Merge(e, p).id == (if p.id.Some? then p.id.value else e.id)
    ensures Merge(e, p).name == (if p.name.Some? then p.name.value else e.name)
    ensures Merge(e, p).count == (if p.count.Some? then p.count.value else e.count)
    ensures Merge(e, p).timestamp == (if p.timestamp.Some? then p.timestamp.value else e.timestamp)
    ensures Merge(e, p).category == (if p.category.Some? then p.category.value else e.category)
    ensures Merge(e, p).personName == (if p.personName.Some? then p.personName.value else e.personName)
  {
  }

  /** Merging a patch that carries the entry's own value for every property it has changes nothing. */
  lemma MergeAgreeing(e: Exercise, p: ExercisePatch)
    requires p.id.Some? ==> p.id.value == e.id
    requires p.name.Some? ==> p.name.value == e.name
    requires p.count.Some? ==> p.count.value == e.count
    requires p.timestamp.Some? ==> p.timestamp.value == e.timestamp
    requires p.category.Some? ==> p.category.value == e.category
    requires p.personName.Some? ==> p.personName.value == e.personName
    ensures Merge(e, p) == e
  {
  }

  /** The stored entry minus its id: the `Omit<Exercise, 'id'>` part. */
  function InputOf(e: Exercise): ExerciseInput
  {
    ExerciseInput(e.name, e.count, e.timestamp, e.category, e.personName)
  }

  /** `{ ...input, id }`: the new entry has the fresh id and, apart from it, exactly the given
      properties. */
  function WithId(input: ExerciseInput, id: string): (e: Exercise)
    ensures e.id == id && InputOf(e) == input
  {
    Exercise(id, input.name, input.count, input.timestamp, input.category, input.personName)
  }

  /** An entry is determined by its id and its other properties. */
  lemma WithIdOfEntry(e: Exercise)
    ensures WithId(InputOf(e), e.id) == e
  {
  }

  /** `exercises.filter(e => e.id !== id)`. */
  function Deleted(xs: seq<Exercise>, id: string): seq<Exercise>
  {
    if xs == [] then []
    else (if xs[0].id == id then [] else [xs[0]]) + Deleted(xs[1..], id)
  }

  /** Deleting removes every entry with the id and keeps every other one as often as it was there. */
  lemma {:induction false} DeletedContents(xs: seq<Exercise>, id: string)
    ensures forall e :: multiset(Deleted(xs, id))[e] == if e.id == id then 0 else multiset(xs)[e]
  {
    if xs != [] {
      DeletedContents(xs[1..], id);
      var head := if xs[0].id == id then [] else [xs[0]];
      assert xs == [xs[0]] + xs[1..];
      assert multiset(xs) == multiset{xs[0]} + multiset(xs[1..]);
      assert multiset(Deleted(xs, id)) == multiset(head) + multiset(Deleted(xs[1..], id));
    }
  }

  /** When no entry has the id, deleting it leaves the list unchanged. */
  lemma {:induction false} DeletedAbsent(xs: seq<Exercise>, id: string)
    requires forall k :: 0 <= k < |xs| ==> xs[k].id != id
    ensures Deleted(xs, id) == xs
  {
    if xs != [] {
      DeletedAbsent(xs[1..], id);
      assert xs == [xs[0]] + xs[1..];
    }
  }

  /** Deleting works entry by entry, so the entries that stay keep their order. */
  lemma {:induction false} DeletedAppend(a: seq<Exercise>, b: seq<Exercise>, id: string)
    ensures Deleted(a + b, id) == Deleted(a, id) + Deleted(b, id)
  {
    if a == [] {
      assert a + b == b;
    } else {
      assert (a + b)[1..] == a[1..] + b;
      DeletedAppend(a[1..], b, id);
    }
  }

  /** `exercises.map(e => e.id === id ? { ...e, ...patch } : e)`. */
  function Updated(xs: seq<Exercise>, id: string, p: ExercisePatch): (r: seq<Exercise>)
    ensures |r| == |xs|
    ensures forall i :: 0 <= i < |xs| && xs[i].id == id ==> r[i] == Merge(xs[i], p)
    ensures forall i :: 0 <= i < |xs| && xs[i].id != id ==> r[i] == xs[i]
  {
    seq(|xs|, i requires 0 <= i < |xs| => if xs[i].id == id then Merge(xs[i], p) else xs[i])
  }

  /** Updating an id that no entry has, or with an empty patch, leaves the list as it was;
      updating twice with a patch that keeps the id is the same as updating once. */
  lemma UpdatedFixpoints(xs: seq<Exercise>, id: string, p: ExercisePatch)
    ensures (forall k :: 0 <= k < |xs| ==> xs[k].id != id) ==> Updated(xs, id, p) == xs
    ensures Updated(xs, id, ExercisePatch(None, None, None, None, None, None)) == xs
    ensures p.id.None? || p.id == Some(id) ==> Updated(Updated(xs, id, p), id, p) == Updated(xs, id, p)
  {
  }

  /** Updating works entry by entry, so the list keeps its order and splits over concatenation. */
  lemma UpdatedAppend(a: seq<Exercise>, b: seq<Exercise>, id: string, p: ExercisePatch)
    ensures Updated(a + b, id, p) == Updated(a, id, p) + Updated(b, id, p)
  {
  }

  ghost predicate UniqueIds(xs: seq<Exercise>)
  {
    forall i, j :: 0 <= i < j < |xs| ==> xs[i].id != xs[j].id
  }

  /** The provider's two pieces of state; `Valid` says the statistics are those of the list. */
  class ExerciseStore {
    var exercises: seq<Exercise>
    var stats: ExerciseStats

    ghost predicate Valid()
      reads this
    {
      IsStatsOf(stats, exercises)
    }

    /** The list read back from storage, and the statistics the first effect computes for it. */
    constructor (saved: seq<Exercise>)
      ensures exercises == saved && Valid()
    {
      var s := CalculateStats(saved);
      exercises := saved;
      stats := s;
    }

    /** `addExercise(input)` with `id` the value of `crypto.randomUUID()`. */
    method AddExercise(input: ExerciseInput, id: string)
      modifies this
      ensures exercises == old(exercises) + [WithId(input, id)]
      ensures Valid()
      ensures UniqueIds(old(exercises)) && (forall k :: 0 <= k < |old(exercises)| ==> old(exercises)[k].id != id) ==>
        UniqueIds(exercises)
    {
      exercises := exercises + [WithId(input, id)];
      stats := CalculateStats(exercises);
    }

    method DeleteExercise(id: string)
      modifies this
      ensures exercises == Deleted(old(exercises), id)
      ensures Valid()
    {
      exercises := Deleted(exercises, id);
      stats := CalculateStats(exercises);
    }

    method UpdateExercise(id: string, patch: ExercisePatch)
      modifies this
      ensures exercises == Updated(old(exercises), id, patch)
      ensures Valid()
    {
      exercises := Updated(exercises, id, patch);
      stats := CalculateStats(exercises);
    }
  }
}
