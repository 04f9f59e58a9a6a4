/** The workout progress store (src/context/WorkoutContext.tsx): one record per calendar day
    naming the plan items completed on it. The record list is the provider's React state; every
    operation replaces it with a new list. */
module WorkoutContext {
  import opened Types
  import opened Time

  /** `progress.findIndex(entry => entry.date === key)`: the first record of day `key`, or -1. */
  function FindIndex(progress: seq<ProgressEntry>, key: int): (r: int)
    ensures -1 <= r < |progress|
    ensures r >= 0 ==> progress[r].date == key
    ensures forall j :: 0 <= j < |progress| && (r == -1 || j < r) ==> progress[j].date != key
  {
    if progress == [] then -1
    else if progress[0].date == key then 0
    else
      var r := FindIndex(progress[1..], key);
      if r == -1 then -1 else r + 1
  }

  /** `getCompletedExercises`: the names of the first record of day `key`, or none. */
  function CompletedOn(progress: seq<ProgressEntry>, key: int): (names: seq<string>)
    ensures (forall j :: 0 <= j < |progress| ==> progress[j].date != key) ==> names == []
    ensures forall i :: (0 <= i < |progress| && progress[i].date == key &&
      (forall j :: 0 <= j < i ==> progress[j].date != key)) ==> names == progress[i].completedExercises
  {
    var i := FindIndex(progress, key);
    if i >= 0 then progress[i].completedExercises else []
  }

  /** `names.filter(n => n !== name)`: every occurrence of `name` removed, the rest kept in order. */
  function RemoveAll(names: seq<string>, name: string): (r: seq<string>)
    ensures multiset(r) == multiset(names)[name := 0]
    ensures name !in r
  {
    var r := Without(names, name);
    WithoutContents(names, name);
    r
  }

  /** The filter itself, name by name from the front. */
  function Without(names: seq<string>, name: string): seq<string>
  {
    if names == [] then [] else (if names[0] == name then [] else [names[0]]) + Without(names[1..], name)
  }

  lemma {:induction false} WithoutContents(names: seq<string>, name: string)
    ensures multiset(Without(names, name)) == multiset(names)[name := 0]
    ensures name !in Without(names, name)
  {
    if names != [] {
      assert names == [names[0]] + names[1..];
      WithoutContents(names[1..], name);
    }
  }

  lemma {:induction false} WithoutAppend(a: seq<string>, b: seq<string>, name: string)
    ensures Without(a + b, name) == Without(a, name) + Without(b, name)
  {
    if a == [] {
      assert a + b == b;
    } else {
      assert (a + b)[1..] == a[1..] + b;
      WithoutAppend(a[1..], b, name);
    }
  }

  /** `filter` works name by name, so the names that stay keep their order. */
  lemma RemoveAllAppend(a: seq<string>, b: seq<string>, name: string)
    ensures RemoveAll(a + b, name) == RemoveAll(a, name) + RemoveAll(b, name)
  {
    WithoutAppend(a, b, name);
  }

  /** The new `completedExercises` of a record that is toggled for `name`. */
  function ToggledNames(names: seq<string>, name: string): seq<string>
  {
    if name in names then RemoveAll(names, name) else names + [name]
  }

  /** The state update of `toggleExerciseCompletion` for day `key` with weekday `dayType`. */
  function Toggled(progress: seq<ProgressEntry>, key: int, dayType: int, name: string): seq<ProgressEntry>
  {
    var i := FindIndex(progress, key);
    if i >= 0 then
      progress[i := progress[i].(completedExercises := ToggledNames(progress[i].completedExercises, name))]
    else
      progress + [ProgressEntry(key, dayType, [name])]
  }

  /** The state update of `addExerciseToWorkout`: toggle only if not yet completed. */
  function Ensured(progress: seq<ProgressEntry>, key: int, dayType: int, name: string): seq<ProgressEntry>
  {
    if name in CompletedOn(progress, key) then progress else Toggled(progress, key, dayType, name)
  }

  /** No two records share a day. */
  ghost predicate UniqueDates(progress: seq<ProgressEntry>)
  {
    forall i, j :: 0 <= i < j < |progress| ==> progress[i].date != progress[j].date
  }

  ghost predicate NoDuplicates(names: seq<string>)
  {
    forall i, j :: 0 <= i < j < |names| ==> names[i] != names[j]
  }

  /** The store's invariant: one record per day, and no name twice in a record. */
  ghost predicate WellFormed(progress: seq<ProgressEntry>)
  {
    UniqueDates(progress) &&
    forall i :: 0 <= i < |progress| ==> NoDuplicates(progress[i].completedExercises)
  }

  /** A toggle on a day that has a record rewrites that record only, in place, keeping its date and
      weekday; a toggle on a day without one appends a new record and changes nothing else.
      Records are never removed or moved. */
  lemma ToggleIsLocal(progress: seq<ProgressEntry>, key: int, dayType: int, name: string)
    ensures var r := Toggled(progress, key, dayType, name);
      var i := FindIndex(progress, key);
      && |r| == (if i >= 0 then |progress| else |progress| + 1)
      && (forall j :: 0 <= j < |progress| && j != i ==> r[j] == progress[j])
      && (forall j :: 0 <= j < |progress| ==> r[j].date == progress[j].date && r[j].dayType == progress[j].dayType)
      && (i == -1 ==> r[|progress|] == ProgressEntry(key, dayType, [name]))
  {
  }

  /** On an existing record, a toggle drops every copy of a completed name, or appends a missing
      name once; the other names keep their multiplicities. */
  lemma ToggleExistingNames(progress: seq<ProgressEntry>, key: int, dayType: int, name: string)
    requires FindIndex(progress, key) >= 0
    ensures var i := FindIndex(progress, key);
      var before := progress[i].completedExercises;
      var after := Toggled(progress, key, dayType, name)[i].completedExercises;
      && (name in before ==> multiset(after) == multiset(before)[name := 0])
      && (name !in before ==> after == before + [name])
  {
  }

  /** Looking a day up after a toggle: the toggled name has flipped, other names and other days
      read as before. */
  lemma {:induction false} ToggleLookup(progress: seq<ProgressEntry>, key: int, dayType: int, name: string, other: int)
    ensures var r := Toggled(progress, key, dayType, name);
      && (name in CompletedOn(r, key) <==> name !in CompletedOn(progress, key))
      && (forall x :: x != name ==> (x in CompletedOn(r, key) <==> x in CompletedOn(progress, key)))
      && (other != key ==> CompletedOn(r, other) == CompletedOn(progress, other))
  {
    var r := Toggled(progress, key, dayType, name);
    var i := FindIndex(progress, key);
    if i >= 0 {
      assert FindIndex(r, key) == i by { FindIndexSameDates(progress, r, key); }
      assert FindIndex(r, other) == FindIndex(progress, other) by { FindIndexSameDates(progress, r, other); }
      var before := progress[i].completedExercises;
      if name in before {
        assert forall x :: x in RemoveAll(before, name) <==> x in multiset(before)[name := 0];
      }
    } else {
      FindIndexAppend(progress, ProgressEntry(key, dayType, [name]), key);
      FindIndexAppend(progress, ProgressEntry(key, dayType, [name]), other);
    }
  }

  lemma {:induction false} FindIndexSameDates(a: seq<ProgressEntry>, b: seq<ProgressEntry>, key: int)
    requires |a| == |b| && forall j :: 0 <= j < |a| ==> a[j].date == b[j].date
    ensures FindIndex(a, key) == FindIndex(b, key)
  {
    if a != [] {
      FindIndexSameDates(a[1..], b[1..], key);
    }
  }

  lemma {:induction false} FindIndexAppend(a: seq<ProgressEntry>, x: ProgressEntry, key: int)
    ensures FindIndex(a + [x], key) == (if FindIndex(a, key) >= 0 then FindIndex(a, key)
      else if x.date == key then |a| else -1)
  {
    if a != [] {
      assert (a + [x])[1..] == a[1..] + [x];
      FindIndexAppend(a[1..], x, key);
    }
  }

  /** Toggling keeps the invariant: a record is created only when the day has none, and a name
      is appended only when it is missing. */
  lemma ToggleWellFormed(progress: seq<ProgressEntry>, key: int, dayType: int, name: string)
    requires WellFormed(progress)
    ensures WellFormed(Toggled(progress, key, dayType, name))
  {
    var r := Toggled(progress, key, dayType, name);
    var i := FindIndex(progress, key);
    if i >= 0 {
      var before := progress[i].completedExercises;
      var after := r[i].completedExercises;
      if name in before {
        RemoveAllNoDuplicates(before, name);
      } else {
        forall a, b | 0 <= a < b < |after| ensures after[a] != after[b] {
          if b == |before| { assert after[b] == name && after[a] == before[a]; }
        }
      }
    }
  }

  lemma {:induction false} RemoveAllNoDuplicates(names: seq<string>, name: string)
    requires NoDuplicates(names)
    ensures NoDuplicates(RemoveAll(names, name))
  {
    if names != [] {
      RemoveAllNoDuplicates(names[1..], name);
      var rest := RemoveAll(names[1..], name);
      assert names[0] !in names[1..];
      assert multiset(names[1..])[names[0]] == 0;
      assert multiset(rest)[names[0]] == 0;
    }
  }

  /** Two toggles of the same name on the same day give back that name's membership; a record the
      first toggle created survives the second, with no names left in it. */
  lemma ToggleTwice(progress: seq<ProgressEntry>, key: int, dayType: int, name: string)
    ensures var r := Toggled(Toggled(progress, key, dayType, name), key, dayType, name);
      && (name in CompletedOn(r, key) <==> name in CompletedOn(progress, key))
      && (FindIndex(progress, key) == -1 ==> r == progress + [ProgressEntry(key, dayType, [])])
  {
    ToggleLookup(progress, key, dayType, name, key);
    ToggleLookup(Toggled(progress, key, dayType, name), key, dayType, name, key);
    if FindIndex(progress, key) == -1 {
      ToggleTwiceCreated(progress, key, dayType, name);
    }
  }

  lemma ToggleTwiceCreated(progress: seq<ProgressEntry>, key: int, dayType: int, name: string)
    requires FindIndex(progress, key) == -1
    ensures Toggled(Toggled(progress, key, dayType, name), key, dayType, name) ==
      progress + [ProgressEntry(key, dayType, [])]
  {
    var once := progress + [ProgressEntry(key, dayType, [name])];
    FindIndexAppend(progress, ProgressEntry(key, dayType, [name]), key);
    assert FindIndex(once, key) == |progress|;
    assert Without([name], name) == [] by { assert [name][1..] == []; }
    assert RemoveAll([name], name) == [];
    assert ToggledNames([name], name) == [];
  }

  /** After `addExerciseToWorkout` the name is completed on that day; nothing changes if it already
      was, and nothing that was completed stops being completed. Calling it again changes nothing. */
  lemma EnsuredCompletes(progress: seq<ProgressEntry>, key: int, dayType: int, name: string)
    ensures var r := Ensured(progress, key, dayType, name);
      && name in CompletedOn(r, key)
      && (name in CompletedOn(progress, key) ==> r == progress)
      && (forall x :: x in CompletedOn(progress, key) ==> x in CompletedOn(r, key))
      && Ensured(r, key, dayType, name) == r
  {
    ToggleLookup(progress, key, dayType, name, key);
  }

  /** The provider's state. */
  class WorkoutStore {
    var progress: seq<ProgressEntry>

    /** The list read back from storage, taken as it is. */
    constructor (saved: seq<ProgressEntry>)
      ensures progress == saved
    {
      progress := saved;
    }

    function GetCompletedExercises(date: int): (names: seq<string>)
      reads this
      ensures names == CompletedOn(progress, DayIndex(date))
    {
      CompletedOn(progress, DayIndex(date))
    }

    /** `includes`: exact, case-sensitive membership. */
    function IsExerciseCompleted(date: int, name: string): (b: bool)
      reads this
      ensures b <==> exists k :: 0 <= k < |GetCompletedExercises(date)| && GetCompletedExercises(date)[k] == name
    {
      name in GetCompletedExercises(date)
    }

    method ToggleExerciseCompletion(date: int, name: string)
      modifies this
      ensures progress == Toggled(old(progress), DayIndex(date), Weekday(date), name)
      ensures WellFormed(old(progress)) ==> WellFormed(progress)
    {
      ToggleWellFormedIfValid(progress, DayIndex(date), Weekday(date), name);
      var key := DayIndex(date);
      var dayType := Weekday(date);
      var index := FindIndex(progress, key);
      if index >= 0 {
        var entry := progress[index];
        var isCompleted := name in entry.completedExercises;
        var names := if isCompleted then RemoveAll(entry.completedExercises, name)
          else entry.completedExercises + [name];
        progress := progress[index := entry.(completedExercises := names)];
      } else {
        progress := progress + [ProgressEntry(key, dayType, [name])];
      }
    }

    /** `addExerciseToWorkout(name, date)`; the default `date = new Date()` is the caller's clock. */
    method AddExerciseToWorkout(name: string, date: int)
      modifies this
      ensures progress == Ensured(old(progress), DayIndex(date), Weekday(date), name)
      ensures name in GetCompletedExercises(date)
      ensures WellFormed(old(progress)) ==> WellFormed(progress)
    {
      EnsuredCompletes(progress, DayIndex(date), Weekday(date), name);
      if !IsExerciseCompleted(date, name) {
        ToggleExerciseCompletion(date, name);
      }
    }
  }

  lemma ToggleWellFormedIfValid(progress: seq<ProgressEntry>, key: int, dayType: int, name: string)
    ensures WellFormed(progress) ==> WellFormed(Toggled(progress, key, dayType, name))
  {
    if WellFormed(progress) {
      ToggleWellFormed(progress, key, dayType, name);
    }
  }
}
