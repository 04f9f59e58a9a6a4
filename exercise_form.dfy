/** The add-exercise form (src/components/exercise/ExerciseForm.tsx): three text fields and the
    submit handler that checks two of them, hands a new entry to the store and clears those two. */
module ExerciseForm {
  import opened Types
  import opened JsStrings

  /** The object `handleSubmit` passes to `addExercise`; `count` is `None` where `parseInt` gives
      `NaN`, and `timestamp` is the clock reading at the submit. */
  datatype Submission = Submission(name: string, count: Option<int>, timestamp: int, category: Option<string>)

  /** The guard `!exerciseName.trim() || !exerciseCount.trim()` lets the submit through. */
  predicate Accepts(name: string, countText: string)
  {
    Trim(name) != [] && Trim(countText) != []
  }

  /** The argument of `addExercise`: the name as typed, `parseInt(exerciseCount, 10)`, and
      `exerciseCategory || undefined`. */
  function SubmissionOf(name: string, countText: string, category: string, now: int): Submission
  {
    Submission(name, ParseInt(countText), now, if category == [] then None else Some(category))
  }

  /** The text is nothing but white space (or empty). */
  predicate Blank(s: string)
  {
    forall k :: 0 <= k < |s| ==> IsSpace(s[k])
  }

  class Form {
    var name: string
    var countText: string
    var category: string

    /** The three `useState('')` fields. */
    constructor ()
      ensures name == [] && countText == [] && category == []
    {
      name, countText, category := [], [], [];
    }

    /** `handleSubmit` with the clock reading `now`. The result is what goes to `addExercise`, or
        `None` when the guard returns early. */
    method HandleSubmit(now: int) returns (sent: Option<Submission>)
      modifies this
      ensures !Accepts(old(name), old(countText)) ==>
        sent == None && name == old(name) && countText == old(countText) && category == old(category)
      ensures Accepts(old(name), old(countText)) ==>
        && sent == Some(SubmissionOf(old(name), old(countText), old(category), now))
        && name == [] && countText == [] && category == old(category)
    {
      if Trim(name) == [] || Trim(countText) == [] {
        return None;
      }
      sent := Some(SubmissionOf(name, countText, category, now));
      name := [];
      countText := [];
    }
  }

  /** The guard rejects exactly the forms whose name or count is blank. */
  lemma AcceptsUnlessBlank(name: string, countText: string)
    ensures Accepts(name, countText) <==> !Blank(name) && !Blank(countText)
  {
    TrimIsSlice(name);
    TrimIsSlice(countText);
  }

  /** Right after a successful submit both checked fields are empty, so submitting again sends
      nothing. */
  lemma ClearedFormRejects(countText: string, name: string)
    ensures !Accepts([], countText) && !Accepts(name, [])
  {
    AcceptsUnlessBlank([], countText);
    AcceptsUnlessBlank(name, []);
  }

  /** Text that starts with a visible character is not blank. */
  lemma VisibleStart(s: string)
    requires s != [] && !IsSpace(s[0])
    ensures !Blank(s)
  {
  }

  /** The name goes to the store as typed: spaces around it pass the guard and are kept. */
  lemma NameNotTrimmed(word: string, countText: string, category: string, now: int)
    requires word != [] && !IsSpace(word[0]) && countText != [] && !IsSpace(countText[0])
    ensures Accepts(" " + word + " ", countText)
    ensures SubmissionOf(" " + word + " ", countText, category, now).name == " " + word + " "
  {
    var padded := " " + word + " ";
    assert !Blank(padded) by {
      assert padded[1] == word[0];
    }
    VisibleStart(countText);
    AcceptsUnlessBlank(padded, countText);
  }

  /** A count that starts with a letter passes the guard and is sent as `NaN`. */
  lemma NaNCountSent(name: string, countText: string, category: string, now: int)
    requires name != [] && !IsSpace(name[0]) && countText != [] && IsAsciiLetter(countText[0])
    ensures Accepts(name, countText)
    ensures SubmissionOf(name, countText, category, now).count == None
  {
    VisibleStart(name);
    VisibleStart(countText);
    AcceptsUnlessBlank(name, countText);
    assert LeadingSpaces(countText) == 0;
  }

  /** A negative count passes the guard and is sent as it reads: nothing checks that it is positive. */
  lemma NegativeCountSent(name: string, n: nat, category: string, now: int)
    requires name != [] && !IsSpace(name[0])
    ensures Accepts(name, "-" + DecimalString(n))
    ensures SubmissionOf(name, "-" + DecimalString(n), category, now).count == Some(-(n as int))
  {
    var t := "-" + DecimalString(n);
    VisibleStart(name);
    VisibleStart(t);
    AcceptsUnlessBlank(name, t);
    ParseIntNegative(n, []);
    assert t + [] == t;
  }

  /** `parseInt` reads the leading digits and ignores what follows them. */
  lemma TrailingTextIgnored(name: string, n: nat, category: string, now: int)
    ensures SubmissionOf(name, DecimalString(n) + " reps", category, now).count == Some(n as int)
  {
    ParseIntDecimal(n, " reps");
  }

  /** No category selected sends none; any other selection is sent as it is. */
  lemma CategorySent(name: string, countText: string, category: string, now: int)
    ensures SubmissionOf(name, countText, category, now).category.None? <==> category == []
    ensures category != [] ==> SubmissionOf(name, countText, category, now).category == Some(category)
  {
  }
}
