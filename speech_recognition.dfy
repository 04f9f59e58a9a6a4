/** The transcript parse of `recognition.onresult` (src/hooks/useSpeechRecognition.tsx): the
    lower-cased transcript is matched against
      /(?:just did|did) (\d+) ([a-zA-Z\s]+?)(?= my name is| $)(?:.*?my name is ([a-zA-Z\s]+))?/i
    and a match becomes `{exercise, count, personName}`. The recogniser below follows the
    backtracking matcher of ECMAScript step by step: the leftmost start wins, `\d+` is greedy,
    the phrase is the shortest one the lookahead accepts, `.*?` is lazy and stops at a line
    terminator, and the name capture is greedy. */
module SpeechRecognition {
  import opened Types
  import opened JsStrings

  datatype VoiceCommand = VoiceCommand(exercise: string, count: nat, personName: string)

  /** The second alternative of the lookahead. `SpaceThenEnd` is ` $`, as the hook is written;
      `EndOnly` is `$`, the form that also accepts a command with nothing after the phrase. */
  datatype Lookahead = SpaceThenEnd | EndOnly

  /** Where a match puts its first two groups: the digits are `t[q..w - 1]`, the phrase is
      `t[w..e]`; the third group is looked for from `e` on. */
  datatype Groups = Groups(q: nat, w: nat, e: nat)

  /** `[a-zA-Z\s]` under the `i` flag without `u`: no non-ASCII letter folds onto an ASCII one. */
  predicate IsWordChar(c: char)
  {
    IsAsciiLetter(c) || IsSpace(c)
  }

  predicate AllWord(t: string, i: nat, j: nat)
  {
    j <= |t| && forall k :: i <= k < j ==> IsWordChar(t[k])
  }

  predicate NoBreak(t: string, i: nat, j: nat)
  {
    j <= |t| && forall k :: i <= k < j ==> !IsLineTerminator(t[k])
  }

  /** The lookahead `(?= my name is| $)` (or `|$`) holds at position `p`. */
  predicate EndsPhrase(t: string, p: nat, la: Lookahead)
  {
    || OccursAt(t, " my name is", p)
    || (match la
        case SpaceThenEnd => p + 1 == |t| && t[p] == ' '
        case EndOnly => p == |t|)
  }

  /** The lazy `([a-zA-Z\s]+?)` started at `q`, with candidate ends tried from `p` on. */
  function LazyEnd(t: string, q: nat, p: nat, la: Lookahead): (r: Option<nat>)
    requires q < p <= |t| && AllWord(t, q, p)
    decreases |t| - p
    ensures r.Some? ==> && p <= r.value <= |t| && AllWord(t, q, r.value) && EndsPhrase(t, r.value, la)
                        && forall e :: p <= e < r.value ==> !EndsPhrase(t, e, la)
    ensures r.None? ==> forall e :: p <= e <= |t| && AllWord(t, q, e) ==> !EndsPhrase(t, e, la)
  {
    if EndsPhrase(t, p, la) then Some(p)
    else if p < |t| && IsWordChar(t[p]) then LazyEnd(t, q, p + 1, la)
    else None
  }

  /** `my name is ` followed by at least one `[a-zA-Z\s]` starts at `k`. */
  predicate NameAt(t: string, k: nat)
  {
    OccursAt(t, "my name is ", k) && k + 11 < |t| && IsWordChar(t[k + 11])
  }

  /** The lazy `.*?` of the optional group, started at `i`: the first position where the name
      clause begins, before any line terminator. */
  function NameStart(t: string, i: nat): (r: Option<nat>)
    requires i <= |t|
    decreases |t| - i
    ensures r.Some? ==> && i <= r.value <= |t| && NameAt(t, r.value) && NoBreak(t, i, r.value)
                        && forall k :: i <= k < r.value ==> !NameAt(t, k)
    ensures r.None? ==> forall k :: i <= k <= |t| && NoBreak(t, i, k) ==> !NameAt(t, k)
  {
    if NameAt(t, i) then Some(i)
    else if i < |t| && !IsLineTerminator(t[i]) then NameStart(t, i + 1)
    else None
  }

  /** The greedy `([a-zA-Z\s]+)` of the name: the length of the longest run from `i`. */
  function WordRun(t: string, i: nat): (n: nat)
    requires i <= |t|
    decreases |t| - i
    ensures AllWord(t, i, i + n) && (i + n == |t| || !IsWordChar(t[i + n]))
  {
    if i < |t| && IsWordChar(t[i]) then 1 + WordRun(t, i + 1) else 0
  }

  /** `(?:just did|did) ` at `s`: where the digits start. The two alternatives cannot both
      begin at one position, so backtracking from the first to the second changes nothing. */
  function AfterVerb(t: string, s: nat): (r: Option<nat>)
    ensures r.Some? ==> s < r.value <= |t|
  {
    if OccursAt(t, "just did ", s) then Some(s + 9)
    else if OccursAt(t, "did ", s) then Some(s + 4)
    else None
  }

  /** `(\d+) ` from `q` and the first character of the phrase: where the phrase starts. `\d+`
      is greedy, and giving digits back cannot help since a space has to follow them. */
  function PhraseStart(t: string, q: nat): (r: Option<nat>)
    requires q <= |t|
    ensures r.Some? ==> && q + 1 < r.value < |t| && t[r.value - 1] == ' ' && IsWordChar(t[r.value])
                        && forall k :: q <= k < r.value - 1 ==> IsDigit(t[k])
  {
    var n := DigitsFrom(t, q);
    if n == 0 || q + n + 1 >= |t| || t[q + n] != ' ' || !IsWordChar(t[q + n + 1]) then None
    else Some(q + n + 1)
  }

  /** The greedy `\d+` from `q`: the length of the longest run of digits there. */
  function DigitsFrom(t: string, q: nat): (n: nat)
    requires q <= |t|
    decreases |t| - q
    ensures q + n <= |t| && (forall k :: q <= k < q + n ==> IsDigit(t[k]))
    ensures q + n == |t| || !IsDigit(t[q + n])
  {
    if q < |t| && IsDigit(t[q]) then 1 + DigitsFrom(t, q + 1) else 0
  }

  /** The groups delimit a run of digits, a space, and a run of letters and white space. */
  predicate WellPlaced(t: string, g: Groups)
  {
    && g.q + 1 < g.w <= g.e <= |t| && t[g.w - 1] == ' '
    && (forall k :: g.q <= k < g.w - 1 ==> IsDigit(t[k]))
    && AllWord(t, g.w, g.e)
  }

  /** The pattern anchored at start position `s`. */
  function MatchAt(t: string, s: nat, la: Lookahead): (r: Option<Groups>)
    ensures r.Some? ==> WellPlaced(t, r.value)
  {
    match AfterVerb(t, s)
    case None => None
    case Some(q) => MatchFrom(t, q, la)
  }

  /** The rest of the pattern once `(?:just did|did) ` has put the digits at `q`. */
  function MatchFrom(t: string, q: nat, la: Lookahead): (r: Option<Groups>)
    requires q <= |t|
    ensures r.Some? ==> WellPlaced(t, r.value) && r.value.q == q
  {
    match PhraseStart(t, q)
    case None => None
    case Some(w) =>
      match LazyEnd(t, w, w + 1, la)
      case None => None
      case Some(e) => Some(Groups(q, w, e))
  }

  /** The outcome of the pattern anchored at every start position `0..|t|`. */
  function Attempts(t: string, la: Lookahead): (ms: seq<Option<Groups>>)
    ensures |ms| == |t| + 1 && forall i :: 0 <= i <= |t| ==> ms[i] == MatchAt(t, i, la)
  {
    seq(|t| + 1, i requires 0 <= i <= |t| => MatchAt(t, i, la))
  }

  /** The first position from `i` on whose attempt succeeds, or `|ms|` when none does. */
  function FirstSuccess<T>(ms: seq<Option<T>>, i: nat): (r: nat)
    requires i <= |ms|
    decreases |ms| - i
    ensures i <= r <= |ms| && (r < |ms| ==> ms[r].Some?)
    ensures forall k :: i <= k < r ==> ms[k].None?
  {
    if i == |ms| || ms[i].Some? then i else FirstSuccess(ms, i + 1)
  }

  /** `String.prototype.match` without the `g` flag: the match at the leftmost start position. */
  function Search(t: string, la: Lookahead): (r: Option<Groups>)
    ensures r.Some? ==> WellPlaced(t, r.value)
  {
    var ms := Attempts(t, la);
    var i := FirstSuccess(ms, 0);
    if i < |ms| then ms[i] else None
  }

  /** The leftmost start with a match, or `|t| + 1` when no start position has one. */
  lemma SearchIsLeftmost(t: string, la: Lookahead) returns (i: nat)
    ensures i <= |t| + 1 && forall j :: 0 <= j < i && j <= |t| ==> MatchAt(t, j, la).None?
    ensures i <= |t| ==> MatchAt(t, i, la).Some? && Search(t, la) == MatchAt(t, i, la)
    ensures i == |t| + 1 <==> Search(t, la).None?
  {
    var ms := Attempts(t, la);
    i := FirstSuccess(ms, 0);
  }

  /** The third capture group for a phrase ending at `e`; `''` when the group does not take
      part, which the hook's `name ? name.trim() : ''` turns into `''` as well. */
  function NameCapture(t: string, e: nat): (r: string)
    requires e <= |t|
    ensures r != [] ==> NameStart(t, e).Some?
  {
    match NameStart(t, e)
    case None => ""
    case Some(k) => t[k + 11..k + 11 + WordRun(t, k + 11)]
  }

  /** `match[1]`, `match[2]` and `match[3]` of a match (`''` for a group that does not take part). */
  datatype Captures = Captures(digits: string, phrase: string, name: string)

  /** The captured text for the groups of a match; the first group is a run of digits. */
  function CapturesOf(t: string, g: Groups): (c: Captures)
    requires WellPlaced(t, g)
    ensures IsDigits(c.digits)
  {
    var ds := t[g.q..g.w - 1];
    assert forall k :: 0 <= k < |ds| ==> ds[k] == t[g.q + k];
    Captures(ds, t[g.w..g.e], NameCapture(t, g.e))
  }

  /** The callback's argument: the trimmed phrase, the count read from the digits and the
      trimmed name. */
  function Command(c: Captures): VoiceCommand
    requires IsDigits(c.digits)
  {
    VoiceCommand(Trim(c.phrase), DecimalValue(c.digits), Trim(c.name))
  }

  /** What `onResult` would receive for a transcript under lookahead `la`, or `None` when the
      callback is not called. */
  function Parse(transcript: string, la: Lookahead): Option<VoiceCommand>
  {
    var t := Lower(transcript);
    match Search(t, la)
    case None => None
    case Some(g) => Some(Command(CapturesOf(t, g)))
  }

  /** The hook as written, with the lookahead `(?= my name is| $)`. */
  function Recognize(transcript: string): Option<VoiceCommand>
  {
    Parse(transcript, SpaceThenEnd)
  }

  /** The hook with the lookahead `(?= my name is|$)`. */
  function RecognizeIntended(transcript: string): Option<VoiceCommand>
  {
    Parse(transcript, EndOnly)
  }

  /** A phrase or a name as the hook reports it: letters and white space only, trimmed. */
  predicate IsTrimmedWords(x: string)
  {
    && (forall k :: 0 <= k < |x| ==> IsWordChar(x[k]))
    && (x == [] || (!IsSpace(x[0]) && !IsSpace(x[|x| - 1])))
  }

  /** Trimming letters and white space gives trimmed letters and white space. */
  lemma TrimWords(x: string)
    requires forall k :: 0 <= k < |x| ==> IsWordChar(x[k])
    ensures IsTrimmedWords(Trim(x))
  {
    var r := Trim(x);
    var a := LeadingSpaces(x);
    forall k | 0 <= k < |r| ensures IsWordChar(r[k]) {
      assert r[k] == x[a + k];
    }
  }

  lemma SliceWords(t: string, i: nat, j: nat)
    requires i <= j && AllWord(t, i, j)
    ensures forall k :: 0 <= k < j - i ==> IsWordChar(t[i..j][k])
  {
    forall k | 0 <= k < j - i ensures IsWordChar(t[i..j][k]) {
      assert t[i..j][k] == t[i + k];
    }
  }

  lemma NameCaptureWords(t: string, e: nat)
    requires e <= |t|
    ensures forall k :: 0 <= k < |NameCapture(t, e)| ==> IsWordChar(NameCapture(t, e)[k])
  {
    if NameStart(t, e).Some? {
      var k := NameStart(t, e).value;
      SliceWords(t, k + 11, k + 11 + WordRun(t, k + 11));
    }
  }

  /** The exercise and the name the callback receives are trimmed letters and white space. */
  lemma CommandWords(t: string, g: Groups)
    requires WellPlaced(t, g)
    ensures IsTrimmedWords(Command(CapturesOf(t, g)).exercise)
    ensures IsTrimmedWords(Command(CapturesOf(t, g)).personName)
  {
    PhraseWords(t, g.w, g.e);
    NameWords(t, g.e);
  }

  lemma PhraseWords(t: string, w: nat, e: nat)
    requires w <= e && AllWord(t, w, e)
    ensures IsTrimmedWords(Trim(t[w..e]))
  {
    SliceWords(t, w, e);
    TrimWords(t[w..e]);
  }

  lemma NameWords(t: string, e: nat)
    requires e <= |t|
    ensures IsTrimmedWords(Trim(NameCapture(t, e)))
  {
    NameCaptureWords(t, e);
    TrimWords(NameCapture(t, e));
  }

  /** The count the callback receives is what `parseInt` reads from the digit group: never NaN. */
  lemma CommandCount(c: Captures)
    requires IsDigits(c.digits)
    ensures ParseInt(c.digits) == Some(Command(c).count as int)
  {
    ParseIntDigits(c.digits);
  }

  /** The groups of a match at `s` come from the three steps of the pattern; the phrase is the
      shortest run of letters and white space after which the lookahead holds. */
  lemma MatchSteps(t: string, s: nat, la: Lookahead) returns (g: Groups)
    requires MatchAt(t, s, la).Some?
    ensures MatchAt(t, s, la) == Some(g)
    ensures AfterVerb(t, s) == Some(g.q) && PhraseStart(t, g.q) == Some(g.w)
    ensures g.w < g.e && LazyEnd(t, g.w, g.w + 1, la) == Some(g.e)
    ensures EndsPhrase(t, g.e, la) && forall p :: g.w < p < g.e ==> !EndsPhrase(t, p, la)
  {
    g := MatchParts(t, s, la);
    var r := LazyEnd(t, g.w, g.w + 1, la);
    assert r == Some(g.e);
  }

  /** The groups of a match at `s` are the outcomes of its three steps. */
  lemma MatchParts(t: string, s: nat, la: Lookahead) returns (g: Groups)
    requires MatchAt(t, s, la).Some?
    ensures MatchAt(t, s, la) == Some(g) && AfterVerb(t, s) == Some(g.q)
    ensures PhraseStart(t, g.q) == Some(g.w) && g.w < |t| && AllWord(t, g.w, g.w + 1)
    ensures LazyEnd(t, g.w, g.w + 1, la) == Some(g.e)
  {
    var q := AfterVerb(t, s).value;
    assert MatchAt(t, s, la) == MatchFrom(t, q, la);
    g := MatchFromParts(t, q, la);
  }

  lemma MatchFromParts(t: string, q: nat, la: Lookahead) returns (g: Groups)
    requires q <= |t| && MatchFrom(t, q, la).Some?
    ensures MatchFrom(t, q, la) == Some(g) && g.q == q
    ensures PhraseStart(t, q) == Some(g.w) && g.w < |t| && AllWord(t, g.w, g.w + 1)
    ensures LazyEnd(t, g.w, g.w + 1, la) == Some(g.e)
  {
    var w := PhraseStart(t, q).value;
    assert AllWord(t, w, w + 1);
    var e := LazyEnd(t, w, w + 1, la).value;
    g := Groups(q, w, e);
  }

  /** Every result of the hook has trimmed letters and spaces for exercise and name, and a
      count `parseInt` reads from the digits of the match. */
  lemma RecognizedShape(transcript: string, la: Lookahead)
    requires Parse(transcript, la).Some?
    ensures Search(Lower(transcript), la).Some?
    ensures var c := Parse(transcript, la).value;
      IsTrimmedWords(c.exercise) && IsTrimmedWords(c.personName)
    ensures var t := Lower(transcript);
      ParseInt(CapturesOf(t, Search(t, la).value).digits) == Some(Parse(transcript, la).value.count as int)
  {
    var t := Lower(transcript);
    var g := Search(t, la).value;
    CommandWords(t, g);
    CommandCount(CapturesOf(t, g));
  }

  lemma JustDidHasDid(t: string, s: nat)
    requires OccursAt(t, "just did ", s)
    ensures OccursAt(t, "did ", s + 5)
  {
    forall k | 0 <= k < 4 ensures t[s + 5 + k] == "did "[k] {
      assert t[s + (5 + k)] == "just did "[5 + k];
    }
  }

  /** Every match starts with `did `, directly or inside `just did `, followed by a digit. */
  lemma MatchNeedsVerbAndDigit(t: string, s: nat, la: Lookahead) returns (i: nat)
    requires MatchAt(t, s, la).Some?
    ensures OccursAt(t, "did ", i) && i + 4 < |t| && IsDigit(t[i + 4])
  {
    var g := MatchSteps(t, s, la);
    assert IsDigit(t[g.q]);
    if OccursAt(t, "just did ", s) {
      JustDidHasDid(t, s);
      i := s + 5;
    } else {
      i := s;
    }
  }

  /** A transcript gives a result only if it contains `did ` followed by a digit. */
  lemma RecognizedNeedsVerbAndDigit(transcript: string, la: Lookahead)
    requires Parse(transcript, la).Some?
    ensures exists i :: OccursAt(Lower(transcript), "did ", i) && i + 4 < |transcript| && IsDigit(Lower(transcript)[i + 4])
  {
    var t := Lower(transcript);
    var s := SearchIsLeftmost(t, la);
    var i := MatchNeedsVerbAndDigit(t, s, la);
  }

  /** The lookahead as written holds either before ` my name is` or before a final space. */
  lemma MatchNeedsNameOrTrailingSpace(t: string, s: nat) returns (e: nat)
    requires MatchAt(t, s, SpaceThenEnd).Some?
    ensures OccursAt(t, " my name is", e) || (e + 1 == |t| && t[e] == ' ')
  {
    var g := MatchSteps(t, s, SpaceThenEnd);
    e := g.e;
  }

  /** Without ` my name is` in it, a transcript gives a result only if it ends in a space. */
  lemma RecognizedNeedsNameOrTrailingSpace(transcript: string)
    requires Recognize(transcript).Some?
    ensures Includes(Lower(transcript), " my name is") || (transcript != [] && transcript[|transcript| - 1] == ' ')
  {
    var t := Lower(transcript);
    var s := SearchIsLeftmost(t, SpaceThenEnd);
    var e := MatchNeedsNameOrTrailingSpace(t, s);
    if !OccursAt(t, " my name is", e) {
      assert LowerChar(transcript[e]) == ' ';
    }
  }

  /** A non-empty name comes only from a `my name is ` clause after the phrase, on the same line. */
  lemma NameNeedsClause(t: string, e: nat)
    requires e <= |t| && Trim(NameCapture(t, e)) != []
    ensures exists k :: e <= k <= |t| && NameAt(t, k) && NoBreak(t, e, k)
  {
    var k := NameStart(t, e).value;
  }

  /** The lazy phrase group ends at `e` when `e` is the first candidate end the lookahead accepts. */
  lemma LazyEndIs(t: string, q: nat, p: nat, la: Lookahead, e: nat)
    requires q < p <= e <= |t| && AllWord(t, q, e) && EndsPhrase(t, e, la)
    requires forall k :: p <= k < e ==> !EndsPhrase(t, k, la)
    ensures LazyEnd(t, q, p, la) == Some(e)
  {
  }

  /** The lazy `.*?` stops at `k` when the name clause first begins there, on the same line. */
  lemma NameStartIs(t: string, i: nat, k: nat)
    requires i <= k <= |t| && NameAt(t, k) && NoBreak(t, i, k)
    requires forall j :: i <= j < k ==> !NameAt(t, j)
    ensures NameStart(t, i) == Some(k)
  {
  }

  /** A match at the first position is the match `String.prototype.match` returns. */
  lemma SearchAtStart(t: string, la: Lookahead)
    requires MatchAt(t, 0, la).Some?
    ensures Search(t, la) == MatchAt(t, 0, la)
  {
    var i := SearchIsLeftmost(t, la);
  }

  /** A single word of lower-case letters, as a speech engine transcribes an exercise or a name. */
  predicate IsLowerWord(w: string)
  {
    w != [] && forall k :: 0 <= k < |w| ==> 'a' <= w[k] <= 'z'
  }

  predicate IsDigits(ds: string)
  {
    ds != [] && forall k :: 0 <= k < |ds| ==> IsDigit(ds[k])
  }

  lemma NoUpperConcat(a: string, b: string)
    requires NoUpper(a) && NoUpper(b)
    ensures NoUpper(a + b)
  {
    forall k | 0 <= k < |a + b| ensures !('A' <= (a + b)[k] <= 'Z') {
      if k >= |a| {
        assert (a + b)[k] == b[k - |a|];
      }
    }
  }

  /** The match of the pattern at position 0 is what `Parse` turns into a command. */
  lemma ParseAtStart(x: string, la: Lookahead, g: Groups)
    requires NoUpper(x) && MatchAt(x, 0, la) == Some(g)
    ensures Parse(x, la) == Some(Command(CapturesOf(x, g)))
  {
    LowerUnchanged(x);
    SearchAtStart(x, la);
  }

  /** The command for the digits `ds`, a word `w` and a name `name` (possibly absent). */
  lemma CommandIs(ds: string, w: string, name: string)
    requires IsDigits(ds) && IsLowerWord(w) && (name == [] || IsLowerWord(name))
    ensures Command(Captures(ds, w, name)) == VoiceCommand(w, DecimalValue(ds), name)
  {
    LowerWordTrimmed(w);
    if name != [] {
      LowerWordTrimmed(name);
    } else {
      assert Trim(name) == [];
    }
  }

  lemma LowerWordTrimmed(w: string)
    requires IsLowerWord(w)
    ensures Trim(w) == w
  {
    TrimUnpadded(w);
  }

  /** `(\d+) ` at `q` followed by a letter: the phrase starts after the digits and the space. */
  lemma DigitsThenWord(x: string, q: nat, ds: string)
    requires IsDigits(ds) && q + |ds| + 1 < |x| && x[q..q + |ds|] == ds && x[q + |ds|] == ' '
    requires 'a' <= x[q + |ds| + 1] <= 'z'
    ensures PhraseStart(x, q) == Some(q + |ds| + 1)
  {
  }

  /** Letters from `w` to `e`, where the lookahead first holds: the phrase group is `x[w..e]`. */
  lemma LettersThenEnd(x: string, w: nat, e: nat, la: Lookahead)
    requires w < e <= |x| && EndsPhrase(x, e, la)
    requires forall k :: w <= k < e ==> 'a' <= x[k] <= 'z'
    ensures LazyEnd(x, w, w + 1, la) == Some(e)
  {
    forall k | w + 1 <= k < e ensures !EndsPhrase(x, k, la) {
      assert x[k + 0] != " my name is"[0];
    }
    LazyEndIs(x, w, w + 1, la, e);
  }

  /** The command spoken without a name: `did <count> <exercise>`. */
  function BareCommand(n: nat, w: string): string
  {
    "did " + DecimalString(n) + " " + w
  }

  /** `x` is `did `, the digits `ds`, a space and the word `w`. */
  predicate BareShape(x: string, ds: string, w: string)
  {
    && IsDigits(ds) && IsLowerWord(w) && |x| == 5 + |ds| + |w|
    && x[..4] == "did " && x[4..4 + |ds|] == ds && x[4 + |ds|] == ' ' && x[5 + |ds|..|x|] == w
  }

  lemma BareLayout(n: nat, w: string)
    requires IsLowerWord(w)
    ensures BareShape(BareCommand(n, w), DecimalString(n), w)
  {
    var ds := DecimalString(n);
    var x := BareCommand(n, w);
    assert x == "did " + ds + (" " + w);
  }

  lemma BareNoUpper(n: nat, w: string)
    requires IsLowerWord(w)
    ensures NoUpper(BareCommand(n, w))
  {
    var ds := DecimalString(n);
    assert NoUpper("did ");
    assert NoUpper(ds);
    assert NoUpper(" " + w);
    NoUpperConcat("did ", ds);
    NoUpperConcat("did " + ds, " " + w);
    assert BareCommand(n, w) == "did " + ds + (" " + w);
  }

  /** ` my name is` occurs nowhere in a bare command. */
  lemma BareHasNoName(x: string, ds: string, w: string)
    requires BareShape(x, ds, w)
    ensures forall e :: !OccursAt(x, " my name is", e)
  {
    forall e | 0 <= e && e + 11 <= |x| ensures !OccursAt(x, " my name is", e) {
      NotNameClauseAt(x, ds, w, e);
    }
  }

  lemma NotNameClauseAt(x: string, ds: string, w: string, e: nat)
    requires BareShape(x, ds, w) && e + 11 <= |x|
    ensures !OccursAt(x, " my name is", e)
  {
    var d := |ds|;
    if e < 3 {
      assert x[e] == x[..4][e];
      assert x[e + 0] != " my name is"[0];
    } else if e == 3 {
      assert x[4] == ds[0];
      assert x[e + 1] != " my name is"[1];
    } else if e < 4 + d {
      assert x[e] == ds[e - 4];
      assert x[e + 0] != " my name is"[0];
    } else if e == 4 + d {
      assert x[e + 3] == w[2];
      assert x[e + 3] != " my name is"[3];
    } else {
      assert x[e] == w[e - 5 - d];
      assert x[e + 0] != " my name is"[0];
    }
  }

  /** As written, the hook ignores `did <count> <exercise>` said on its own: the lookahead
      ` $` needs a space after the phrase, which a transcript does not end with. */
  lemma AsWrittenMissesBareCommand(n: nat, w: string)
    requires IsLowerWord(w)
    ensures Recognize(BareCommand(n, w)) == None
  {
    var x := BareCommand(n, w);
    BareLayout(n, w);
    BareNoUpper(n, w);
    BareHasNoName(x, DecimalString(n), w);
    LowerUnchanged(x);
    assert x[|x| - 1] == w[|w| - 1];
    if Recognize(x).Some? {
      RecognizedNeedsNameOrTrailingSpace(x);
    }
  }

  /** `did ` and not `just did ` at position 0: the digits start at 4. */
  lemma DidAtStart(x: string)
    requires |x| >= 4 && x[..4] == "did "
    ensures AfterVerb(x, 0) == Some(4)
  {
    assert OccursAt(x, "did ", 0) by {
      forall k | 0 <= k < 4 ensures x[k] == "did "[k] {
        assert x[k] == x[..4][k];
      }
    }
    assert !OccursAt(x, "just did ", 0) by { assert x[0] == x[..4][0]; assert x[0 + 0] != "just did "[0]; }
  }

  lemma BareMatch(x: string, ds: string, w: string)
    requires BareShape(x, ds, w)
    ensures MatchAt(x, 0, EndOnly) == Some(Groups(4, 5 + |ds|, |x|))
  {
    var d := |ds|;
    DidAtStart(x);
    assert x[5 + d] == w[0];
    DigitsThenWord(x, 4, ds);
    forall k | 5 + d <= k < |x| ensures 'a' <= x[k] <= 'z' {
      assert x[k] == w[k - 5 - d];
    }
    LettersThenEnd(x, 5 + d, |x|, EndOnly);
  }

  /** No name follows a phrase that runs to the end of the transcript. */
  lemma NoNameAtEnd(x: string)
    ensures NameCapture(x, |x|) == ""
  {
    assert !NameAt(x, |x|);
  }

  /** With the lookahead `$` the same words give the command back, with an empty name. */
  lemma IntendedRecognizesBareCommand(n: nat, w: string)
    requires IsLowerWord(w)
    ensures RecognizeIntended(BareCommand(n, w)) == Some(VoiceCommand(w, n, ""))
  {
    var x := BareCommand(n, w);
    var ds := DecimalString(n);
    var g := Groups(4, 5 + |ds|, |x|);
    BareLayout(n, w);
    BareNoUpper(n, w);
    BareMatch(x, ds, w);
    ParseAtStart(x, EndOnly, g);
    NoNameAtEnd(x);
    assert CapturesOf(x, g) == Captures(ds, w, "") by { assert g.w - 1 == 4 + |ds|; }
    CommandIs(ds, w, "");
    DecimalRoundTrip(n);
  }

  /** The command spoken with a name: `just did <count> <exercise> my name is <name>`. */
  function NamedCommand(n: nat, w: string, name: string): string
  {
    "just did " + DecimalString(n) + " " + w + " my name is " + name
  }

  /** `x` is `just did `, the digits `ds`, a space, the word `w`, ` my name is ` and `name`;
      the phrase ends at `e`. */
  predicate NamedShape(x: string, ds: string, w: string, name: string, e: nat)
  {
    && IsDigits(ds) && IsLowerWord(w) && IsLowerWord(name)
    && e == 10 + |ds| + |w| && |x| == e + 12 + |name|
    && x[..9] == "just did " && x[9..9 + |ds|] == ds && x[9 + |ds|] == ' '
    && x[10 + |ds|..e] == w && x[e..e + 12] == " my name is " && x[e + 12..] == name
  }

  lemma NamedLayout(n: nat, w: string, name: string)
    requires IsLowerWord(w) && IsLowerWord(name)
    ensures NamedShape(NamedCommand(n, w, name), DecimalString(n), w, name, 10 + |DecimalString(n)| + |w|)
  {
    var ds := DecimalString(n);
    var x := NamedCommand(n, w, name);
    assert x == "just did " + ds + (" " + w) + (" my name is " + name);
  }

  lemma NamedNoUpper(n: nat, w: string, name: string)
    requires IsLowerWord(w) && IsLowerWord(name)
    ensures NoUpper(NamedCommand(n, w, name))
  {
    var ds := DecimalString(n);
    assert NoUpper("just did ");
    assert NoUpper(ds);
    assert NoUpper(" " + w);
    assert NoUpper(" my name is " + name);
    NoUpperConcat("just did ", ds);
    NoUpperConcat("just did " + ds, " " + w);
    NoUpperConcat("just did " + ds + (" " + w), " my name is " + name);
    assert NamedCommand(n, w, name) == "just did " + ds + (" " + w) + (" my name is " + name);
  }

  lemma JustDidAtStart(x: string)
    requires |x| >= 9 && x[..9] == "just did "
    ensures AfterVerb(x, 0) == Some(9)
  {
    assert OccursAt(x, "just did ", 0) by {
      forall k | 0 <= k < 9 ensures x[k] == "just did "[k] {
        assert x[k] == x[..9][k];
      }
    }
  }

  /** ` my name is ` at `e`: the lookahead holds at `e`, the name clause begins at `e + 1`
      and not at `e`. */
  lemma ClauseAt(x: string, e: nat)
    requires e + 12 <= |x| && x[e..e + 12] == " my name is "
    ensures OccursAt(x, " my name is", e) && OccursAt(x, "my name is ", e + 1)
    ensures !OccursAt(x, "my name is ", e)
  {
    forall k | 0 <= k < 12 ensures x[e + k] == " my name is "[k] {
      assert x[e + k] == x[e..e + 12][k];
    }
    assert x[e + 0] != "my name is "[0];
  }

  lemma NamedMatch(x: string, ds: string, w: string, name: string, e: nat, la: Lookahead)
    requires NamedShape(x, ds, w, name, e)
    ensures MatchAt(x, 0, la) == Some(Groups(9, 10 + |ds|, e))
  {
    var d := |ds|;
    JustDidAtStart(x);
    assert x[10 + d] == w[0];
    DigitsThenWord(x, 9, ds);
    forall k | 10 + d <= k < e ensures 'a' <= x[k] <= 'z' {
      assert x[k] == w[k - 10 - d];
    }
    ClauseAt(x, e);
    LettersThenEnd(x, 10 + d, e, la);
  }

  /** The name clause right after the phrase: the third group is the whole name. */
  lemma NamedCapture(x: string, e: nat, name: string)
    requires e + 12 <= |x| && x[e..e + 12] == " my name is " && x[e + 12..] == name && IsLowerWord(name)
    ensures NameCapture(x, e) == name
  {
    ClauseAt(x, e);
    assert x[e + 12] == name[0];
    NameStartIs(x, e, e + 1);
  }

  /** Said with a name, a command comes back from the hook as written, and from the variant. */
  lemma RecognizesNamedCommand(n: nat, w: string, name: string, la: Lookahead)
    requires IsLowerWord(w) && IsLowerWord(name)
    ensures Parse(NamedCommand(n, w, name), la) == Some(VoiceCommand(w, n, name))
  {
    var x := NamedCommand(n, w, name);
    var ds := DecimalString(n);
    var e := 10 + |ds| + |w|;
    var g := Groups(9, 10 + |ds|, e);
    NamedLayout(n, w, name);
    NamedNoUpper(n, w, name);
    NamedMatch(x, ds, w, name, e, la);
    ParseAtStart(x, la, g);
    NamedCapture(x, e, name);
    assert CapturesOf(x, g) == Captures(ds, w, name);
    CommandIs(ds, w, name);
    DecimalRoundTrip(n);
  }

  /** The hook's own example: `just did 10 pushups my name is john`. */
  lemma PushupsExample()
    ensures Recognize("just did 10 pushups my name is john") == Some(VoiceCommand("pushups", 10, "john"))
  {
    PushupsSpelled();
    RecognizesNamedCommand(10, "pushups", "john", SpaceThenEnd);
  }

  lemma PushupsSpelled()
    ensures NamedCommand(10, "pushups", "john") == "just did 10 pushups my name is john"
  {
    assert DecimalString(10) == "10";
    assert "just did " + "10" == "just did 10";
    assert "just did 10" + " " == "just did 10 ";
    assert "just did 10 " + "pushups" == "just did 10 pushups";
    assert "just did 10 pushups" + " my name is " == "just did 10 pushups my name is ";
    assert "just did 10 pushups my name is " + "john" == "just did 10 pushups my name is john";
  }

  /** `did 5 squats` gives no result as written and `squats`, 5, `''` with the lookahead `$`. */
  lemma SquatsExample()
    ensures Recognize("did 5 squats") == None
    ensures RecognizeIntended("did 5 squats") == Some(VoiceCommand("squats", 5, ""))
  {
    assert DecimalString(5) == "5";
    assert BareCommand(5, "squats") == "did 5 squats";
    AsWrittenMissesBareCommand(5, "squats");
    IntendedRecognizesBareCommand(5, "squats");
  }

  /** A transcript without a digit never reaches the callback, whichever lookahead is used. */
  lemma NoDigitNoResult(transcript: string, la: Lookahead)
    requires forall k :: 0 <= k < |transcript| ==> !IsDigit(transcript[k])
    ensures Parse(transcript, la) == None
  {
    var t := Lower(transcript);
    assert forall k :: 0 <= k < |t| ==> !IsDigit(t[k]);
    if Parse(transcript, la).Some? {
      RecognizedNeedsVerbAndDigit(transcript, la);
    }
  }

  lemma DigitFree(x: string)
    requires x == "did ten pushups" || x == "hello world"
    ensures forall k :: 0 <= k < |x| ==> !IsDigit(x[k])
  {
  }

  /** `did ten pushups` is ignored: no callback and no error. */
  lemma SpelledCountIgnored()
    ensures Recognize("did ten pushups") == None
  {
    DigitFree("did ten pushups");
    NoDigitNoResult("did ten pushups", SpaceThenEnd);
  }

  /** `hello world` is ignored as well. */
  lemma UnrelatedSpeechIgnored()
    ensures Recognize("hello world") == None
  {
    DigitFree("hello world");
    NoDigitNoResult("hello world", SpaceThenEnd);
  }
}
