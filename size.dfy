/** Company size estimation: the five fixed buckets, the employee-count
    cut-offs (`getSizeRange`), the snippet heuristic
    (`estimateCompanySize`) and the separate review-count rule that
    discovery applies to places results. */
module Size {
  import opened Text
  import opened Scan

  /** The five size labels `1-25`, `26-50`, `51-100`, `100-500`, `500+`. */
  datatype SizeBucket = Upto25 | From26To50 | From51To100 | From100To500 | Over500

  function Label(b: SizeBucket): (s: string)
    ensures s in ["1-25", "26-50", "51-100", "100-500", "500+"]
  {
    match b
    case Upto25 => "1-25"
    case From26To50 => "26-50"
    case From51To100 => "51-100"
    case From100To500 => "100-500"
    case Over500 => "500+"
  }

  /** Position of a bucket in the order of the labels. */
  function Rank(b: SizeBucket): nat {
    match b
    case Upto25 => 0
    case From26To50 => 1
    case From51To100 => 2
    case From100To500 => 3
    case Over500 => 4
  }

  lemma LabelsDistinct(a: SizeBucket, b: SizeBucket)
    ensures Label(a) == Label(b) <==> a == b
  {
  }

  /** `getSizeRange`: each bucket is exactly the counts between two cut-offs. */
  function GetSizeRange(count: int): (b: SizeBucket)
    ensures b == Upto25 <==> count <= 25
    ensures b == From26To50 <==> 25 < count <= 50
    ensures b == From51To100 <==> 50 < count <= 100
    ensures b == From100To500 <==> 100 < count <= 500
    ensures b == Over500 <==> 500 < count
  {
    if count <= 25 then Upto25
    else if count <= 50 then From26To50
    else if count <= 100 then From51To100
    else if count <= 500 then From100To500
    else Over500
  }

  /** A larger count never lands in a smaller bucket. */
  lemma SizeRangeMonotone(a: int, b: int)
    requires a <= b
    ensures Rank(GetSizeRange(a)) <= Rank(GetSizeRange(b))
  {
  }

  // The three employee-count patterns, each matched at the start of `t`.

  const PeopleWords: seq<string> := ["employee", "staff", "workers", "people", "team members"]
  const HeadcountWords: seq<string> := ["employee", "staff", "team", "workforce"]
  const Qualifiers: seq<string> := ["over", "more than", "about", "approximately", "around"]
  const StaffWords: seq<string> := ["employee", "staff"]

  /** `(\d{1,5})\+?\s*(?:employees?|staff|workers|people|team members)` under the
      i flag. The digits must be the whole digit run at the start (a sixth
      digit could match neither `+`, `\s` nor a letter), and `+` and `\s*`
      are taken greedily because the word that follows starts with a letter. */
  function CountBeforeWord(t: string): (r: Option<nat>)
    ensures r.Some? ==> 1 <= Run(t, 0, Digit) <= 5
  {
    CountBefore(t, PeopleWords)
  }

  /** The same pattern with the alternation of `words` after the count. */
  function CountBefore(t: string, words: seq<string>): (r: Option<nat>)
    ensures r.Some? ==> 1 <= Run(t, 0, Digit) <= 5
  {
    var n := Run(t, 0, Digit);
    if 1 <= n <= 5 then
      var j := if n < |t| && t[n] == '+' then n + 1 else n;
      var k := j + Run(t, j, Space);
      if FirstKeywordAt(t, k, words).Some? then Some(DecimalValue(t[..n])) else None
    else None
  }

  /** How many of `n` digits the greedy `\d{1,5}` takes. */
  function UpToFive(n: nat): (d: nat)
    ensures d <= n && d <= 5 && (d == n || d == 5)
  {
    if n < 5 then n else 5
  }

  /** `(?:employees?|staff|team|workforce)\s*(?:of\s*)?(\d{1,5})` under the i flag:
      the count is the first (up to five) digits after the word, the
      optional "of" and the white space. */
  function CountAfterWord(t: string): (r: Option<nat>) {
    match HeadcountWordLength(t)
    case None => None
    case Some(e) => CountAfterGap(t, e, "of")
  }

  /** The length of the word `employees?|staff|team|workforce` at the start
      of `t`: "employees" when the optional `s` is there, else the first
      alternative that occurs. */
  function HeadcountWordLength(t: string): (r: Option<nat>)
    ensures r.Some? ==> r.value <= |t|
  {
    if KeywordAt(t, 0, "employees") then Some(9) else KeywordLengthAt(t, 0, HeadcountWords)
  }

  /** `\s*(?:join\s*)?(\d{1,5})` from `e` on, where the pattern's `join` is "of". */
  function CountAfterGap(t: string, e: nat, join: string): (r: Option<nat>)
    requires e <= |t|
  {
    LeadingCount(t, JoinEnd(t, e + Run(t, e, Space), join))
  }

  /** Where `(?:join\s*)?` leaves off when tried at `k`. */
  function JoinEnd(t: string, k: nat, join: string): (m: nat)
    requires k <= |t|
    ensures k <= m <= |t|
  {
    if KeywordAt(t, k, join) then k + |join| + Run(t, k + |join|, Space) else k
  }

  /** `(\d{1,5})` at `m`, with nothing required after it. */
  function LeadingCount(t: string, m: nat): (r: Option<nat>)
    requires m <= |t|
  {
    var n := Run(t, m, Digit);
    if n >= 1 then Some(DecimalValue(t[m..m + UpToFive(n)])) else None
  }

  /** `(?:over|more than|about|approximately|around)\s*(\d{1,5})\s*(?:employees?|staff)`
      under the i flag. */
  function CountQualified(t: string): (r: Option<nat>) {
    match KeywordLengthAt(t, 0, Qualifiers)
    case None => None
    case Some(e) => CountQualifiedGap(t, e, StaffWords)
  }

  /** `\s*(\d{1,5})\s*` from `e` on, then the alternation of `words`. */
  function CountQualifiedGap(t: string, e: nat, words: seq<string>): (r: Option<nat>)
    requires e <= |t|
  {
    var k := e + Run(t, e, Space);
    var n := Run(t, k, Digit);
    if 1 <= n <= 5 && WordAfterSpace(t, k + n, words) then Some(DigitsValue(t, k, n)) else None
  }

  /** `\s*` from `i` on, then an alternative of `words`. */
  predicate WordAfterSpace(t: string, i: nat, words: seq<string>)
    requires i <= |t|
  {
    FirstKeywordAt(t, i + Run(t, i, Space), words).Some?
  }

  /** The decimal value of the `n` digits from `k` on. */
  function DigitsValue(t: string, k: nat, n: nat): nat
    requires k <= |t| && n <= Run(t, k, Digit)
  {
    RunSliceAllIn(t, k, Digit, n);
    DecimalValue(t[k..k + n])
  }

  /** The count captured by the first of the three patterns that matches
      anywhere in the snippet, each at its leftmost position. */
  function ExplicitCount(snippet: string): (r: Option<nat>)
    ensures r.None? <==>
      Nowhere(snippet, CountBeforeWord) && Nowhere(snippet, CountAfterWord) && Nowhere(snippet, CountQualified)
    ensures !Nowhere(snippet, CountBeforeWord) ==> FirstMatchIs(snippet, CountBeforeWord, r)
    ensures Nowhere(snippet, CountBeforeWord) && !Nowhere(snippet, CountAfterWord) ==>
      FirstMatchIs(snippet, CountAfterWord, r)
    ensures Nowhere(snippet, CountBeforeWord) && Nowhere(snippet, CountAfterWord) && !Nowhere(snippet, CountQualified) ==>
      FirstMatchIs(snippet, CountQualified, r)
  {
    match Leftmost(snippet, CountBeforeWord)
    case Some(hit) => Some(hit.1)
    case None =>
      match Leftmost(snippet, CountAfterWord)
      case Some(hit) => Some(hit.1)
      case None =>
        match Leftmost(snippet, CountQualified)
        case Some(hit) => Some(hit.1)
        case None => None
  }

  // The phrase groups, checked in this order against the lower-cased snippet.

  const LargePhrases: seq<string> := ["enterprise", "fortune 500", "multinational"]
  const MidPhrases: seq<string> := ["mid-size", "midsize", "medium-sized"]
  const SmallPhrases: seq<string> := ["small business", "local business", "family-owned"]
  const StartupPhrases: seq<string> := ["startup", "start-up"]

  predicate MentionsAny(text: string, phrases: seq<string>) {
    exists p :: p in phrases && Contains(text, p)
  }

  function PhraseSize(text: string): Option<SizeBucket> {
    if MentionsAny(text, LargePhrases) then Some(Over500)
    else if MentionsAny(text, MidPhrases) then Some(From100To500)
    else if MentionsAny(text, SmallPhrases) then Some(Upto25)
    else if MentionsAny(text, StartupPhrases) then Some(Upto25)
    else None
  }

  /** Some phrase of some group occurs in the lower-cased text. */
  predicate MentionsSizePhrase(text: string) {
    MentionsAny(text, LargePhrases) || MentionsAny(text, MidPhrases)
    || MentionsAny(text, SmallPhrases) || MentionsAny(text, StartupPhrases)
  }

  /** `estimateCompanySize`: an explicit count decides whenever one is
      found; only without one do the phrases decide; the result is null
      exactly when neither a count nor any phrase occurs. */
  function EstimateCompanySize(snippet: string): (r: Option<SizeBucket>)
    ensures ExplicitCount(snippet).Some? ==> r == Some(GetSizeRange(ExplicitCount(snippet).value))
    ensures r.None? <==> ExplicitCount(snippet).None? && !MentionsSizePhrase(Lower(snippet))
  {
    match ExplicitCount(snippet)
    case Some(n) => Some(GetSizeRange(n))
    case None => PhraseSize(Lower(snippet))
  }

  /** Phrase groups are consulted enterprise, mid-size, small/local,
      startup: a phrase of an earlier group overrides any later one. */
  lemma PhraseGroupOrder(snippet: string)
    requires ExplicitCount(snippet).None?
    ensures MentionsAny(Lower(snippet), LargePhrases) ==> EstimateCompanySize(snippet) == Some(Over500)
    ensures !MentionsAny(Lower(snippet), LargePhrases) && MentionsAny(Lower(snippet), MidPhrases)
      ==> EstimateCompanySize(snippet) == Some(From100To500)
    ensures !MentionsAny(Lower(snippet), LargePhrases) && !MentionsAny(Lower(snippet), MidPhrases)
      && (MentionsAny(Lower(snippet), SmallPhrases) || MentionsAny(Lower(snippet), StartupPhrases))
      ==> EstimateCompanySize(snippet) == Some(Upto25)
  {
  }

  /** A snippet that opens with a count of one to five digits followed by
      " employees" is sized by that count, whatever follows. */
  lemma {:induction false} LeadingCountDecides(digits: string, rest: string)
    requires 1 <= |digits| <= 5 && AllIn(digits, Digit)
    ensures EstimateCompanySize(digits + " employees" + rest) == Some(GetSizeRange(DecimalValue(digits)))
  {
    var s := digits + " employees" + rest;
    var n := |digits|;
    assert s[..n] == digits;
    assert s[n] == ' ' && s[n + 1] == 'e';
    assert s[n + 1..n + 9] == "employee";
    RunOfPrefix(s, digits);
    SpaceThenEmployee(s, n);
    CountBeforeWordAt(s, n);
    assert s[0..] == s;
  }

  /** The first pattern matches a digit run followed by one space and "employee". */
  lemma CountBeforeWordAt(s: string, n: nat)
    requires 1 <= n <= 5 && n < |s| && Run(s, 0, Digit) == n && s[n] != '+'
    requires FirstKeywordAt(s, n + Run(s, n, Space), PeopleWords).Some?
    ensures Leftmost(s, CountBeforeWord) == Some((0, DecimalValue(s[..n])))
  {
    CountBeforeWordHere(s, n);
    LeftmostAtStart(s, CountBeforeWord);
  }

  /** `t` starts with what the pattern demands: a run of one to five
      digits that no further digit extends, then an optional `+` and white
      space up to `k`, where an alternative of `words` begins. */
  predicate CountShape(t: string, n: nat, k: nat, words: seq<string>) {
    1 <= n <= 5 && n <= k <= |t|
    && (forall i :: 0 <= i < n ==> In(t[i], Digit))
    && (n < |t| ==> !In(t[n], Digit))
    && (forall i :: n <= i < k ==> (i == n && t[i] == '+') || In(t[i], Space))
    && FirstKeywordAt(t, k, words).Some?
  }

  /** Every alternative starts with a letter, so neither `+` nor white
      space can be where it begins. */
  predicate StartsWithLetters(words: seq<string>) {
    forall w :: 0 <= w < |words| ==> words[w] != [] && IsLetter(words[w][0])
  }

  /** What the pattern reports is the value of a leading digit run of the
      pattern's shape. */
  lemma CountBeforeSound(t: string, words: seq<string>) returns (n: nat, k: nat)
    requires CountBefore(t, words).Some?
    ensures CountShape(t, n, k, words)
    ensures AllIn(t[..n], Digit) && CountBefore(t, words).value == DecimalValue(t[..n])
  {
    n := Run(t, 0, Digit);
    var j := if n < |t| && t[n] == '+' then n + 1 else n;
    k := j + Run(t, j, Space);
    assert AllIn(t[..n], Digit) by {
      forall i | 0 <= i < n ensures In(t[..n][i], Digit) { assert t[..n][i] == t[i]; }
    }
  }

  /** Every leading digit run of the pattern's shape is reported, with its value. */
  lemma CountBeforeComplete(t: string, n: nat, k: nat, words: seq<string>)
    requires StartsWithLetters(words) && CountShape(t, n, k, words)
    ensures AllIn(t[..n], Digit) && CountBefore(t, words) == Some(DecimalValue(t[..n]))
  {
    var j := if n < |t| && t[n] == '+' then n + 1 else n;
    assert Run(t, 0, Digit) == n by { RunUnique(t, 0, Digit, n); }
    assert j <= k && Run(t, j, Space) == k - j by { GapBeforeKeyword(t, n, k, j, words); }
    assert FirstKeywordAt(t, k, words).Some?;
    CountBeforeFrom(t, n, j, k, words);
  }

  /** The scanner's steps, taken one by one, give the count. */
  lemma CountBeforeFrom(t: string, n: nat, j: nat, k: nat, words: seq<string>)
    requires 1 <= n <= 5 && Run(t, 0, Digit) == n
    requires j == if n < |t| && t[n] == '+' then n + 1 else n
    requires j <= k && Run(t, j, Space) == k - j && FirstKeywordAt(t, k, words).Some?
    ensures AllIn(t[..n], Digit) && CountBefore(t, words) == Some(DecimalValue(t[..n]))
  {
    assert AllIn(t[..n], Digit) by {
      forall i | 0 <= i < n ensures In(t[..n][i], Digit) { assert t[..n][i] == t[i]; }
    }
  }

  /** The white space the scanner skips after the digits and the optional
      `+` ends exactly where the alternative begins. */
  lemma GapBeforeKeyword(t: string, n: nat, k: nat, j: nat, words: seq<string>)
    requires StartsWithLetters(words) && CountShape(t, n, k, words)
    requires j == if n < |t| && t[n] == '+' then n + 1 else n
    ensures j <= k && Run(t, j, Space) == k - j
  {
    KeywordStartsWithLetter(t, k, words);
    forall i | j <= i < k ensures In(t[i], Space) {
      if i == n { assert t[n] != '+' || j == n + 1; }
    }
    RunUnique(t, j, Space, k - j);
  }

  /** Where an alternative occurs there is a letter. */
  lemma KeywordStartsWithLetter(t: string, k: nat, words: seq<string>)
    requires StartsWithLetters(words) && FirstKeywordAt(t, k, words).Some?
    ensures k < |t| && IsLetter(t[k])
  {
    var w := FirstKeywordAt(t, k, words).value;
    assert LowerChar(t[k]) == words[w][0];
  }

  lemma PeopleWordsStartWithLetters()
    ensures StartsWithLetters(PeopleWords)
  {
  }

  lemma CountBeforeWordHere(s: string, n: nat)
    requires 1 <= n <= 5 && n < |s| && Run(s, 0, Digit) == n && s[n] != '+'
    requires FirstKeywordAt(s, n + Run(s, n, Space), PeopleWords).Some?
    ensures CountBeforeWord(s) == Some(DecimalValue(s[..n]))
  {
    assert AllIn(s[..n], Digit);
    CountBeforeFires(s, n, PeopleWords);
  }

  lemma CountBeforeFires(s: string, n: nat, words: seq<string>)
    requires 1 <= n <= 5 && n < |s| && Run(s, 0, Digit) == n && s[n] != '+'
    requires FirstKeywordAt(s, n + Run(s, n, Space), words).Some?
    ensures CountBefore(s, words).Some?
  {
  }

  lemma SpaceThenEmployee(s: string, n: nat)
    requires n + 9 <= |s| && s[n] == ' ' && s[n + 1..n + 9] == "employee"
    ensures Run(s, n, Space) == 1
    ensures FirstKeywordAt(s, n + 1, PeopleWords).Some?
  {
    EmployeeAt(s, n + 1);
    assert Run(s, n + 1, Space) == 0;
  }

  lemma EmployeeAt(s: string, i: nat)
    requires i + 8 <= |s| && s[i..i + 8] == "employee"
    ensures !IsSpace(s[i])
    ensures FirstKeywordAt(s, i, PeopleWords) == Some(0)
  {
    assert s[i] == s[i..i + 8][0];
    LowerEmployee(s[i..i + 8]);
    KeywordAtLower(s, i, PeopleWords[0]);
    FirstPeopleWord(s, i);
  }

  lemma LowerEmployee(e: string)
    requires e == "employee"
    ensures Lower(e) == e
  {
    LowerKeyword(e);
  }

  lemma FirstPeopleWord(s: string, i: nat)
    requires KeywordAt(s, i, PeopleWords[0])
    ensures FirstKeywordAt(s, i, PeopleWords) == Some(0)
  {
  }

  /** A keyword written in lower case is its own lower-cased form. */
  lemma LowerKeyword(w: string)
    requires forall i :: 0 <= i < |w| ==> !IsUpper(w[i])
    ensures Lower(w) == w
  {
  }

  /** The digit run at the start of `d + t` is `d` when `t` does not start with a digit. */
  lemma RunOfPrefix(s: string, d: string)
    requires d <= s && AllIn(d, Digit)
    requires |d| < |s| && !IsDigit(s[|d|])
    ensures Run(s, 0, Digit) == |d|
  {
    assert forall j :: 0 <= j < |d| ==> s[j] == d[j];
    RunUnique(s, 0, Digit, |d|);
  }

  // The second pattern, `(?:employees?|staff|team|workforce)\s*(?:of\s*)?(\d{1,5})`.

  /** The alternatives of `employees?|staff|team|workforce` in the order
      they are tried: the optional `s` is taken first. */
  const AfterWords: seq<string> := ["employees", "employee", "staff", "team", "workforce"]

  /** From `e` on, `t` holds white space up to `k`, then either nothing or
      `join` and white space up to `m`, and a digit at `m`. */
  predicate OfGapShape(t: string, e: nat, k: nat, m: nat, join: string) {
    e <= k <= m < |t|
    && (forall i :: e <= i < k ==> In(t[i], Space))
    && (m == k || (KeywordAt(t, k, join) && k + |join| <= m && forall i :: k + |join| <= i < m ==> In(t[i], Space)))
    && In(t[m], Digit)
  }

  /** A word that begins with a letter, as "of" does. */
  predicate LetterWord(w: string) {
    w != [] && IsLetter(w[0])
  }

  /** `t` starts with what the second pattern demands: the alternative
      `AfterWords[w]` and then the gap and digit of `OfGapShape`. */
  predicate CountAfterShape(t: string, w: nat, k: nat, m: nat) {
    w < |AfterWords| && KeywordAt(t, 0, AfterWords[w]) && OfGapShape(t, |AfterWords[w]|, k, m, "of")
  }

  /** What the second pattern reports comes from a match of its shape: the
      first (up to five) digits of the run at `m`. */
  lemma CountAfterSound(t: string) returns (w: nat, k: nat, m: nat)
    requires CountAfterWord(t).Some?
    ensures CountAfterShape(t, w, k, m)
    ensures var d := UpToFive(Run(t, m, Digit));
      AllIn(t[m..m + d], Digit) && CountAfterWord(t).value == DecimalValue(t[m..m + d])
  {
    w := AfterWordFound(t);
    k, m := OfGapSound(t, |AfterWords[w]|, "of");
  }

  /** Every start of the second pattern's shape is reported, with the first
      (up to five) digits of the run at `m`. */
  lemma CountAfterComplete(t: string, w: nat, k: nat, m: nat)
    requires CountAfterShape(t, w, k, m)
    ensures var d := UpToFive(Run(t, m, Digit));
      AllIn(t[m..m + d], Digit) && CountAfterWord(t) == Some(DecimalValue(t[m..m + d]))
  {
    AfterWordChosen(t, w, k, m);
    OfGapComplete(t, |AfterWords[w]|, k, m, "of");
  }

  /** The word the scanner picks is one of the alternatives. */
  lemma AfterWordFound(t: string) returns (w: nat)
    requires HeadcountWordLength(t).Some?
    ensures w < |AfterWords| && KeywordAt(t, 0, AfterWords[w])
    ensures HeadcountWordLength(t) == Some(|AfterWords[w]|)
  {
    if KeywordAt(t, 0, "employees") {
      w := 0;
    } else {
      w := FirstKeywordAt(t, 0, HeadcountWords).value + 1;
      assert AfterWords[w] == HeadcountWords[w - 1];
    }
  }

  lemma OfGapSound(t: string, e: nat, join: string) returns (k: nat, m: nat)
    requires e <= |t| && CountAfterGap(t, e, join).Some?
    ensures OfGapShape(t, e, k, m, join)
    ensures var d := UpToFive(Run(t, m, Digit));
      AllIn(t[m..m + d], Digit) && CountAfterGap(t, e, join).value == DecimalValue(t[m..m + d])
  {
    k := e + Run(t, e, Space);
    m := JoinEnd(t, k, join);
    LeadingCountValue(t, m);
  }

  lemma OfGapComplete(t: string, e: nat, k: nat, m: nat, join: string)
    requires LetterWord(join) && OfGapShape(t, e, k, m, join)
    ensures var d := UpToFive(Run(t, m, Digit));
      AllIn(t[m..m + d], Digit) && CountAfterGap(t, e, join) == Some(DecimalValue(t[m..m + d]))
  {
    assert !In(t[k], Space) by {
      if m != k {
        KeywordChar(t, k, join, 0);
      }
    }
    assert Run(t, e, Space) == k - e by { RunTo(t, e, k, Space); }
    assert JoinEnd(t, k, join) == m by {
      if m == k {
        assert LowerChar(t[k]) == t[k] by { assert In(t[k], Digit); }
        KeywordMismatch(t, k, join, 0);
      } else {
        RunTo(t, k + |join|, m, Space);
      }
    }
    LeadingCountValue(t, m);
  }

  /** `(\d{1,5})` matches exactly where a digit stands, and takes up to five
      digits of the run. */
  lemma LeadingCountValue(t: string, m: nat)
    requires m <= |t|
    ensures LeadingCount(t, m).Some? <==> m < |t| && In(t[m], Digit)
    ensures var d := UpToFive(Run(t, m, Digit));
      AllIn(t[m..m + d], Digit) && (LeadingCount(t, m).Some? ==> LeadingCount(t, m).value == DecimalValue(t[m..m + d]))
  {
    RunSliceAllIn(t, m, Digit, UpToFive(Run(t, m, Digit)));
  }

  /** The word of a match of the shape is the one the scanner picks: a
      trailing `s` after "employee" could be followed neither by white
      space, "of" nor a digit, and the other alternatives differ in their
      first letter. */
  lemma AfterWordChosen(t: string, w: nat, k: nat, m: nat)
    requires CountAfterShape(t, w, k, m)
    ensures HeadcountWordLength(t) == Some(|AfterWords[w]|)
  {
    if w == 1 {
      assert LowerChar(t[8]) != 's' by {
        if k > 8 {
          assert In(t[8], Space);
        } else if m != k {
          KeywordChar(t, k, "of", 0);
        }
      }
      KeywordMismatch(t, 0, "employees", 8);
      assert KeywordAt(t, 0, HeadcountWords[0]);
    } else if w > 1 {
      KeywordsDiffer(t, 0, AfterWords[w], "employees", 0);
      assert AfterWords[w] == HeadcountWords[w - 1];
      forall p | 0 <= p < w - 1 ensures !KeywordAt(t, 0, HeadcountWords[p]) {
        KeywordsDiffer(t, 0, AfterWords[w], HeadcountWords[p], 0);
      }
    }
  }

  // The third pattern, `(?:over|more than|about|approximately|around)\s*(\d{1,5})\s*(?:employees?|staff)`.

  /** From `e` on, `t` holds white space up to `k`, a run of one to five
      digits that no further digit extends, and white space up to `j`,
      where an alternative of `words` begins. A longer digit run cannot match,
      since neither white space nor a letter may follow the fifth digit. */
  predicate DigitsBeforeWordShape(t: string, e: nat, k: nat, n: nat, j: nat, words: seq<string>) {
    e <= k && 1 <= n <= 5 && k + n <= j <= |t|
    && (forall i :: e <= i < k ==> In(t[i], Space))
    && (forall i :: k <= i < k + n ==> In(t[i], Digit))
    && (k + n < |t| ==> !In(t[k + n], Digit))
    && (forall i :: k + n <= i < j ==> In(t[i], Space))
    && FirstKeywordAt(t, j, words).Some?
  }

  /** `t` starts with what the third pattern demands: the qualifier
      `Qualifiers[q]` and then the shape of `DigitsBeforeWordShape` with
      "employee" or "staff" as the word. */
  predicate CountQualifiedShape(t: string, q: nat, k: nat, n: nat, j: nat) {
    q < |Qualifiers| && KeywordAt(t, 0, Qualifiers[q]) && DigitsBeforeWordShape(t, |Qualifiers[q]|, k, n, j, StaffWords)
  }

  /** What the third pattern reports is the value of a digit run of its shape. */
  lemma CountQualifiedSound(t: string) returns (q: nat, k: nat, n: nat, j: nat)
    requires CountQualified(t).Some?
    ensures CountQualifiedShape(t, q, k, n, j)
    ensures AllIn(t[k..k + n], Digit) && CountQualified(t).value == DecimalValue(t[k..k + n])
  {
    q := FirstKeywordAt(t, 0, Qualifiers).value;
    k, n, j := QualifiedGapSound(t, |Qualifiers[q]|, StaffWords);
  }

  /** Every start of the third pattern's shape is reported, with the value
      of its digit run. */
  lemma CountQualifiedComplete(t: string, q: nat, k: nat, n: nat, j: nat)
    requires CountQualifiedShape(t, q, k, n, j)
    ensures AllIn(t[k..k + n], Digit) && CountQualified(t) == Some(DecimalValue(t[k..k + n]))
  {
    QualifierChosen(t, q);
    QualifiedGapComplete(t, |Qualifiers[q]|, k, n, j, StaffWords);
  }

  lemma QualifiedGapSound(t: string, e: nat, words: seq<string>) returns (k: nat, n: nat, j: nat)
    requires e <= |t| && CountQualifiedGap(t, e, words).Some?
    ensures DigitsBeforeWordShape(t, e, k, n, j, words)
    ensures AllIn(t[k..k + n], Digit) && CountQualifiedGap(t, e, words).value == DecimalValue(t[k..k + n])
  {
    k, n := QualifiedGapSteps(t, e, words);
    j := k + n + Run(t, k + n, Space);
    GapOfRuns(t, e, k, n, j, words);
  }

  /** What a match of `CountQualifiedGap` says about its steps. */
  lemma QualifiedGapSteps(t: string, e: nat, words: seq<string>) returns (k: nat, n: nat)
    requires e <= |t| && CountQualifiedGap(t, e, words).Some?
    ensures k == e + Run(t, e, Space) && n == Run(t, k, Digit) && 1 <= n <= 5
    ensures WordAfterSpace(t, k + n, words)
    ensures CountQualifiedGap(t, e, words).value == DigitsValue(t, k, n)
  {
    k := e + Run(t, e, Space);
    n := Run(t, k, Digit);
  }

  /** `WordAfterSpace` holds exactly when the word begins where the white
      space after `i` ends. */
  lemma WordAfterSpaceAt(t: string, i: nat, j: nat, words: seq<string>)
    requires i <= |t| && j == i + Run(t, i, Space)
    ensures WordAfterSpace(t, i, words) <==> FirstKeywordAt(t, j, words).Some?
  {
  }

  /** The runs the scanner takes form the shape, and their digits have the
      value `DigitsValue` gives. */
  lemma GapOfRuns(t: string, e: nat, k: nat, n: nat, j: nat, words: seq<string>)
    requires e <= |t| && k == e + Run(t, e, Space) && n == Run(t, k, Digit) && 1 <= n <= 5
    requires WordAfterSpace(t, k + n, words) && j == k + n + Run(t, k + n, Space)
    ensures DigitsBeforeWordShape(t, e, k, n, j, words)
    ensures AllIn(t[k..k + n], Digit) && DigitsValue(t, k, n) == DecimalValue(t[k..k + n])
  {
    WordAfterSpaceAt(t, k + n, j, words);
    GapShapeOfRuns(t, e, k, n, j, words);
    DigitsValueSlice(t, k, n);
  }

  lemma GapShapeOfRuns(t: string, e: nat, k: nat, n: nat, j: nat, words: seq<string>)
    requires e <= |t| && k == e + Run(t, e, Space) && n == Run(t, k, Digit) && 1 <= n <= 5
    requires j == k + n + Run(t, k + n, Space) && FirstKeywordAt(t, j, words).Some?
    ensures DigitsBeforeWordShape(t, e, k, n, j, words)
  {
  }

  /** `DigitsValue` is the decimal value of the digit slice. */
  lemma DigitsValueSlice(t: string, k: nat, n: nat)
    requires k <= |t| && n <= Run(t, k, Digit)
    ensures AllIn(t[k..k + n], Digit) && DigitsValue(t, k, n) == DecimalValue(t[k..k + n])
  {
    RunSliceAllIn(t, k, Digit, n);
  }

  lemma QualifiedGapComplete(t: string, e: nat, k: nat, n: nat, j: nat, words: seq<string>)
    requires StartsWithLetters(words) && DigitsBeforeWordShape(t, e, k, n, j, words)
    ensures AllIn(t[k..k + n], Digit) && CountQualifiedGap(t, e, words).Some?
    ensures CountQualifiedGap(t, e, words).value == DecimalValue(t[k..k + n])
  {
    assert Run(t, e, Space) == k - e by {
      assert !In(t[k], Space) by { assert In(t[k], Digit); }
      RunTo(t, e, k, Space);
    }
    assert Run(t, k, Digit) == n by { RunTo(t, k, k + n, Digit); }
    assert Run(t, k + n, Space) == j - (k + n) by {
      KeywordStartsWithLetter(t, j, words);
      assert !In(t[j], Space) by { assert IsLetter(t[j]); }
      RunTo(t, k + n, j, Space);
    }
    RunSliceAllIn(t, k, Digit, n);
    CountQualifiedGapFrom(t, e, k, n, j, words);
  }

  /** The scanner's steps, taken one by one, give the count. */
  lemma CountQualifiedGapFrom(t: string, e: nat, k: nat, n: nat, j: nat, words: seq<string>)
    requires e <= |t| && k == e + Run(t, e, Space) && n == Run(t, k, Digit) && 1 <= n <= 5
    requires j == k + n + Run(t, k + n, Space) && FirstKeywordAt(t, j, words).Some?
    requires AllIn(t[k..k + n], Digit)
    ensures CountQualifiedGap(t, e, words).Some?
    ensures CountQualifiedGap(t, e, words).value == DecimalValue(t[k..k + n])
  {
    WordAfterSpaceAt(t, k + n, j, words);
    QualifiedGapFold(t, e, k, n, words);
    DigitsValueSlice(t, k, n);
  }

  /** The converse of `QualifiedGapSteps`. */
  lemma QualifiedGapFold(t: string, e: nat, k: nat, n: nat, words: seq<string>)
    requires e <= |t| && k == e + Run(t, e, Space) && n == Run(t, k, Digit) && 1 <= n <= 5
    requires WordAfterSpace(t, k + n, words)
    ensures CountQualifiedGap(t, e, words).Some? && CountQualifiedGap(t, e, words).value == DigitsValue(t, k, n)
  {
  }

  /** The qualifiers differ in their first two letters, so the one that
      occurs is the one the scanner picks. */
  lemma QualifierChosen(t: string, q: nat)
    requires q < |Qualifiers| && KeywordAt(t, 0, Qualifiers[q])
    ensures KeywordLengthAt(t, 0, Qualifiers) == Some(|Qualifiers[q]|)
  {
    forall p | 0 <= p < q ensures !KeywordAt(t, 0, Qualifiers[p]) {
      var d := if Qualifiers[p][0] != Qualifiers[q][0] then 0 else 1;
      KeywordsDiffer(t, 0, Qualifiers[q], Qualifiers[p], d);
    }
  }

  /** Review-count rule for places results: absent or zero reviews give no
      size; otherwise more than 500 reviews mean `100-500`, more than 100
      `51-100`, more than 30 `26-50`, and any other non-zero count
      (negative ones included) `1-25`. The bucket never exceeds the one the
      same number would get as an employee count. */
  function ReviewBucket(reviews: Option<int>): (r: Option<SizeBucket>)
    ensures r.None? <==> reviews.None? || reviews.value == 0
    ensures r == Some(Upto25) <==> reviews.Some? && reviews.value != 0 && reviews.value <= 30
    ensures r == Some(From26To50) <==> reviews.Some? && 30 < reviews.value <= 100
    ensures r == Some(From51To100) <==> reviews.Some? && 100 < reviews.value <= 500
    ensures r == Some(From100To500) <==> reviews.Some? && 500 < reviews.value
    ensures r.Some? ==> r.value != Over500 && Rank(r.value) <= Rank(GetSizeRange(reviews.value))
  {
    match reviews
    case None => None
    case Some(n) =>
      if n == 0 then None
      else if n > 500 then Some(From100To500)
      else if n > 100 then Some(From51To100)
      else if n > 30 then Some(From26To50)
      else Some(Upto25)
  }
}
