/** The building blocks of the hand-written scanners that stand for the
    route's regular expressions: character classes, maximal runs, keyword
    tests under the `i` flag, the leftmost-match search that
    `String.prototype.match` performs, and a backtracking matcher for
    patterns made only of optional characters and fixed-count classes. */
module Scan {
  import opened Text

  /** The bracket classes the route's regular expressions use. */
  datatype CharClass =
    | Digit         // \d
    | Space         // \s
    | Letter        // [A-Za-z], and also [A-Z] or [a-z] under the i flag
    | EmailLocal    // [a-zA-Z0-9._%+-]
    | EmailDomain   // [a-zA-Z0-9.-]
    | NameSep       // [-–—|]
    | NotNameSep    // [^-–—|]
    | NotLineEnd    // .
    | Dash          // [-–—]
    | PhoneSep      // [-.\s]
    | Lit(c: char)  // one literal character

  predicate In(c: char, k: CharClass) {
    match k
    case Digit => IsDigit(c)
    case Space => IsSpace(c)
    case Letter => IsLetter(c)
    case EmailLocal => IsLetter(c) || IsDigit(c) || c == '.' || c == '_' || c == '%' || c == '+' || c == '-'
    case EmailDomain => IsLetter(c) || IsDigit(c) || c == '.' || c == '-'
    case NameSep => c == '-' || c == '\U{2013}' || c == '\U{2014}' || c == '|'
    case NotNameSep => !(c == '-' || c == '\U{2013}' || c == '\U{2014}' || c == '|')
    case NotLineEnd => !IsLineTerminator(c)
    case Dash => c == '-' || c == '\U{2013}' || c == '\U{2014}'
    case PhoneSep => c == '-' || c == '.' || IsSpace(c)
    case Lit(d) => c == d
  }

  /** Length of the longest run of `k` characters starting at `i`. */
  function Run(s: string, i: nat, k: CharClass): (n: nat)
    requires i <= |s|
    ensures i + n <= |s|
    ensures forall j {:trigger In(s[j], k)} :: i <= j < i + n ==> In(s[j], k)
    ensures i + n < |s| ==> !In(s[i + n], k)
    decreases |s| - i
  {
    if i < |s| && In(s[i], k) then 1 + Run(s, i + 1, k) else 0
  }

  /** A run is pinned down by its members and the character that stops it. */
  lemma {:induction false} RunUnique(s: string, i: nat, k: CharClass, n: nat)
    requires i + n <= |s|
    requires forall j :: i <= j < i + n ==> In(s[j], k)
    requires i + n < |s| ==> !In(s[i + n], k)
    ensures Run(s, i, k) == n
    decreases n
  {
    if n > 0 {
      RunUnique(s, i + 1, k, n - 1);
    }
  }

  /** A run is at least as long as any stretch of `k` characters where it starts. */
  lemma {:induction false} RunCovers(s: string, i: nat, k: CharClass, n: nat)
    requires i + n <= |s|
    requires forall j :: i <= j < i + n ==> In(s[j], k)
    ensures Run(s, i, k) >= n
    decreases n
  {
    if n > 0 {
      RunCovers(s, i + 1, k, n - 1);
    }
  }

  /** A run measured in a suffix is the run measured in the whole string. */
  lemma RunOfSuffix(s: string, d: nat, i: nat, k: CharClass)
    requires d + i <= |s|
    ensures Run(s[d..], i, k) == Run(s, d + i, k)
  {
    var n := Run(s, d + i, k);
    forall j | i <= j < i + n ensures In(s[d..][j], k) {
      assert s[d..][j] == s[d + j];
    }
    if i + n < |s| - d {
      assert s[d..][i + n] == s[d + i + n];
    }
    RunUnique(s[d..], i, k, n);
  }

  /** A run that reaches `i` continues as the run from `i`. */
  lemma {:induction false} RunSplit(s: string, i: nat, k: CharClass)
    requires i <= Run(s, 0, k)
    ensures Run(s, 0, k) == i + Run(s, i, k)
  {
    RunSplitFrom(s, 0, i, k);
  }

  lemma {:induction false} RunSplitFrom(s: string, a: nat, i: nat, k: CharClass)
    requires a <= i && a <= |s| && a + Run(s, a, k) >= i
    ensures Run(s, a, k) == i - a + Run(s, i, k)
    decreases i - a
  {
    if a < i {
      RunSplitFrom(s, a + 1, i, k);
    }
  }

  /** The text of a run, as a slice, is all of the class. */
  lemma RunSlice(s: string, i: nat, k: CharClass)
    requires i <= |s|
    ensures AllIn(s[i..i + Run(s, i, k)], k)
  {
    var x := s[i..i + Run(s, i, k)];
    forall j | 0 <= j < |x| ensures In(x[j], k) {
      assert x[j] == s[i + j];
    }
  }

  /** Every stretch at the start of a run is all of the class. */
  lemma RunPrefixSlice(s: string, i: nat, k: CharClass, d: nat)
    requires i <= |s| && d <= Run(s, i, k)
    ensures AllIn(s[i..i + d], k)
  {
    RunSlice(s, i, k);
    assert s[i..i + d] == s[i..i + Run(s, i, k)][..d];
  }

  /** The lower-case ASCII keyword `kw` occurs at `i`, compared under the i flag. */
  predicate KeywordAt(s: string, i: nat, kw: string) {
    i + |kw| <= |s| && forall j :: 0 <= j < |kw| ==> LowerChar(s[i + j]) == kw[j]
  }

  /** Two keywords that differ at some position cannot both occur at `i`. */
  lemma KeywordsDiffer(s: string, i: nat, a: string, b: string, j: nat)
    requires j < |a| && j < |b| && a[j] != b[j] && KeywordAt(s, i, a)
    ensures !KeywordAt(s, i, b)
  {
    assert LowerChar(s[i + j]) == a[j];
  }

  /** Each character of an occurrence lower-cases to the keyword's. */
  lemma KeywordChar(s: string, i: nat, kw: string, j: nat)
    requires KeywordAt(s, i, kw) && j < |kw|
    ensures LowerChar(s[i + j]) == kw[j]
  {
  }

  /** One character that lower-cases to something else rules the keyword out. */
  lemma KeywordMismatch(s: string, i: nat, kw: string, j: nat)
    requires j < |kw| && i + j < |s| && LowerChar(s[i + j]) != kw[j]
    ensures !KeywordAt(s, i, kw)
  {
  }

  /** A keyword occurrence is a stretch whose lower-cased form is the keyword. */
  lemma KeywordAtLower(s: string, i: nat, kw: string)
    requires i + |kw| <= |s|
    ensures KeywordAt(s, i, kw) <==> Lower(s[i..i + |kw|]) == kw
  {
    var x := s[i..i + |kw|];
    assert forall j :: 0 <= j < |kw| ==> x[j] == s[i + j];
    if KeywordAt(s, i, kw) {
      assert forall j :: 0 <= j < |kw| ==> Lower(x)[j] == kw[j];
    }
  }

  /** Index of the first alternative of `kws` that occurs at `i`: the
      alternation `(a|b|c)` tries its branches in order. */
  function FirstKeywordAt(s: string, i: nat, kws: seq<string>): (r: Option<nat>)
    ensures r.Some? ==> r.value < |kws| && KeywordAt(s, i, kws[r.value])
    ensures r.Some? ==> forall j :: 0 <= j < r.value ==> !KeywordAt(s, i, kws[j])
    ensures r.None? ==> forall j :: 0 <= j < |kws| ==> !KeywordAt(s, i, kws[j])
  {
    if kws == [] then None
    else if KeywordAt(s, i, kws[0]) then Some(0)
    else match FirstKeywordAt(s, i, kws[1..])
      case Some(j) => Some(j + 1)
      case None => None
  }

  /** `k` is where the first separator (`-`, `–`, `—` or `|`) of `s` stands,
      or the length of `s` when it has none. */
  predicate FirstSeparatorAt(s: string, k: nat) {
    k <= |s| && (forall j :: 0 <= j < k ==> !In(s[j], NameSep)) && (k < |s| ==> In(s[k], NameSep))
  }

  /** The text before the first separator is the run of non-separators. */
  lemma FirstSeparatorRun(s: string, k: nat)
    requires FirstSeparatorAt(s, k)
    ensures Run(s, 0, NotNameSep) == k
  {
    RunUnique(s, 0, NotNameSep, k);
  }

  /** Every string has a first separator position: the end of its leading
      run of non-separators. */
  lemma FirstSeparatorExists(s: string)
    ensures FirstSeparatorAt(s, Run(s, 0, NotNameSep))
  {
    var k := Run(s, 0, NotNameSep);
    forall j | 0 <= j < k ensures !In(s[j], NameSep) {
      assert In(s[j], NotNameSep);
    }
  }

  /** Length of the text the first occurring alternative matched. */
  function KeywordLengthAt(s: string, i: nat, kws: seq<string>): (r: Option<nat>)
    ensures r.Some? ==> i + r.value <= |s|
  {
    match FirstKeywordAt(s, i, kws)
    case Some(j) => Some(|kws[j]|)
    case None => None
  }

  /** `at` matches at no position of `s`. */
  predicate Nowhere<T>(s: string, at: string -> Option<T>) {
    forall j :: 0 <= j <= |s| ==> at(s[j..]).None?
  }

  /** `v` is what `at` reports at the first position of `s` where it matches. */
  predicate FirstMatchIs<T(==)>(s: string, at: string -> Option<T>, v: Option<T>) {
    v.Some? && exists p :: 0 <= p <= |s| && at(s[p..]) == v && forall j :: 0 <= j < p ==> at(s[j..]).None?
  }

  /** The first position, at or after 0, at which `at` matches, with what it
      returned: how `match` finds the leftmost match of a regular
      expression that has no look-behind and no anchor. */
  function Leftmost<T>(s: string, at: string -> Option<T>): (r: Option<(nat, T)>)
    ensures r.Some? ==> r.value.0 <= |s| && at(s[r.value.0..]) == Some(r.value.1)
    ensures r.Some? ==> forall j :: 0 <= j < r.value.0 ==> at(s[j..]).None?
    ensures r.None? ==> forall j :: 0 <= j <= |s| ==> at(s[j..]).None?
  {
    match at(s)
    case Some(v) => Some((0, v))
    case None =>
      if s == [] then None
      else
        var rest := Leftmost(s[1..], at);
        assert forall j :: 1 <= j <= |s| ==> s[1..][j - 1..] == s[j..];
        match rest
        case Some(p) => Some((p.0 + 1, p.1))
        case None => None
  }

  /** A pattern that matches at the very start is found there. */
  lemma LeftmostAtStart<T>(s: string, at: string -> Option<T>)
    requires at(s).Some?
    ensures Leftmost(s, at) == Some((0, at(s).value))
  {
  }

  /** An element of a pattern built from optional characters and
      fixed-count classes, such as the phone number pattern. */
  datatype Elem = Opt(k: CharClass) | Exactly(k: CharClass, n: nat)

  predicate AllIn(s: string, k: CharClass) {
    forall j :: 0 <= j < |s| ==> In(s[j], k)
  }

  /** A run from `a` that stops at `b`. */
  lemma RunTo(s: string, a: nat, b: nat, k: CharClass)
    requires a <= b <= |s| && (forall j :: a <= j < b ==> In(s[j], k))
    requires b < |s| ==> !In(s[b], k)
    ensures Run(s, a, k) == b - a
  {
    RunUnique(s, a, k, b - a);
  }

  /** Any prefix of a run lies wholly in the class. */
  lemma RunSliceAllIn(s: string, i: nat, k: CharClass, d: nat)
    requires i <= |s| && d <= Run(s, i, k)
    ensures AllIn(s[i..i + d], k)
  {
    var r := s[i..i + d];
    forall j | 0 <= j < d ensures In(r[j], k) { assert r[j] == s[i + j]; }
  }

  /** Length of the match of `es` at the start of `t`, following the
      backtracking order of greedy `?`: take the optional character and
      continue; if that fails, go on without it. */
  function MatchElems(t: string, es: seq<Elem>): (r: Option<nat>)
    ensures r.Some? ==> r.value <= |t|
    decreases |es|
  {
    if es == [] then Some(0)
    else match es[0]
      case Opt(k) =>
        var taken := if t != [] && In(t[0], k) then MatchElems(t[1..], es[1..]) else None;
        if taken.Some? then Some(taken.value + 1) else MatchElems(t, es[1..])
      case Exactly(k, n) =>
        if n <= |t| && AllIn(t[..n], k) then
          match MatchElems(t[n..], es[1..])
          case Some(m) => Some(m + n)
          case None => None
        else None
  }

  /** `t` starts with `n` characters that `es` can match: each optional
      element takes one character of its class or none, each fixed-count
      element exactly its count of characters of its class. */
  predicate ElemsMatch(t: string, es: seq<Elem>, n: nat)
    decreases |es|
  {
    if es == [] then n == 0
    else match es[0]
      case Opt(k) =>
        (t != [] && In(t[0], k) && 1 <= n && ElemsMatch(t[1..], es[1..], n - 1))
        || ElemsMatch(t, es[1..], n)
      case Exactly(k, c) =>
        c <= |t| && AllIn(t[..c], k) && c <= n && ElemsMatch(t[c..], es[1..], n - c)
  }

  /** What the matcher reports is a match of the pattern. */
  lemma {:induction false} MatchElemsSound(t: string, es: seq<Elem>)
    requires MatchElems(t, es).Some?
    ensures ElemsMatch(t, es, MatchElems(t, es).value)
    decreases |es|
  {
    if es != [] {
      match es[0]
      case Opt(k) =>
        var taken := if t != [] && In(t[0], k) then MatchElems(t[1..], es[1..]) else None;
        if taken.Some? {
          MatchElemsSound(t[1..], es[1..]);
        } else {
          MatchElemsSound(t, es[1..]);
        }
      case Exactly(k, c) =>
        MatchElemsSound(t[c..], es[1..]);
    }
  }

  /** Whenever the text starts with some match of the pattern, the matcher
      reports one. */
  lemma {:induction false} MatchElemsComplete(t: string, es: seq<Elem>, n: nat)
    requires ElemsMatch(t, es, n)
    ensures MatchElems(t, es).Some?
    decreases |es|
  {
    if es != [] {
      match es[0]
      case Opt(k) =>
        if t != [] && In(t[0], k) && 1 <= n && ElemsMatch(t[1..], es[1..], n - 1) {
          MatchElemsComplete(t[1..], es[1..], n - 1);
        } else {
          MatchElemsComplete(t, es[1..], n);
        }
      case Exactly(k, c) =>
        MatchElemsComplete(t[c..], es[1..], n - c);
    }
  }

  /** The decimal value of a string of digits, as `parseInt` reads it. */
  function DecimalValue(d: string): (v: nat)
    requires AllIn(d, Digit)
  {
    if d == [] then 0
    else DecimalValue(d[..|d| - 1]) * 10 + (d[|d| - 1] as int - '0' as int)
  }
}
