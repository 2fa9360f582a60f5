/** The regular expressions of the lead-search route, each as a named
    scanner. A scanner `XAt(t)` says whether the expression matches at the
    very start of `t` (and what it captures); `Leftmost` then gives the
    match `String.prototype.match` reports. Where a pattern could backtrack,
    the comment says why the scanner's single choice is the one the
    backtracking engine ends with. */
module Patterns {
  import opened Text
  import opened Scan

  // ---------------------------------------------------------------------
  // E-mail: /([a-zA-Z0-9._%+-]+@[a-zA-Z0-9.-]+\.[a-zA-Z]{2,})/

  /** `t` starts with an address of the pattern's shape: `l` local-part
      characters, `@`, `d` domain characters, `.`, and `m` letters. */
  predicate EmailShape(t: string, l: nat, d: nat, m: nat) {
    1 <= l && 1 <= d && 2 <= m && l + 1 + d + 1 + m <= |t|
    && AllIn(t[..l], EmailLocal) && t[l] == '@'
    && AllIn(t[l + 1..l + 1 + d], EmailDomain) && t[l + 1 + d] == '.'
    && AllIn(t[l + 1 + d + 1..l + 1 + d + 1 + m], Letter)
  }

  /** The local part must be the whole run before `@` (`@` is not in its
      class). The greedy domain part gives back characters until a `.`
      followed by two letters ends it; the top-level domain then takes every
      letter that follows. */
  function EmailAt(t: string): (r: Option<nat>)
    ensures r.Some? ==> 0 < Run(t, 0, EmailLocal) < r.value <= |t|
    ensures r.Some? ==> t[Run(t, 0, EmailLocal)] == '@'
  {
    var l := Run(t, 0, EmailLocal);
    if l == 0 || l >= |t| || t[l] != '@' then None
    else
      var k := l + 1;
      match LastTldDot(t, k, Run(t, k, EmailDomain))
      case None => None
      case Some(d) => Some(k + d + 1 + Run(t, k + d + 1, Letter))
  }

  /** A `.` at `k + d` followed by two letters. */
  predicate TldDotAt(t: string, k: nat, d: nat) {
    k + d + 2 < |t| && t[k + d] == '.' && IsLetter(t[k + d + 1]) && IsLetter(t[k + d + 2])
  }

  /** The largest `d` in [1, `len`) such that a `.` at `k + d` is followed by
      two letters: where the backtracking domain part first succeeds. */
  function LastTldDot(t: string, k: nat, len: nat): (r: Option<nat>)
    ensures r.Some? ==> 1 <= r.value < len && TldDotAt(t, k, r.value)
    ensures r.Some? ==> forall d :: r.value < d < len ==> !TldDotAt(t, k, d)
    ensures r.None? ==> forall d :: 1 <= d < len ==> !TldDotAt(t, k, d)
    decreases len
  {
    if len <= 1 then None
    else if TldDotAt(t, k, len - 1) then Some(len - 1)
    else LastTldDot(t, k, len - 1)
  }

  /** Every address of the pattern's shape has the whole local run before
      its `@`, and its dot lies inside the domain run. */
  lemma EmailShapeParts(t: string, l: nat, d: nat, m: nat)
    requires EmailShape(t, l, d, m)
    ensures l == Run(t, 0, EmailLocal)
    ensures d < Run(t, l + 1, EmailDomain) && TldDotAt(t, l + 1, d)
  {
    assert l == Run(t, 0, EmailLocal) by {
      forall j | 0 <= j < l ensures In(t[j], EmailLocal) { assert t[..l][j] == t[j]; }
      RunUnique(t, 0, EmailLocal, l);
    }
    var k := l + 1;
    assert d < Run(t, k, EmailDomain) by {
      forall j | k <= j < k + d + 1 ensures In(t[j], EmailDomain) {
        if j < k + d { assert t[k..k + d][j - k] == t[j]; }
      }
      RunCovers(t, k, EmailDomain, d + 1);
    }
    assert t[k + d + 1..k + d + 1 + m][0] == t[k + d + 1];
    assert t[k + d + 1..k + d + 1 + m][1] == t[k + d + 1 + 1];
  }

  /** Whenever the text starts with an address of the pattern's shape, the
      pattern matches there. */
  lemma EmailAtComplete(t: string, l: nat, d: nat, m: nat)
    requires EmailShape(t, l, d, m)
    ensures EmailAt(t).Some?
  {
    EmailShapeParts(t, l, d, m);
  }

  /** What the pattern matches has the pattern's shape, and the top-level
      domain takes every letter after its dot. */
  lemma EmailAtSound(t: string) returns (l: nat, d: nat, m: nat)
    requires EmailAt(t).Some?
    ensures EmailShape(t, l, d, m) && EmailAt(t).value == l + 1 + d + 1 + m
    ensures l + 1 + d + 1 + m < |t| ==> !IsLetter(t[l + 1 + d + 1 + m])
    ensures d == LastTldDot(t, l + 1, Run(t, l + 1, EmailDomain)).value
  {
    l := Run(t, 0, EmailLocal);
    d := LastTldDot(t, l + 1, Run(t, l + 1, EmailDomain)).value;
    m := Run(t, l + 1 + d + 1, Letter);
    EmailRuns(t, l, Run(t, l + 1, EmailDomain), d, m);
  }

  /** The runs the scanner measured, put together, have the pattern's shape. */
  lemma EmailRuns(t: string, l: nat, n: nat, d: nat, m: nat)
    requires 1 <= l < |t| && l == Run(t, 0, EmailLocal) && t[l] == '@'
    requires l + 1 <= |t| && n == Run(t, l + 1, EmailDomain)
    requires 1 <= d < n && TldDotAt(t, l + 1, d)
    requires l + 1 + d + 1 <= |t| && m == Run(t, l + 1 + d + 1, Letter)
    ensures EmailShape(t, l, d, m)
    ensures l + 1 + d + 1 + m < |t| ==> !IsLetter(t[l + 1 + d + 1 + m])
  {
    assert 2 <= m by { RunCovers(t, l + 1 + d + 1, Letter, 2); }
    assert AllIn(t[..l], EmailLocal) by {
      RunSlice(t, 0, EmailLocal);
      assert t[..l] == t[0..0 + Run(t, 0, EmailLocal)];
    }
    assert AllIn(t[l + 1..l + 1 + d], EmailDomain) by { RunPrefixSlice(t, l + 1, EmailDomain, d); }
    assert AllIn(t[l + 1 + d + 1..l + 1 + d + 1 + m], Letter) by { RunSlice(t, l + 1 + d + 1, Letter); }
  }

  /** The reported address has the longest domain part of all addresses of
      the pattern's shape at that position. */
  lemma EmailAtLongest(t: string) returns (l: nat, d: nat, m: nat)
    requires EmailAt(t).Some?
    ensures EmailShape(t, l, d, m) && EmailAt(t).value == l + 1 + d + 1 + m
    ensures forall d', m' :: d < d' ==> !EmailShape(t, l, d', m')
  {
    l, d, m := EmailAtSound(t);
    forall d', m' | d < d' && EmailShape(t, l, d', m') ensures false {
      EmailShapeParts(t, l, d', m');
    }
  }

  /** The first e-mail address in the text, if any: the text of the
      pattern's leftmost match. */
  function FindEmail(s: string): (r: Option<string>)
    ensures r.Some? ==> Run(r.value, 0, EmailLocal) < |r.value| && r.value[Run(r.value, 0, EmailLocal)] == '@'
    ensures r.None? <==> forall j :: 0 <= j <= |s| ==> EmailAt(s[j..]).None?
    ensures r.Some? ==> exists i :: (0 <= i <= |s| && EmailAt(s[i..]).Some?
      && r.value == s[i..][..EmailAt(s[i..]).value]
      && forall j :: 0 <= j < i ==> EmailAt(s[j..]).None?)
  {
    match Leftmost(s, EmailAt)
    case None => None
    case Some(hit) =>
      var t := s[hit.0..];
      var e := t[..hit.1];
      assert Run(e, 0, EmailLocal) == Run(t, 0, EmailLocal) by { RunOfPrefixSeq(t, e, 0, EmailLocal); }
      Some(e)
  }

  /** A text with an address of the pattern's shape anywhere yields an address. */
  lemma FindEmailFinds(s: string, i: nat, l: nat, d: nat, m: nat)
    requires i <= |s| && EmailShape(s[i..], l, d, m)
    ensures FindEmail(s).Some?
  {
    EmailAtComplete(s[i..], l, d, m);
  }

  /** A run computed inside a prefix that contains the whole run is the same run. */
  lemma RunOfPrefixSeq(t: string, e: string, i: nat, k: CharClass)
    requires e <= t && i <= |e|
    requires i + Run(t, i, k) < |e|
    ensures Run(e, i, k) == Run(t, i, k)
  {
    var n := Run(t, i, k);
    assert forall j :: i <= j <= i + n ==> e[j] == t[j];
    RunUnique(e, i, k, n);
  }

  // ---------------------------------------------------------------------
  // Phone: /(\+?1?[-.\s]?\(?\d{3}\)?[-.\s]?\d{3}[-.\s]?\d{4})/

  const PhonePattern: seq<Elem> := [
    Opt(Lit('+')), Opt(Lit('1')), Opt(PhoneSep), Opt(Lit('(')), Exactly(Digit, 3),
    Opt(Lit(')')), Opt(PhoneSep), Exactly(Digit, 3), Opt(PhoneSep), Exactly(Digit, 4)
  ]

  /** The first US-style phone number in the text, if any. */
  function FindPhone(s: string): (r: Option<string>)
    ensures r.None? <==> forall j :: 0 <= j <= |s| ==> MatchElems(s[j..], PhonePattern).None?
    ensures r.Some? ==> exists i :: (0 <= i <= |s| && MatchElems(s[i..], PhonePattern).Some?
      && r.value == s[i..][..MatchElems(s[i..], PhonePattern).value]
      && forall j :: 0 <= j < i ==> MatchElems(s[j..], PhonePattern).None?)
    ensures r.Some? ==> DigitCount(r.value) >= 10
  {
    FindElems(s, PhonePattern)
  }

  /** The leftmost match of a pattern of `Elem`s: nothing exactly when it
      matches nowhere, else the text it matches at the first position
      where it matches. */
  function FindElems(s: string, es: seq<Elem>): (r: Option<string>)
    ensures r.None? <==> forall j :: 0 <= j <= |s| ==> MatchElems(s[j..], es).None?
    ensures r.Some? ==> exists i :: (0 <= i <= |s| && MatchElems(s[i..], es).Some?
      && r.value == s[i..][..MatchElems(s[i..], es).value]
      && forall j :: 0 <= j < i ==> MatchElems(s[j..], es).None?)
    ensures r.Some? ==> DigitCount(r.value) >= DigitsRequired(es)
  {
    match Leftmost(s, t => MatchElems(t, es))
    case None => None
    case Some(hit) =>
      var t := s[hit.0..];
      MatchedDigits(t, es);
      Some(t[..hit.1])
  }

  /** The reported number is a match of the phone pattern. */
  lemma FindPhoneSound(s: string) returns (i: nat)
    requires FindPhone(s).Some?
    ensures i <= |s| && FindPhone(s).value <= s[i..]
    ensures ElemsMatch(s[i..], PhonePattern, |FindPhone(s).value|)
  {
    var hit := Leftmost(s, t => MatchElems(t, PhonePattern)).value;
    i := hit.0;
    MatchElemsSound(s[i..], PhonePattern);
  }

  /** A text holding a match of the phone pattern anywhere yields a number. */
  lemma FindPhoneFinds(s: string, i: nat, n: nat)
    requires i <= |s| && ElemsMatch(s[i..], PhonePattern, n)
    ensures FindPhone(s).Some?
  {
    MatchElemsComplete(s[i..], PhonePattern, n);
  }

  function DigitCount(s: string): nat {
    if s == [] then 0 else (if IsDigit(s[0]) then 1 else 0) + DigitCount(s[1..])
  }

  /** Digits a pattern demands through its fixed-count digit elements. */
  function DigitsRequired(es: seq<Elem>): nat {
    if es == [] then 0
    else (match es[0] case Exactly(Digit, n) => n case _ => 0) + DigitsRequired(es[1..])
  }

  lemma {:induction false} DigitCountAppend(a: string, b: string)
    ensures DigitCount(a + b) == DigitCount(a) + DigitCount(b)
  {
    if a == [] {
      assert a + b == b;
    } else {
      assert (a + b)[1..] == a[1..] + b;
      DigitCountAppend(a[1..], b);
    }
  }

  lemma {:induction false} DigitCountAllDigits(s: string)
    requires AllIn(s, Digit)
    ensures DigitCount(s) == |s|
  {
    if s != [] {
      DigitCountAllDigits(s[1..]);
    }
  }

  /** Whatever the matcher accepts holds every digit the pattern demands. */
  lemma {:induction false} MatchedDigits(t: string, es: seq<Elem>)
    ensures MatchElems(t, es).Some? ==> DigitCount(t[..MatchElems(t, es).value]) >= DigitsRequired(es)
    decreases |es|
  {
    if es != [] && MatchElems(t, es).Some? {
      var m := MatchElems(t, es).value;
      match es[0]
      case Opt(k) =>
        var taken := if t != [] && In(t[0], k) then MatchElems(t[1..], es[1..]) else None;
        if taken.Some? {
          MatchedDigits(t[1..], es[1..]);
          assert m == 1 + taken.value;
          PrefixSplit(t, 1, taken.value);
          assert t[..1] == [t[0]];
          DigitCountAppend([t[0]], t[1..][..taken.value]);
        } else {
          MatchedDigits(t, es[1..]);
        }
      case Exactly(k, n) =>
        var rest := MatchElems(t[n..], es[1..]).value;
        MatchedDigits(t[n..], es[1..]);
        assert m == n + rest;
        PrefixSplit(t, n, rest);
        DigitCountAppend(t[..n], t[n..][..rest]);
        if k == Digit {
          DigitCountAllDigits(t[..n]);
        }
    }
  }

  lemma PrefixSplit(t: string, n: nat, k: nat)
    requires n + k <= |t|
    ensures t[..n + k] == t[..n] + t[n..][..k]
  {
  }

  // ---------------------------------------------------------------------
  // LinkedIn result titles: "Name - Title - Company | LinkedIn"

  /** `/^([^-–—|]+)/`, trimmed: the text before the first separator, or no
      match when the title starts with a separator or is empty. */
  function LeadingName(title: string): (r: Option<string>)
    ensures r.Some? <==> title != [] && !In(title[0], NameSep)
  {
    var n := Run(title, 0, NotNameSep);
    if n == 0 then None else Some(Trim(title[..n]))
  }

  /** The name is the trimmed text before the title's first separator. */
  lemma LeadingNameBeforeSeparator(title: string, k: nat)
    requires FirstSeparatorAt(title, k)
    ensures LeadingName(title) == if k == 0 then None else Some(Trim(title[..k]))
  {
    FirstSeparatorRun(title, k);
  }

  /** A leading name holds no separator and has no white space at either
      end; it is empty only when the text before the separator is all
      white space. */
  lemma LeadingNameShape(title: string)
    requires LeadingName(title).Some?
    ensures var n := LeadingName(title).value;
      (n != [] ==> !IsSpace(n[0]) && !IsSpace(n[|n| - 1])) && forall i :: 0 <= i < |n| ==> !In(n[i], NameSep)
  {
    var k := Run(title, 0, NotNameSep);
    var lo := TrimShape(title[..k]);
    var n := Trim(title[..k]);
    forall i | 0 <= i < |n| ensures !In(n[i], NameSep) {
      assert n[i] == title[..k][lo + i] == title[lo + i];
      assert In(title[lo + i], NotNameSep);
    }
  }

  /** `/[-–—]\s*([^-–—|]+?)(?:\s*[-–—|]|$)/` at the start of `t`, with the
      capture trimmed. After the dash `\s*` is greedy; when a non-separator
      follows, the lazy group stops at the trailing white space of that
      run, which trim() removes. When a separator or the end follows the
      white space, `\s*` gives back one white-space character, which the
      group captures alone: the trimmed title is then empty. With no white
      space there is nothing to give back and this dash fails. */
  function DashTitleAt(t: string): (r: Option<string>)
    ensures r.Some? <==> 2 <= |t| && In(t[0], Dash) && !In(t[1], NameSep)
  {
    if t == [] || !In(t[0], Dash) then None
    else
      var w := Run(t, 1, Space);
      var start := 1 + w;
      if start < |t| && !In(t[start], NameSep) then Some(Trim(t[start..start + Run(t, start, NotNameSep)]))
      else if w > 0 then Some("")
      else None
  }

  /** A dash followed by a non-separator captures the trimmed text up to
      the next separator (or the end); a dash followed by a separator or
      the end matches nothing. */
  lemma DashTitleBeforeSeparator(t: string, k: nat)
    requires t != [] && In(t[0], Dash) && FirstSeparatorAt(t[1..], k)
    ensures DashTitleAt(t) == if k == 0 then None else Some(Trim(t[1..1 + k]))
  {
    var u := t[1..];
    var w := Run(t, 1, Space);
    assert Run(u, 0, Space) == w by { RunOfSuffix(t, 1, 0, Space); }
    if 1 + w < |t| && !In(t[1 + w], NameSep) {
      var n := Run(t, 1 + w, NotNameSep);
      DashTitleFound(t, k, u, w, n);
      DashTitleAtUnfold(t, w, n);
    } else {
      DashTitleMissing(t, k, u, w);
    }
  }

  lemma DashTitleFound(t: string, k: nat, u: string, w: nat, n: nat)
    requires t != [] && u == t[1..] && FirstSeparatorAt(u, k)
    requires w == Run(t, 1, Space) && w == Run(u, 0, Space)
    requires 1 + w < |t| && !In(t[1 + w], NameSep) && n == Run(t, 1 + w, NotNameSep)
    ensures k == w + n && 0 < k && Trim(t[1 + w..1 + w + n]) == Trim(t[1..1 + k])
  {
    var start := 1 + w;
    assert k == w + n && Trim(u[w..k]) == Trim(u[..k]) by {
      assert u[w] == t[start];
      assert Run(u, w, NotNameSep) == n by { RunOfSuffix(t, 1, w, NotNameSep); }
      TitleAfterSpaces(u, k, w, n);
    }
    assert n > 0 by { assert In(t[start], NotNameSep); }
    TrimOfSuffix(t, u, w, n, k);
  }

  /** Moves an equation between trimmed slices of `t[1..]` back to `t`. */
  lemma TrimOfSuffix(t: string, u: string, w: nat, n: nat, k: nat)
    requires k == w + n && 1 + k <= |t| && u == t[1..]
    requires Trim(u[w..k]) == Trim(u[..k])
    ensures Trim(t[1 + w..1 + w + n]) == Trim(t[1..1 + k])
  {
    SliceOfSuffix(t, u, 1, w, k);
    SliceOfSuffix(t, u, 1, 0, k);
  }

  /** The capture when a non-separator follows the white space after the dash. */
  lemma DashTitleAtUnfold(t: string, w: nat, n: nat)
    requires t != [] && In(t[0], Dash) && w == Run(t, 1, Space)
    requires 1 + w < |t| && !In(t[1 + w], NameSep) && n == Run(t, 1 + w, NotNameSep)
    ensures DashTitleAt(t) == Some(Trim(t[1 + w..1 + w + n]))
  {
  }

  lemma SliceOfSuffix(t: string, u: string, d: nat, i: nat, j: nat)
    requires i <= j && d + j <= |t| && u == t[d..]
    ensures u[i..j] == t[d + i..d + j]
  {
  }

  lemma DashTitleMissing(t: string, k: nat, u: string, w: nat)
    requires t != [] && In(t[0], Dash) && u == t[1..] && FirstSeparatorAt(u, k)
    requires w == Run(t, 1, Space) && w == Run(u, 0, Space)
    requires !(1 + w < |t| && !In(t[1 + w], NameSep))
    ensures DashTitleAt(t) == if k == 0 then None else Some(Trim(t[1..1 + k]))
  {
    assert k == w && Trim(u[..k]) == [] by {
      assert w < |u| ==> u[w] == t[1 + w];
      NoTitleAfterSpaces(u, k, w);
    }
    assert t[1..1 + k] == u[..k];
  }

  /** When a non-separator follows the white space that opens `u`, the
      text up to the first separator, trimmed, is that text after the
      white space, trimmed. */
  lemma TitleAfterSpaces(u: string, k: nat, w: nat, n: nat)
    requires FirstSeparatorAt(u, k) && w == Run(u, 0, Space)
    requires w < |u| && !In(u[w], NameSep) && n == Run(u, w, NotNameSep)
    ensures k == w + n && Trim(u[w..k]) == Trim(u[..k])
  {
    SpacesNotSeparators(u, w);
    RunSplit(u, w, NotNameSep);
    FirstSeparatorExists(u);
    FirstSeparatorUnique(u, k, Run(u, 0, NotNameSep));
    TrimAfterSpaces(u, w, k);
  }

  /** White space is no separator. */
  lemma SpacesNotSeparators(u: string, w: nat)
    requires w == Run(u, 0, Space)
    ensures Run(u, 0, NotNameSep) >= w
  {
    forall j | 0 <= j < w ensures In(u[j], NotNameSep) { assert In(u[j], Space); }
    RunCovers(u, 0, NotNameSep, w);
  }

  /** Leading white space does not change what `trim()` keeps. */
  lemma TrimAfterSpaces(u: string, w: nat, k: nat)
    requires w <= k <= |u| && w <= Run(u, 0, Space)
    ensures Trim(u[w..k]) == Trim(u[..k])
  {
    var x := u[..k];
    forall j | 0 <= j < w ensures IsSpace(x[j]) { assert In(u[j], Space); }
    TrimDropsSpaces(x, w, k);
    assert x[w..k] == u[w..k];
  }

  /** When a separator or the end follows the white space that opens `u`,
      the text before the first separator is that white space. */
  lemma NoTitleAfterSpaces(u: string, k: nat, w: nat)
    requires FirstSeparatorAt(u, k) && w == Run(u, 0, Space)
    requires !(w < |u| && !In(u[w], NameSep))
    ensures k == w && Trim(u[..k]) == []
  {
    assert k == w by {
      SpacesNotSeparators(u, w);
      FirstSeparatorRun(u, k);
    }
    TrimAfterSpaces(u, w, k);
    assert u[w..k] == [];
  }

  /** The first separator position is unique. */
  lemma FirstSeparatorUnique(s: string, a: nat, b: nat)
    requires FirstSeparatorAt(s, a) && FirstSeparatorAt(s, b)
    ensures a == b
  {
  }

  /** The raw job title: the group of the leftmost dash at which the pattern matches. */
  function DashTitle(title: string): (r: Option<string>)
    ensures r.None? <==> forall j :: 0 <= j <= |title| ==> DashTitleAt(title[j..]).None?
    ensures r.Some? ==> exists i :: (0 <= i <= |title| && DashTitleAt(title[i..]) == r
      && forall j :: 0 <= j < i ==> DashTitleAt(title[j..]).None?)
  {
    match Leftmost(title, DashTitleAt)
    case None => None
    case Some(hit) => Some(hit.1)
  }

  /** `/\s*at\s+.*$/i` at the start of `t`: white space, "at" in any case,
      at least one white-space character, then no line terminator up to the
      end (`.` stops at one and `$` needs the end). Matches run to the end. */
  function AtSuffixAt(t: string): (r: Option<nat>)
    ensures r.Some? ==> r.value == |t|
  {
    var w := Run(t, 0, Space);
    if KeywordAt(t, w, "at") && Run(t, w + 2, Space) >= 1 && AllIn(t[w + 2 + Run(t, w + 2, Space)..], NotLineEnd)
    then Some(|t|) else None
  }

  /** `jobTitle.replace(/\s*at\s+.*$/i, '').trim()`. */
  function StripAtSuffix(s: string): (r: string)
    ensures |r| <= |s|
  {
    match Leftmost(s, AtSuffixAt)
    case None => Trim(s)
    case Some(hit) => Trim(s[..hit.0])
  }

  // ---------------------------------------------------------------------
  // Names with titles in website snippets.

  /** The title vocabulary, in the order of the alternation. */
  const TitleWords: seq<string> := [
    "ceo", "cto", "cfo", "coo", "founder", "owner", "president",
    "director", "manager", "vp", "vice president"
  ]

  datatype NameTitle = NameTitle(name: string, title: string)

  /** Where a name-title match put its two groups, relative to the start
      of the match: the name is `t[..nameEnd]` and the title
      `t[titleAt..titleAt + titleLen]`, both trimmed afterwards. */
  datatype Span = Span(nameEnd: nat, titleAt: nat, titleLen: nat)

  /** The title group is an alternative of `words` that occurs where it starts. */
  predicate TitleSpan(t: string, sp: Span, words: seq<string>) {
    sp.nameEnd <= sp.titleAt && KeywordLengthAt(t, sp.titleAt, words) == Some(sp.titleLen)
  }

  /** `[A-Z][a-z]+\s+[A-Z][a-z]+` under the i flag: two letter runs of two
      or more, separated by white space. The first run and the white space
      are maximal (a letter is needed right after each). Gives the start and
      the full length of the second run. */
  function TwoWordsAt(t: string): (r: Option<(nat, nat)>)
    ensures r.Some? ==> r.value.1 >= 2 && r.value.0 + r.value.1 <= |t|
    ensures r.Some? ==> AllIn(t[r.value.0..r.value.0 + r.value.1], Letter)
  {
    var first := Run(t, 0, Letter);
    if first < 2 then None
    else
      var gap := Run(t, first, Space);
      if gap == 0 then None
      else
        var j := first + gap;
        var second := Run(t, j, Letter);
        if second < 2 then None else Some((j, second))
  }

  /** `t` starts with two words: `a` letters, `g` white-space characters
      and `b` letters, with at least two letters in each word. */
  predicate TwoWords(t: string, a: nat, g: nat, b: nat) {
    2 <= a && 1 <= g && 2 <= b && a + g + b <= |t|
    && (forall i :: 0 <= i < a ==> In(t[i], Letter))
    && (forall i :: a <= i < a + g ==> In(t[i], Space))
    && (forall i :: a + g <= i < a + g + b ==> In(t[i], Letter))
  }

  /** The scanner's result is two words whose second word no letter extends. */
  lemma TwoWordsAtSound(t: string) returns (a: nat, g: nat)
    requires TwoWordsAt(t).Some?
    ensures var (j, b) := TwoWordsAt(t).value;
      j == a + g && TwoWords(t, a, g, b) && (j + b < |t| ==> !IsLetter(t[j + b]))
  {
    a := Run(t, 0, Letter);
    g := Run(t, a, Space);
  }

  /** Any two words at the start are found: the second word starts where
      theirs does and is at least as long. */
  lemma TwoWordsAtComplete(t: string, a: nat, g: nat, b: nat)
    requires TwoWords(t, a, g, b)
    ensures TwoWordsAt(t).Some? && TwoWordsAt(t).value.0 == a + g && b <= TwoWordsAt(t).value.1
  {
    assert Run(t, 0, Letter) == a by {
      assert In(t[a], Space);
      RunUnique(t, 0, Letter, a);
    }
    assert Run(t, a, Space) == g by {
      assert In(t[a + g], Letter);
      RunUnique(t, a, Space, g);
    }
    RunCovers(t, a + g, Letter, b);
  }

  /** A shorter second word still makes two words. */
  lemma TwoWordsShorter(t: string, a: nat, g: nat, b: nat, c: nat)
    requires TwoWords(t, a, g, b) && 2 <= c <= b
    ensures TwoWords(t, a, g, c)
  {
  }

  /** The two words, cut out of the text, are two words on their own. */
  lemma TwoWordsPrefix(t: string, a: nat, g: nat, b: nat)
    requires TwoWords(t, a, g, b)
    ensures TwoWords(t[..a + g + b], a, g, b)
  {
    var x := t[..a + g + b];
    assert forall i :: 0 <= i < |x| ==> x[i] == t[i];
  }

  /** Two words have nothing for `trim()` to remove. */
  lemma TwoWordsTrimmed(x: string, a: nat, g: nat)
    requires a + g + 2 <= |x| && TwoWords(x, a, g, |x| - a - g)
    ensures Trim(x) == x
  {
    assert In(x[0], Letter) && In(x[|x| - 1], Letter);
    TrimIdle(x);
  }

  /** `,?\s*` between the name, ending at `p`, and the title, starting at `r`. */
  predicate CommaGap(t: string, p: nat, r: nat) {
    p <= r <= |t| && forall i :: p <= i < r ==> (i == p && t[i] == ',') || In(t[i], Space)
  }

  /** `\s*[-–—]\s*` between the name, ending at `p`, and the title,
      starting at `r`, with the dash at `q`. */
  predicate DashGap(t: string, p: nat, q: nat, r: nat) {
    p <= q < r <= |t|
    && (forall i :: p <= i < q ==> In(t[i], Space)) && In(t[q], Dash)
    && (forall i :: q < i < r ==> In(t[i], Space))
  }

  /** `/([A-Z][a-z]+\s+[A-Z][a-z]+),?\s*(CEO|…|Vice President)/i` at the
      start of `t`. Since a title starts with a letter, the greedy second
      word may give letters back to it ("John SmithCEO" yields "John Smith"
      and "CEO"); this tries each length of the second word, longest first. */
  function CommaTitleAt(t: string): Option<Span> {
    CommaTitle(t, TitleWords)
  }

  /** The comma form with the alternation of `words` as its title group. */
  function CommaTitle(t: string, words: seq<string>): (r: Option<Span>)
    ensures r.Some? ==> TitleSpan(t, r.value, words) && CommaGap(t, r.value.nameEnd, r.value.titleAt)
  {
    match TwoWordsAt(t)
    case None => None
    case Some(w) => ShortenedSecondWord(t, w.0, w.1, words)
  }

  /** The longest second word, of at least two letters and at most `len`,
      after which the title follows; the name ends with that word. */
  function ShortenedSecondWord(t: string, j: nat, len: nat, words: seq<string>): (r: Option<Span>)
    requires j + len <= |t|
    ensures r.Some? ==> j + 2 <= r.value.nameEnd <= j + len && TitleSpan(t, r.value, words)
    ensures r.Some? ==> CommaGap(t, r.value.nameEnd, r.value.titleAt)
  {
    LastTitleEnd(t, j + 2, j + len, words)
  }

  /** The tail found after the greatest name end `m` from `hi` down to
      `lo` after which the title follows: backtracking tries the longest
      second word first and stops at the first length that works. */
  function LastTitleEnd(t: string, lo: nat, hi: nat, words: seq<string>): (r: Option<Span>)
    requires hi <= |t|
    ensures r.Some? ==> lo <= r.value.nameEnd <= hi && r == CommaTitleAfter(t, r.value.nameEnd, words)
    ensures r.Some? ==> forall m :: r.value.nameEnd < m <= hi ==> CommaTitleAfter(t, m, words).None?
    ensures r.None? ==> forall m :: lo <= m <= hi ==> CommaTitleAfter(t, m, words).None?
    decreases hi
  {
    if hi < lo then None
    else if CommaTitleAfter(t, hi, words).Some? then CommaTitleAfter(t, hi, words)
    else if hi == 0 then None
    else LastTitleEnd(t, lo, hi - 1, words)
  }

  /** `,?\s*(CEO|…|Vice President)` where the name ends at `p`. */
  function CommaTitleAfter(t: string, p: nat, words: seq<string>): (r: Option<Span>)
    requires p <= |t|
    ensures r.Some? ==> r.value.nameEnd == p && TitleSpan(t, r.value, words)
    ensures r.Some? ==> CommaGap(t, p, r.value.titleAt)
  {
    var q := if p < |t| && t[p] == ',' then p + 1 else p;
    var r := q + Run(t, q, Space);
    match KeywordLengthAt(t, r, words)
    case Some(n) => Some(Span(p, r, n))
    case None => None
  }

  /** `/([A-Z][a-z]+\s+[A-Z][a-z]+)\s*[-–—]\s*(CEO|…|Vice President)/i` at the
      start of `t`; here the second word is maximal, for a dash or white
      space must follow it. */
  function DashNameTitleAt(t: string): Option<Span> {
    DashNameTitle(t, TitleWords)
  }

  /** The dash form with the alternation of `words` as its title group. */
  function DashNameTitle(t: string, words: seq<string>): (r: Option<Span>)
    ensures r.Some? ==> TitleSpan(t, r.value, words)
  {
    match TwoWordsAt(t)
    case None => None
    case Some(w) => DashTail(t, w.0 + w.1, words)
  }

  /** `\s*[-–—]\s*(CEO|…|Vice President)` where the name ends at `p`. */
  function DashTail(t: string, p: nat, words: seq<string>): (r: Option<Span>)
    requires p <= |t|
    ensures r.Some? ==> r.value.nameEnd == p && TitleSpan(t, r.value, words)
  {
    var q := p + Run(t, p, Space);
    if q < |t| && In(t[q], Dash) then
      var r := q + 1 + Run(t, q + 1, Space);
      match KeywordLengthAt(t, r, words)
      case Some(n) => Some(Span(p, r, n))
      case None => None
    else None
  }

  /** A match of the comma form is two words, the optional comma and
      white space, and a title word. */
  lemma CommaTitleSound(t: string, words: seq<string>) returns (a: nat, g: nat)
    requires CommaTitle(t, words).Some?
    ensures var sp := CommaTitle(t, words).value;
      a + g + 2 <= sp.nameEnd && TwoWords(t, a, g, sp.nameEnd - a - g)
      && CommaGap(t, sp.nameEnd, sp.titleAt) && TitleSpan(t, sp, words)
  {
    var w := TwoWordsAt(t).value;
    a, g := TwoWordsAtSound(t);
    var sp := CommaTitle(t, words).value;
    TwoWordsShorter(t, a, g, w.1, sp.nameEnd - a - g);
  }

  /** Two words followed by the optional comma, white space and a title
      word always give a match, whose name is at least as long. */
  lemma CommaTitleComplete(t: string, a: nat, g: nat, b: nat, r: nat, words: seq<string>)
    requires LetterBounded(words)
    requires TwoWords(t, a, g, b) && CommaGap(t, a + g + b, r) && KeywordLengthAt(t, r, words).Some?
    ensures CommaTitle(t, words).Some? && a + g + b <= CommaTitle(t, words).value.nameEnd
  {
    TwoWordsAtComplete(t, a, g, b);
    var w := TwoWordsAt(t).value;
    CommaTitleAfterComplete(t, a + g + b, r, words);
    ShortenedFinds(t, w.0, w.1, words, a + g + b);
    CommaTitleOf(t, words, w.0, w.1);
  }

  /** The comma form is the longest shortening of the second word the
      scanner found. */
  lemma CommaTitleOf(t: string, words: seq<string>, j: nat, len: nat)
    requires TwoWordsAt(t) == Some((j, len))
    ensures j + len <= |t| && CommaTitle(t, words) == ShortenedSecondWord(t, j, len, words)
  {
  }

  /** When a title follows the name ending at `p`, the search finds a name
      ending there or later. */
  lemma ShortenedFinds(t: string, j: nat, len: nat, words: seq<string>, p: nat)
    requires j + len <= |t| && j + 2 <= p <= j + len && CommaTitleAfter(t, p, words).Some?
    ensures ShortenedSecondWord(t, j, len, words).Some?
    ensures p <= ShortenedSecondWord(t, j, len, words).value.nameEnd
  {
  }

  /** The comma form's tail is found after a name ending at `p` whenever
      the text there has its shape. */
  lemma CommaTitleAfterComplete(t: string, p: nat, r: nat, words: seq<string>)
    requires LetterBounded(words)
    requires CommaGap(t, p, r) && KeywordLengthAt(t, r, words).Some?
    ensures CommaTitleAfter(t, p, words).Some?
  {
    KeywordStartsWithLetter(t, r, words);
    var q := if p < |t| && t[p] == ',' then p + 1 else p;
    assert q <= r;
    RunUnique(t, q, Space, r - q);
  }

  /** Where an alternative of letter-bounded words occurs there is a letter. */
  lemma KeywordStartsWithLetter(t: string, r: nat, words: seq<string>)
    requires LetterBounded(words) && KeywordLengthAt(t, r, words).Some?
    ensures r < |t| && IsLetter(t[r])
  {
    var k := FirstKeywordAt(t, r, words).value;
    assert LetterBoundedWord(words[k]);
    assert LowerChar(t[r]) == words[k][0];
  }

  /** A match of the dash form is two words whose second word no letter
      extends, white space, a dash, white space and a title word. */
  lemma DashNameTitleSound(t: string, words: seq<string>) returns (a: nat, g: nat, q: nat)
    requires DashNameTitle(t, words).Some?
    ensures var sp := DashNameTitle(t, words).value;
      a + g + 2 <= sp.nameEnd && TwoWords(t, a, g, sp.nameEnd - a - g)
      && !IsLetter(t[sp.nameEnd]) && DashGap(t, sp.nameEnd, q, sp.titleAt) && TitleSpan(t, sp, words)
  {
    var w := TwoWordsAt(t).value;
    var p := w.0 + w.1;
    DashNameTitleOf(t, words, w);
    q := DashTailSound(t, p, words);
    a, g := TwoWordsAtSound(t);
  }

  /** After the name, a dash tail is white space, a dash, white space and
      a title word; it starts with no letter. */
  lemma DashTailSound(t: string, p: nat, words: seq<string>) returns (q: nat)
    requires p <= |t| && DashTail(t, p, words).Some?
    ensures DashGap(t, p, q, DashTail(t, p, words).value.titleAt) && !IsLetter(t[p])
  {
    q := p + Run(t, p, Space);
    assert !IsLetter(t[p]) by {
      DashGapNotLetter(t, p, q, DashTail(t, p, words).value.titleAt);
    }
  }

  /** Two words followed by white space, a dash, white space and a title
      word always give that match. */
  lemma DashNameTitleComplete(t: string, a: nat, g: nat, b: nat, q: nat, r: nat, words: seq<string>)
    requires LetterBounded(words)
    requires TwoWords(t, a, g, b) && DashGap(t, a + g + b, q, r) && KeywordLengthAt(t, r, words).Some?
    ensures DashNameTitle(t, words) == Some(Span(a + g + b, r, KeywordLengthAt(t, r, words).value))
  {
    var w := (a + g, b);
    assert w.0 + w.1 == a + g + b;
    DashGapNotLetter(t, a + g + b, q, r);
    TwoWordsExact(t, a, g, b);
    DashTailComplete(t, a + g + b, q, r, words);
    DashNameTitleOf(t, words, w);
  }

  /** A dash gap starts with white space or the dash: no letter. */
  lemma DashGapNotLetter(t: string, p: nat, q: nat, r: nat)
    requires DashGap(t, p, q, r)
    ensures !IsLetter(t[p])
  {
    if p < q { assert In(t[p], Space); } else { assert In(t[q], Dash); }
  }

  /** Two words whose second word no letter extends are exactly what the
      scanner finds. */
  lemma TwoWordsExact(t: string, a: nat, g: nat, b: nat)
    requires TwoWords(t, a, g, b) && (a + g + b < |t| ==> !IsLetter(t[a + g + b]))
    ensures TwoWordsAt(t) == Some((a + g, b))
  {
    TwoWordsAtComplete(t, a, g, b);
    RunUnique(t, a + g, Letter, b);
  }

  /** The dash form is its tail after the two words the scanner found. */
  lemma DashNameTitleOf(t: string, words: seq<string>, w: (nat, nat))
    requires TwoWordsAt(t) == Some(w)
    ensures w.0 + w.1 <= |t| && DashNameTitle(t, words) == DashTail(t, w.0 + w.1, words)
  {
  }

  /** The dash form's tail is found after a name ending at `p` whenever the
      text there has its shape. */
  lemma DashTailComplete(t: string, p: nat, q: nat, r: nat, words: seq<string>)
    requires LetterBounded(words)
    requires DashGap(t, p, q, r) && KeywordLengthAt(t, r, words).Some?
    ensures DashTail(t, p, words) == Some(Span(p, r, KeywordLengthAt(t, r, words).value))
  {
    DashGapRuns(t, p, q, r, words);
    DashTailFrom(t, p, q, r, words);
  }

  /** The runs the scanner measures across a dash gap. */
  lemma DashGapRuns(t: string, p: nat, q: nat, r: nat, words: seq<string>)
    requires LetterBounded(words)
    requires DashGap(t, p, q, r) && KeywordLengthAt(t, r, words).Some?
    ensures Run(t, p, Space) == q - p && Run(t, q + 1, Space) == r - q - 1
  {
    assert Run(t, p, Space) == q - p by {
      assert !In(t[q], Space);
      RunUnique(t, p, Space, q - p);
    }
    assert Run(t, q + 1, Space) == r - q - 1 by {
      KeywordStartsWithLetter(t, r, words);
      RunUnique(t, q + 1, Space, r - q - 1);
    }
  }

  /** The dash form's tail, step by step. */
  lemma DashTailFrom(t: string, p: nat, q: nat, r: nat, words: seq<string>)
    requires p <= q < r <= |t| && In(t[q], Dash)
    requires Run(t, p, Space) == q - p && Run(t, q + 1, Space) == r - q - 1
    requires KeywordLengthAt(t, r, words).Some?
    ensures DashTail(t, p, words) == Some(Span(p, r, KeywordLengthAt(t, r, words).value))
  {
  }

  /** The two capture groups of a match, trimmed. */
  function Groups(t: string, sp: Span, words: seq<string>): (nt: NameTitle)
    requires TitleSpan(t, sp, words)
    ensures |nt.name| <= sp.nameEnd && |nt.title| <= sp.titleLen
  {
    NameTitle(Trim(t[..sp.nameEnd]), Trim(t[sp.titleAt..sp.titleAt + sp.titleLen]))
  }

  /** The two name patterns in order: the first that matches anywhere wins. */
  function FindNameTitle(snippet: string): (r: Option<NameTitle>)
    ensures r.None? <==>
      (forall j :: 0 <= j <= |snippet| ==> CommaTitleAt(snippet[j..]).None?) &&
      (forall j :: 0 <= j <= |snippet| ==> DashNameTitleAt(snippet[j..]).None?)
  {
    match Leftmost(snippet, CommaTitleAt)
    case Some(hit) => Some(Groups(snippet[hit.0..], hit.1, TitleWords))
    case None =>
      match Leftmost(snippet, DashNameTitleAt)
      case Some(hit) => Some(Groups(snippet[hit.0..], hit.1, TitleWords))
      case None => None
  }

  /** What either pattern matched, at the position it matched: the name
      group holds the two words exactly and the title group the title word
      exactly, for neither has anything for `trim()` to remove. */
  lemma FindNameTitleSound(snippet: string) returns (i: nat, sp: Span, a: nat, g: nat)
    requires FindNameTitle(snippet).Some?
    ensures i <= |snippet|
    ensures CommaTitleAt(snippet[i..]) == Some(sp) || DashNameTitleAt(snippet[i..]) == Some(sp)
    ensures a + g + 2 <= sp.nameEnd && TwoWords(snippet[i..], a, g, sp.nameEnd - a - g)
    ensures TitleSpan(snippet[i..], sp, TitleWords)
    ensures FindNameTitle(snippet).value
      == NameTitle(snippet[i..][..sp.nameEnd], snippet[i..][sp.titleAt..sp.titleAt + sp.titleLen])
  {
    i, sp := NameTitleHit(snippet);
    var x := snippet[i..];
    a, g := HitIsTwoWords(x, sp);
    assert Groups(x, sp, TitleWords) == NameTitle(x[..sp.nameEnd], x[sp.titleAt..sp.titleAt + sp.titleLen]) by {
      TitleWordsLetterBounded();
      GroupsText(x, sp, TitleWords, a, g);
    }
  }

  /** Where FindNameTitle takes its groups from. */
  lemma NameTitleHit(snippet: string) returns (i: nat, sp: Span)
    requires FindNameTitle(snippet).Some?
    ensures i <= |snippet|
    ensures CommaTitleAt(snippet[i..]) == Some(sp) || DashNameTitleAt(snippet[i..]) == Some(sp)
    ensures FindNameTitle(snippet) == Some(Groups(snippet[i..], sp, TitleWords))
  {
    match Leftmost(snippet, CommaTitleAt)
    case Some(hit) =>
      i, sp := hit.0, hit.1;
    case None =>
      var hit := Leftmost(snippet, DashNameTitleAt).value;
      i, sp := hit.0, hit.1;
  }

  /** A match of either name pattern starts with two words ending where the
      name group ends. */
  lemma HitIsTwoWords(x: string, sp: Span) returns (a: nat, g: nat)
    requires CommaTitleAt(x) == Some(sp) || DashNameTitleAt(x) == Some(sp)
    ensures a + g + 2 <= sp.nameEnd && TwoWords(x, a, g, sp.nameEnd - a - g)
    ensures TitleSpan(x, sp, TitleWords)
  {
    TitleWordsLetterBounded();
    if CommaTitleAt(x) == Some(sp) {
      a, g := CommaTitleSound(x, TitleWords);
    } else {
      var q;
      a, g, q := DashNameTitleSound(x, TitleWords);
    }
  }

  /** The contact name a name pattern yields is two words: two letter runs
      of at least two letters with white space between them. */
  lemma NameIsTwoWords(snippet: string) returns (a: nat, g: nat)
    requires FindNameTitle(snippet).Some?
    ensures var name := FindNameTitle(snippet).value.name;
      a + g + 2 <= |name| && TwoWords(name, a, g, |name| - a - g)
  {
    var i, sp := NameTitleHit(snippet);
    var x := snippet[i..];
    a, g := HitIsTwoWords(x, sp);
    var e := sp.nameEnd;
    var name := FindNameTitle(snippet).value.name;
    assert name == x[..e] by {
      NameGroupText(x, e, a, g);
    }
    TwoWordsOfPrefix(x, e, a, g, name);
  }

  lemma TwoWordsOfPrefix(x: string, e: nat, a: nat, g: nat, name: string)
    requires a + g + 2 <= e && TwoWords(x, a, g, e - a - g) && name == x[..e]
    ensures a + g + 2 <= |name| && TwoWords(name, a, g, |name| - a - g)
  {
    TwoWordsPrefix(x, a, g, e - a - g);
  }

  /** The groups of a match whose name is two words and whose title is a
      letter-bounded alternative are the matched text itself. */
  lemma GroupsText(t: string, sp: Span, words: seq<string>, a: nat, g: nat)
    requires LetterBounded(words) && TitleSpan(t, sp, words)
    requires a + g + 2 <= sp.nameEnd && TwoWords(t, a, g, sp.nameEnd - a - g)
    ensures Groups(t, sp, words) == NameTitle(t[..sp.nameEnd], t[sp.titleAt..sp.titleAt + sp.titleLen])
  {
    NameGroupText(t, sp.nameEnd, a, g);
    TitleGroupText(t, sp.titleAt, words);
  }

  lemma NameGroupText(t: string, e: nat, a: nat, g: nat)
    requires a + g + 2 <= e && TwoWords(t, a, g, e - a - g)
    ensures Trim(t[..e]) == t[..e]
  {
    TwoWordsPrefix(t, a, g, e - a - g);
    TwoWordsTrimmed(t[..e], a, g);
  }

  lemma TitleGroupText(t: string, r: nat, words: seq<string>)
    requires LetterBounded(words) && KeywordLengthAt(t, r, words).Some?
    ensures var n := KeywordLengthAt(t, r, words).value;
      r + n <= |t| && Trim(t[r..r + n]) == t[r..r + n]
  {
    var k := KeywordMatched(t, r, words);
    assert LetterBoundedWord(words[k]);
    TrimLetterBounded(t[r..r + |words[k]|], words[k]);
  }

  /** A title found by either name pattern is one of the vocabulary words
      (the `k`-th), in whatever letter case the snippet used. */
  lemma TitleFromVocabulary(snippet: string) returns (k: nat)
    requires FindNameTitle(snippet).Some?
    ensures k < |TitleWords| && Lower(FindNameTitle(snippet).value.title) == TitleWords[k]
  {
    TitleWordsLetterBounded();
    match Leftmost(snippet, CommaTitleAt)
    case Some(hit) =>
      k := GroupsTitle(snippet[hit.0..], hit.1, TitleWords);
    case None =>
      var hit := Leftmost(snippet, DashNameTitleAt).value;
      k := GroupsTitle(snippet[hit.0..], hit.1, TitleWords);
  }

  lemma GroupsTitle(t: string, sp: Span, words: seq<string>) returns (k: nat)
    requires LetterBounded(words) && TitleSpan(t, sp, words)
    ensures k < |words| && Lower(Groups(t, sp, words).title) == words[k]
  {
    k := KeywordTitle(t, sp.titleAt, words);
  }

  /** Every word of `words` starts and ends with a letter, so that the text
      it matched has nothing for `trim()` to remove. */
  predicate LetterBounded(words: seq<string>) {
    forall k :: 0 <= k < |words| ==> LetterBoundedWord(words[k])
  }

  predicate LetterBoundedWord(w: string) {
    w != [] && IsLetter(w[0]) && IsLetter(w[|w| - 1])
  }

  lemma TitleWordsLetterBounded()
    ensures LetterBounded(TitleWords)
  {
  }

  /** The text a title alternative matched, trimmed, is that alternative up to letter case. */
  lemma KeywordTitle(t: string, r: nat, words: seq<string>) returns (k: nat)
    requires LetterBounded(words) && KeywordLengthAt(t, r, words).Some?
    ensures var n := KeywordLengthAt(t, r, words).value;
      k < |words| && Lower(Trim(t[r..r + n])) == words[k]
  {
    k := KeywordMatched(t, r, words);
    TrimmedKeyword(t[r..r + |words[k]|], words[k]);
  }

  lemma TrimmedKeyword(x: string, w: string)
    requires LetterBoundedWord(w) && Lower(x) == w
    ensures Lower(Trim(x)) == w
  {
    TrimLetterBounded(x, w);
  }

  lemma KeywordMatched(t: string, r: nat, words: seq<string>) returns (k: nat)
    requires KeywordLengthAt(t, r, words).Some?
    ensures k < |words| && r + |words[k]| <= |t| && Lower(t[r..r + |words[k]|]) == words[k]
    ensures KeywordLengthAt(t, r, words).value == |words[k]|
  {
    k := FirstKeywordAt(t, r, words).value;
    KeywordAtLower(t, r, words[k]);
  }

  lemma TrimLetterBounded(x: string, w: string)
    requires w != [] && IsLetter(w[0]) && IsLetter(w[|w| - 1]) && Lower(x) == w
    ensures Trim(x) == x
  {
    assert LowerChar(x[0]) == w[0];
    assert LowerChar(x[|x| - 1]) == w[|w| - 1];
    TrimIdle(x);
  }

  // ---------------------------------------------------------------------
  // E-mail address to person name.

  /** `s.split(c)[0]`: everything before the first `c`. */
  function BeforeFirst(s: string, c: char): (r: string)
    ensures r <= s && c !in r
    ensures |r| < |s| ==> s[|r|] == c
  {
    if s == [] || s[0] == c then [] else [s[0]] + BeforeFirst(s[1..], c)
  }

  predicate IsLocalSep(c: char) { c == '.' || c == '_' || c == '-' }

  predicate HasLocalSep(s: string) {
    exists i :: 0 <= i < |s| && IsLocalSep(s[i])
  }

  /** `s.split(/[._-]/)`: the pieces between separators, empty ones included. */
  function SplitLocal(s: string): (parts: seq<string>)
    ensures |parts| >= 1
    ensures |parts| >= 2 <==> HasLocalSep(s)
  {
    if s == [] then [""]
    else
      var rest := SplitLocal(s[1..]);
      if IsLocalSep(s[0]) then [""] + rest
      else [[s[0]] + rest[0]] + rest[1..]
  }

  /** The separators of `s`, in order. */
  function Separators(s: string): (r: string)
    ensures forall i :: 0 <= i < |r| ==> IsLocalSep(r[i])
    ensures |r| > 0 <==> HasLocalSep(s)
  {
    if s == [] then []
    else if IsLocalSep(s[0]) then [s[0]] + Separators(s[1..])
    else
      assert HasLocalSep(s) <==> HasLocalSep(s[1..]) by {
        if HasLocalSep(s) {
          var i :| 0 <= i < |s| && IsLocalSep(s[i]);
          assert s[1..][i - 1] == s[i];
        }
        if HasLocalSep(s[1..]) {
          var i :| 0 <= i < |s[1..]| && IsLocalSep(s[1..][i]);
          assert s[i + 1] == s[1..][i];
        }
      }
      Separators(s[1..])
  }

  /** `parts.join` with the `k`-th separator between piece `k` and piece
      `k + 1`. */
  function Rejoin(parts: seq<string>, seps: string): string
    requires |parts| == |seps| + 1
  {
    if seps == [] then parts[0] else parts[0] + [seps[0]] + Rejoin(parts[1..], seps[1..])
  }

  /** The pieces hold no separator, there is one more piece than there are
      separators, and putting the separators back between the pieces gives
      the input again. */
  lemma {:induction false} SplitLocalPieces(s: string)
    ensures forall p, i :: p in SplitLocal(s) && 0 <= i < |p| ==> !IsLocalSep(p[i])
    ensures TotalLength(SplitLocal(s)) + |SplitLocal(s)| - 1 == |s|
    ensures |SplitLocal(s)| == |Separators(s)| + 1
    ensures Rejoin(SplitLocal(s), Separators(s)) == s
  {
    SplitLocalRejoin(s);
    if s != [] {
      var rest := SplitLocal(s[1..]);
      SplitLocalPieces(s[1..]);
      assert rest == [rest[0]] + rest[1..];
      if IsLocalSep(s[0]) {
        assert SplitLocal(s)[1..] == rest;
      } else {
        var head := [s[0]] + rest[0];
        assert SplitLocal(s)[1..] == rest[1..];
        forall i | 0 <= i < |head| ensures !IsLocalSep(head[i]) {
          if i > 0 {
            assert head[i] == rest[0][i - 1];
          }
        }
      }
    }
  }

  lemma {:induction false} SplitLocalRejoin(s: string)
    ensures |SplitLocal(s)| == |Separators(s)| + 1
    ensures Rejoin(SplitLocal(s), Separators(s)) == s
  {
    if s != [] {
      var rest := SplitLocal(s[1..]);
      var seps := Separators(s[1..]);
      SplitLocalRejoin(s[1..]);
      assert s == [s[0]] + s[1..];
      if IsLocalSep(s[0]) {
        assert SplitLocal(s)[1..] == rest;
      } else {
        RejoinHead(s[0], rest, seps);
      }
    }
  }

  /** Adding a character to the front of the first piece adds it to the
      front of the rejoined text. */
  lemma RejoinHead(c: char, rest: seq<string>, seps: string)
    requires |rest| == |seps| + 1
    ensures Rejoin([[c] + rest[0]] + rest[1..], seps) == [c] + Rejoin(rest, seps)
  {
    var parts := [[c] + rest[0]] + rest[1..];
    if seps != [] {
      assert parts[1..] == rest[1..];
      calc {
        Rejoin(parts, seps);
        [c] + rest[0] + [seps[0]] + Rejoin(rest[1..], seps[1..]);
        [c] + (rest[0] + [seps[0]] + Rejoin(rest[1..], seps[1..]));
      }
    }
  }

  /** The first piece runs up to the first separator, and the pieces after
      it are those of the text after that separator. */
  lemma {:induction false} SplitLocalFirst(s: string, i: nat)
    requires i <= |s| && forall k :: 0 <= k < i ==> !IsLocalSep(s[k])
    requires i < |s| ==> IsLocalSep(s[i])
    ensures SplitLocal(s)[0] == s[..i]
    ensures i < |s| ==> SplitLocal(s)[1..] == SplitLocal(s[i + 1..])
  {
    if i > 0 {
      SplitLocalFirst(s[1..], i - 1);
      assert s[1..][..i - 1] == s[1..i];
      if i < |s| {
        assert s[1..][i - 1 + 1..] == s[i + 1..];
      }
      assert s[..i] == [s[0]] + s[1..i];
    }
  }

  function TotalLength(parts: seq<string>): nat {
    if parts == [] then 0 else |parts[0]| + TotalLength(parts[1..])
  }

  /** `p.charAt(0).toUpperCase() + p.slice(1).toLowerCase()`. */
  function Capitalize(p: string): (r: string)
    ensures |r| == |p|
    ensures p != [] ==> !IsLower(r[0]) && forall i :: 1 <= i < |r| ==> !IsUpper(r[i])
    ensures p != [] ==> r[0] == UpperChar(p[0]) && forall i :: 1 <= i < |r| ==> r[i] == LowerChar(p[i])
  {
    if p == [] then [] else [UpperChar(p[0])] + Lower(p[1..])
  }

  /** The name built from an address whose local part has at least two
      pieces: the first two, capitalised, joined by one space. */
  function NameFromEmail(email: string): (r: Option<string>)
    ensures r.Some? <==> HasLocalSep(BeforeFirst(email, '@'))
  {
    var parts := SplitLocal(BeforeFirst(email, '@'));
    if |parts| >= 2 then Some(Capitalize(parts[0]) + " " + Capitalize(parts[1])) else None
  }

  /** The name is the text up to the first separator of the local part and
      the text from there up to the next separator or the end, each
      capitalised, with one space between. */
  lemma NameFromEmailValue(email: string, i: nat, j: nat)
    requires var local := BeforeFirst(email, '@');
      i < |local| && IsLocalSep(local[i]) && (forall k :: 0 <= k < i ==> !IsLocalSep(local[k]))
      && i + 1 + j <= |local| && (forall k :: i + 1 <= k < i + 1 + j ==> !IsLocalSep(local[k]))
      && (i + 1 + j < |local| ==> IsLocalSep(local[i + 1 + j]))
    ensures var local := BeforeFirst(email, '@');
      NameFromEmail(email) == Some(Capitalize(local[..i]) + " " + Capitalize(local[i + 1..i + 1 + j]))
  {
    LocalFirstTwo(BeforeFirst(email, '@'), i, j);
  }

  /** The first two pieces of a local part, located by their separators. */
  lemma LocalFirstTwo(local: string, i: nat, j: nat)
    requires i < |local| && IsLocalSep(local[i]) && (forall k :: 0 <= k < i ==> !IsLocalSep(local[k]))
    requires i + 1 + j <= |local| && (forall k :: i + 1 <= k < i + 1 + j ==> !IsLocalSep(local[k]))
    requires i + 1 + j < |local| ==> IsLocalSep(local[i + 1 + j])
    ensures |SplitLocal(local)| >= 2
    ensures SplitLocal(local)[0] == local[..i] && SplitLocal(local)[1] == local[i + 1..i + 1 + j]
  {
    SplitLocalFirst(local, i);
    var rest := local[i + 1..];
    SplitLocalFirst(rest, j);
    assert rest[..j] == local[i + 1..i + 1 + j];
  }

  // ---------------------------------------------------------------------
  // Company names from organic result titles.

  /** `\s*[-|–—]\s*.*` at the start of `t`: a separator (after white space),
      then everything up to the next line terminator. */
  function SeparatorTailAt(t: string): (r: Option<nat>)
    ensures r.Some? ==> 1 <= r.value <= |t|
    ensures t != [] && In(t[0], NameSep) ==> r.Some?
  {
    var w := Run(t, 0, Space);
    if w < |t| && In(t[w], NameSep) then
      var j := w + 1 + Run(t, w + 1, Space);
      Some(j + Run(t, j, NotLineEnd))
    else None
  }

  /** `replace` with the global pattern `\s*[-|–—]\s*.*` and '': every
      match removed, the scan resuming after each. */
  function StripSeparatorTails(s: string): (r: string)
    ensures forall i :: 0 <= i < |r| ==> !In(r[i], NameSep)
    decreases |s|
  {
    if s == [] then []
    else match SeparatorTailAt(s)
      case Some(n) => StripSeparatorTails(s[n..])
      case None => [s[0]] + StripSeparatorTails(s[1..])
  }

  /** `\s*\|.*$` at the start of `t`. */
  function BarTailAt(t: string): Option<nat> {
    var w := Run(t, 0, Space);
    if w < |t| && t[w] == '|' && AllIn(t[w + 1..], NotLineEnd) then Some(|t|) else None
  }

  /** `replace` with the global pattern `\s*\|.*$` and ''. */
  function StripBarTail(s: string): string
    decreases |s|
  {
    if s == [] then []
    else match BarTailAt(s)
      case Some(_) => []
      case None => [s[0]] + StripBarTail(s[1..])
  }

  /** The second replacement never changes what the first one left: no
      `|` survives the first. */
  lemma {:induction false} BarTailIdle(s: string)
    requires forall i :: 0 <= i < |s| ==> s[i] != '|'
    ensures StripBarTail(s) == s
  {
    if s != [] {
      var w := Run(s, 0, Space);
      assert BarTailAt(s).None?;
      BarTailIdle(s[1..]);
    }
  }

  /** The company name derived from an organic result's title. */
  function CompanyNameFromTitle(title: string): (name: string)
    ensures forall i :: 0 <= i < |name| ==> !In(name[i], NameSep)
  {
    var stripped := StripSeparatorTails(title);
    BarTailIdle(stripped);
    TrimKeeps(StripBarTail(stripped));
    Trim(StripBarTail(stripped))
  }

  predicate NoLineEnds(s: string) {
    forall j :: 0 <= j < |s| ==> !IsLineTerminator(s[j])
  }

  /** On a one-line title the company name is the title up to its first
      separator, trimmed; a title with no separator is only trimmed. */
  lemma CompanyNameBeforeSeparator(title: string, k: nat)
    requires NoLineEnds(title) && FirstSeparatorAt(title, k)
    ensures CompanyNameFromTitle(title) == Trim(title[..k])
  {
    var stripped := StripSeparatorTails(title);
    assert title[0..] == title;
    if k == |title| {
      assert title[..k] == title;
      assert stripped == title by { StripKeepsAll(title, 0); }
    } else {
      var i0 := SpaceStart(title, k);
      assert stripped == title[..i0] by { StripUpTo(title, 0, k, i0); }
      assert Trim(title[..i0]) == Trim(title[..k]) by {
        assert title[..k][0..i0] == title[..i0];
        TrimDropsSpaces(title[..k], 0, i0);
      }
    }
    BarTailIdle(stripped);
  }

  /** Where the white space that ends at `k` starts. */
  lemma {:induction false} SpaceStart(s: string, k: nat) returns (i0: nat)
    requires k <= |s|
    ensures i0 <= k && (forall j :: i0 <= j < k ==> IsSpace(s[j]))
    ensures i0 > 0 ==> !IsSpace(s[i0 - 1])
  {
    if k > 0 && IsSpace(s[k - 1]) {
      i0 := SpaceStart(s, k - 1);
    } else {
      i0 := k;
    }
  }

  /** Before the white space that precedes the first separator nothing is
      removed; from there on everything is. */
  lemma {:induction false} StripUpTo(s: string, p: nat, k: nat, i0: nat)
    requires NoLineEnds(s) && FirstSeparatorAt(s, k) && k < |s|
    requires i0 <= k && (forall j :: i0 <= j < k ==> IsSpace(s[j]))
    requires i0 > 0 ==> !IsSpace(s[i0 - 1])
    requires p <= i0
    ensures StripSeparatorTails(s[p..]) == s[p..i0]
    decreases i0 - p
  {
    if p == i0 {
      StripAtSpaceStart(s, k, i0);
    } else {
      StripKeepsOne(s, p, k, i0);
      StripUpTo(s, p + 1, k, i0);
      ConsSlice(s, p, i0);
    }
  }

  lemma ConsSlice(s: string, p: nat, i: nat)
    requires p < i <= |s|
    ensures s[p..i] == [s[p]] + s[p + 1..i]
  {
  }

  /** From the white space before the first separator the whole line goes. */
  lemma StripAtSpaceStart(s: string, k: nat, i0: nat)
    requires NoLineEnds(s) && FirstSeparatorAt(s, k) && k < |s|
    requires i0 <= k && (forall j :: i0 <= j < k ==> IsSpace(s[j]))
    ensures StripSeparatorTails(s[i0..]) == []
  {
    var t := s[i0..];
    assert SeparatorTailAt(t) == Some(|t|) by {
      forall j | 0 <= j < |t| ensures !IsLineTerminator(t[j]) { assert t[j] == s[i0 + j]; }
      forall j | 0 <= j < k - i0 ensures IsSpace(t[j]) { assert t[j] == s[i0 + j]; }
      assert t[k - i0] == s[k];
      SeparatorTailWhole(t, k - i0);
    }
    assert t[|t|..] == [];
  }

  /** Before that white space, the first replacement keeps each character. */
  lemma StripKeepsOne(s: string, p: nat, k: nat, i0: nat)
    requires FirstSeparatorAt(s, k) && i0 <= k
    requires i0 > 0 ==> !IsSpace(s[i0 - 1])
    requires p < i0
    ensures StripSeparatorTails(s[p..]) == [s[p]] + StripSeparatorTails(s[p + 1..])
  {
    var t := s[p..];
    assert SeparatorTailAt(t).None? by {
      forall j | 0 <= j <= i0 - 1 - p ensures !In(t[j], NameSep) { assert t[j] == s[p + j]; }
      assert t[i0 - 1 - p] == s[i0 - 1];
      SeparatorTailNone(t, i0 - 1 - p);
    }
    assert t[1..] == s[p + 1..];
  }

  /** With no separator in the text nothing is removed. */
  lemma {:induction false} StripKeepsAll(s: string, p: nat)
    requires p <= |s| && forall j :: 0 <= j < |s| ==> !In(s[j], NameSep)
    ensures StripSeparatorTails(s[p..]) == s[p..]
    decreases |s| - p
  {
    var t := s[p..];
    if p < |s| {
      assert SeparatorTailAt(t).None? by {
        forall j | 0 <= j < |t| ensures !In(t[j], NameSep) { assert t[j] == s[p + j]; }
        SeparatorTailNoSep(t);
      }
      assert t[1..] == s[p + 1..];
      StripKeepsAll(s, p + 1);
    }
  }

  /** White space, a separator, and no line terminator: all of `t` matches. */
  lemma SeparatorTailWhole(t: string, w: nat)
    requires w < |t| && (forall j :: 0 <= j < w ==> IsSpace(t[j])) && In(t[w], NameSep)
    requires forall j :: 0 <= j < |t| ==> !IsLineTerminator(t[j])
    ensures SeparatorTailAt(t) == Some(|t|)
  {
    RunUnique(t, 0, Space, w);
    var j := w + 1 + Run(t, w + 1, Space);
    RunCovers(t, j, NotLineEnd, |t| - j);
  }

  /** A text whose first `m + 1` characters hold no separator and end in a
      non-space does not start with a separator tail. */
  lemma SeparatorTailNone(t: string, m: nat)
    requires m < |t| && !IsSpace(t[m]) && forall j :: 0 <= j <= m ==> !In(t[j], NameSep)
    ensures SeparatorTailAt(t).None?
  {
    assert !In(t[m], Space);
  }

  /** Nor does a text with no separator at all. */
  lemma SeparatorTailNoSep(t: string)
    requires forall j :: 0 <= j < |t| ==> !In(t[j], NameSep)
    ensures SeparatorTailAt(t).None?
  {
  }

  /** Every character of `Trim(s)` is a character of `s`. */
  lemma TrimKeeps(s: string)
    ensures forall i :: 0 <= i < |Trim(s)| ==> Trim(s)[i] in s
  {
    var lo := TrimShape(s);
    forall i | 0 <= i < |Trim(s)| ensures Trim(s)[i] in s {
      assert Trim(s)[i] == s[lo + i];
    }
  }
}
