/** Characters and strings as the route handler sees them: JavaScript's `\s`,
    `trim()`, ASCII case folding, `includes` and the truthiness of an optional
    string. */
module Text {

  datatype Option<+T> = None | Some(value: T)

  /** JavaScript's `\s` (and the set `trim()` removes): WhiteSpace plus LineTerminator. */
  predicate IsSpace(c: char) {
    c == ' ' || c == '\t' || c == '\n' || c == '\r' || c == '\U{B}' || c == '\U{C}'
    || c == '\U{A0}' || c == '\U{1680}' || ('\U{2000}' <= c <= '\U{200A}')
    || c == '\U{2028}' || c == '\U{2029}' || c == '\U{202F}' || c == '\U{205F}'
    || c == '\U{3000}' || c == '\U{FEFF}'
  }

  /** The characters `.` does not match. */
  predicate IsLineTerminator(c: char) {
    c == '\n' || c == '\r' || c == '\U{2028}' || c == '\U{2029}'
  }

  predicate IsDigit(c: char) { '0' <= c <= '9' }

  predicate IsUpper(c: char) { 'A' <= c <= 'Z' }

  predicate IsLower(c: char) { 'a' <= c <= 'z' }

  predicate IsLetter(c: char) { IsUpper(c) || IsLower(c) }

  function LowerChar(c: char): (d: char)
    ensures IsUpper(c) ==> IsLower(d)
    ensures !IsUpper(c) ==> d == c
  {
    if IsUpper(c) then (c as int + 32) as char else c
  }

  function UpperChar(c: char): (d: char)
    ensures IsLower(c) ==> IsUpper(d)
    ensures !IsLower(c) ==> d == c
  {
    if IsLower(c) then (c as int - 32) as char else c
  }

  /** `toLowerCase()` restricted to ASCII letters. */
  function Lower(s: string): (r: string)
    ensures |r| == |s|
    ensures forall i {:trigger r[i]} :: 0 <= i < |s| ==> r[i] == LowerChar(s[i])
  {
    if s == [] then [] else [LowerChar(s[0])] + Lower(s[1..])
  }

  /** `s.includes(sub)`. */
  predicate Contains(s: string, sub: string)
    decreases |s|
  {
    sub <= s || (s != [] && Contains(s[1..], sub))
  }

  /** A string value used as a JavaScript condition: present and non-empty. */
  predicate Truthy(s: Option<string>) {
    s.Some? && s.value != ""
  }

  /** `x || null` for an optional string. */
  function OrNull(s: Option<string>): (r: Option<string>)
    ensures Truthy(s) ==> r == s
    ensures !Truthy(s) ==> r == None
  {
    if Truthy(s) then s else None
  }

  /** `trimStart()`. */
  function TrimStart(s: string): (r: string)
    ensures |r| <= |s|
  {
    if s != [] && IsSpace(s[0]) then TrimStart(s[1..]) else s
  }

  /** `trimEnd()`. */
  function TrimEnd(s: string): (r: string)
    ensures |r| <= |s|
  {
    if s != [] && IsSpace(s[|s| - 1]) then TrimEnd(s[..|s| - 1]) else s
  }

  /** `trim()`. */
  function Trim(s: string): (r: string)
    ensures |r| <= |s|
  {
    TrimEnd(TrimStart(s))
  }

  /** What `trim()` keeps is a stretch of the input that neither starts nor
      ends with white space, and all it drops is white space. */
  lemma {:induction false} TrimShape(s: string) returns (lo: nat)
    ensures lo + |Trim(s)| <= |s| && Trim(s) == s[lo..lo + |Trim(s)|]
    ensures Trim(s) != [] ==> !IsSpace(Trim(s)[0]) && !IsSpace(Trim(s)[|Trim(s)| - 1])
    ensures forall i :: 0 <= i < lo ==> IsSpace(s[i])
    ensures forall i :: lo + |Trim(s)| <= i < |s| ==> IsSpace(s[i])
  {
    lo := TrimStartShape(s);
    TrimEndShape(TrimStart(s));
  }

  lemma {:induction false} TrimStartShape(s: string) returns (lo: nat)
    ensures lo <= |s| && TrimStart(s) == s[lo..]
    ensures TrimStart(s) != [] ==> !IsSpace(TrimStart(s)[0])
    ensures forall i :: 0 <= i < lo ==> IsSpace(s[i])
  {
    if s != [] && IsSpace(s[0]) {
      var l := TrimStartShape(s[1..]);
      lo := l + 1;
    } else {
      lo := 0;
    }
  }

  lemma {:induction false} TrimEndShape(s: string)
    ensures TrimEnd(s) <= s
    ensures TrimEnd(s) != [] ==> !IsSpace(TrimEnd(s)[|TrimEnd(s)| - 1])
    ensures forall i :: |TrimEnd(s)| <= i < |s| ==> IsSpace(s[i])
  {
    if s != [] && IsSpace(s[|s| - 1]) {
      TrimEndShape(s[..|s| - 1]);
    }
  }

  /** Trimming a string that neither starts nor ends with white space changes nothing. */
  lemma TrimIdle(x: string)
    requires x != [] ==> !IsSpace(x[0]) && !IsSpace(x[|x| - 1])
    ensures Trim(x) == x
  {
  }

  /** `trim()` keeps exactly the stretch between leading and trailing white
      space: any stretch with white space all around it and a non-space
      character at each end (or an all-white-space input) is what it keeps. */
  lemma TrimUnique(s: string, a: nat, b: nat)
    requires a <= b <= |s|
    requires forall i :: 0 <= i < a ==> IsSpace(s[i])
    requires forall i :: b <= i < |s| ==> IsSpace(s[i])
    requires a < b ==> !IsSpace(s[a]) && !IsSpace(s[b - 1])
    ensures Trim(s) == s[a..b]
  {
    var lo := TrimShape(s);
    var n := |Trim(s)|;
    if n > 0 {
      assert !IsSpace(s[lo]) && !IsSpace(s[lo + n - 1]);
      assert a < b;
      assert lo == a;
      assert lo + n == b;
    } else {
      assert a == b;
    }
  }

  /** White space around a string does not change what `trim()` keeps. */
  lemma TrimDropsSpaces(x: string, lo: nat, hi: nat)
    requires lo <= hi <= |x|
    requires forall i :: 0 <= i < lo ==> IsSpace(x[i])
    requires forall i :: hi <= i < |x| ==> IsSpace(x[i])
    ensures Trim(x[lo..hi]) == Trim(x)
  {
    var a := TrimShape(x);
    var n := |Trim(x)|;
    var y := x[lo..hi];
    if n > 0 {
      assert lo <= a && a + n <= hi by {
        assert !IsSpace(x[a]) && !IsSpace(x[a + n - 1]);
      }
      forall i | 0 <= i < a - lo ensures IsSpace(y[i]) { assert y[i] == x[lo + i]; }
      forall i | a + n - lo <= i < |y| ensures IsSpace(y[i]) { assert y[i] == x[lo + i]; }
      assert y[a - lo] == x[a] && y[a + n - lo - 1] == x[a + n - 1];
      TrimUnique(y, a - lo, a + n - lo);
      assert y[a - lo..a + n - lo] == x[a..a + n] by {
        var u, v := y[a - lo..a + n - lo], x[a..a + n];
        forall i | 0 <= i < n ensures u[i] == v[i] {
          assert y[a - lo + i] == x[a + i];
        }
      }
    } else {
      forall i | 0 <= i < |y| ensures IsSpace(y[i]) { assert y[i] == x[lo + i]; }
      TrimUnique(y, 0, 0);
    }
  }

  /** `length` of a JavaScript string: UTF-16 code units. */
  function Utf16Length(s: string): (n: nat)
    ensures n >= |s|
  {
    if s == [] then 0 else (if s[0] as int > 0xFFFF then 2 else 1) + Utf16Length(s[1..])
  }
}
