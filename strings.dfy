/** The pieces of Python's `str` API the pipeline relies on, for ASCII case
    mapping and Python's notion of whitespace and line breaks. */
module Strings {
  import opened Wrappers

  // ---------------------------------------------------------------- case

  function LowerChar(c: char): char {
    if 'A' <= c <= 'Z' then (c as int + 32) as char else c
  }

  function UpperChar(c: char): char {
    if 'a' <= c <= 'z' then (c as int - 32) as char else c
  }

  /** `s.lower()` (ASCII letters only). */
  function Lower(s: string): (r: string)
    ensures |r| == |s|
    ensures forall i :: 0 <= i < |s| ==> r[i] == LowerChar(s[i])
  {
    seq(|s|, i requires 0 <= i < |s| => LowerChar(s[i]))
  }

  /** `s.upper()` (ASCII letters only). */
  function Upper(s: string): (r: string)
    ensures |r| == |s|
  {
    seq(|s|, i requires 0 <= i < |s| => UpperChar(s[i]))
  }

  /** Every character of `s.upper()` is the upper-case form of the input's. */
  lemma UpperChars(s: string)
    ensures forall i :: 0 <= i < |s| ==> Upper(s)[i] == UpperChar(s[i])
  {
  }

  // ---------------------------------------------------------- whitespace

  /** `c.isspace()`: the characters Python's `strip()` and `split()` treat as blanks. */
  predicate IsSpace(c: char) {
    ('\t' <= c <= '\r') || ('\U{1C}' <= c <= ' ') || c == '\U{85}' || c == '\U{A0}'
    || c == '\U{1680}' || ('\U{2000}' <= c <= '\U{200A}') || c == '\U{2028}' || c == '\U{2029}'
    || c == '\U{202F}' || c == '\U{205F}' || c == '\U{3000}'
  }

  function StripLeft(s: string): (r: string)
    ensures |r| <= |s| && r == s[|s| - |r|..]
    ensures r != [] ==> !IsSpace(r[0])
  {
    if |s| > 0 && IsSpace(s[0]) then StripLeft(s[1..]) else s
  }

  function StripRight(s: string): (r: string)
    ensures |r| <= |s| && r == s[..|r|]
    ensures r != [] ==> !IsSpace(r[|r| - 1])
  {
    if |s| > 0 && IsSpace(s[|s| - 1]) then StripRight(s[..|s| - 1]) else s
  }

  /** Only blanks are removed from the front ... */
  lemma {:induction false} StripLeftDropsBlanks(s: string)
    ensures forall i :: 0 <= i < |s| - |StripLeft(s)| ==> IsSpace(s[i])
  {
    if |s| > 0 && IsSpace(s[0]) {
      StripLeftDropsBlanks(s[1..]);
      assert forall i :: 1 <= i < |s| ==> s[1..][i - 1] == s[i];
    }
  }

  /** ... and from the back. */
  lemma {:induction false} StripRightDropsBlanks(s: string)
    ensures forall i :: |StripRight(s)| <= i < |s| ==> IsSpace(s[i])
  {
    if |s| > 0 && IsSpace(s[|s| - 1]) {
      StripRightDropsBlanks(s[..|s| - 1]);
      assert forall i :: 0 <= i < |s| - 1 ==> s[..|s| - 1][i] == s[i];
    }
  }

  /** `s.strip()` is the slice `s[a..b]` of `s` with only blanks outside it. */
  lemma StripDropsBlanks(s: string)
    ensures var a := |s| - |StripLeft(s)|; var b := a + |Strip(s)|;
      && b <= |s| && Strip(s) == s[a..b]
      && (forall i :: 0 <= i < a ==> IsSpace(s[i]))
      && (forall i :: b <= i < |s| ==> IsSpace(s[i]))
  {
    var l := StripLeft(s);
    StripLeftDropsBlanks(s);
    StripRightDropsBlanks(l);
    SliceTail(s, l, |s| - |l|, |StripRight(l)|);
  }

  /** Blanks after a prefix of a suffix are blanks of the whole. */
  lemma SliceTail(s: string, l: string, a: nat, n: nat)
    requires a <= |s| && l == s[a..] && n <= |l|
    requires forall i :: n <= i < |l| ==> IsSpace(l[i])
    ensures l[..n] == s[a..a + n]
    ensures forall i :: a + n <= i < |s| ==> IsSpace(s[i])
  {
    forall i | a + n <= i < |s| ensures IsSpace(s[i]) {
      assert s[i] == l[i - a];
    }
  }

  /** `s.strip()`. */
  function Strip(s: string): string {
    StripRight(StripLeft(s))
  }

  /** `s.strip(c)` for a single character `c`. */
  function StripChar(s: string, c: char): string {
    if |s| > 0 && s[0] == c then StripChar(s[1..], c)
    else if |s| > 0 && s[|s| - 1] == c then StripChar(s[..|s| - 1], c)
    else s
  }

  /** Length of the leading run of non-blank characters. */
  function WordLen(s: string): (n: nat)
    ensures n <= |s|
    ensures forall i :: 0 <= i < n ==> !IsSpace(s[i])
    ensures n < |s| ==> IsSpace(s[n])
  {
    if |s| == 0 || IsSpace(s[0]) then 0 else 1 + WordLen(s[1..])
  }

  predicate IsWord(w: string) {
    w != [] && forall i :: 0 <= i < |w| ==> !IsSpace(w[i])
  }

  /** `s.split()`: the maximal runs of non-blank characters, in order. */
  function Split(s: string): seq<string>
    decreases |s|
  {
    var t := StripLeft(s);
    if t == [] then []
    else
      var n := WordLen(t);
      [t[..n]] + Split(t[n..])
  }

  /** Every piece `split()` yields is a non-empty run of non-blanks. */
  lemma {:induction false} SplitGivesWords(s: string)
    ensures forall k :: 0 <= k < |Split(s)| ==> IsWord(Split(s)[k])
    decreases |s|
  {
    var t := StripLeft(s);
    if t != [] {
      var n := WordLen(t);
      SplitFirstWord(s);
      SplitGivesWords(t[n..]);
      WordsCons(t[..n], Split(t[n..]));
    }
  }

  /** A text with a non-blank character splits into its first word and the
      split of what follows it. */
  lemma SplitFirstWord(s: string)
    requires StripLeft(s) != []
    ensures var t := StripLeft(s); var n := WordLen(t);
      IsWord(t[..n]) && Split(s) == [t[..n]] + Split(t[n..]) && |t[n..]| < |s|
  {
  }

  lemma WordsCons(w: string, rest: seq<string>)
    requires IsWord(w) && forall k :: 0 <= k < |rest| ==> IsWord(rest[k])
    ensures forall k :: 0 <= k < |[w] + rest| ==> IsWord(([w] + rest)[k])
  {
  }

  /** `sep.join(parts)`. */
  function Join(parts: seq<string>, sep: string): string {
    if parts == [] then ""
    else if |parts| == 1 then parts[0]
    else parts[0] + sep + Join(parts[1..], sep)
  }

  /** `s.split(c)` for a single-character separator: never empty. */
  function SplitOn(s: string, c: char): (r: seq<string>)
    ensures |r| >= 1
  {
    if |s| == 0 then [""]
    else if s[0] == c then [""] + SplitOn(s[1..], c)
    else
      var rest := SplitOn(s[1..], c);
      [[s[0]] + rest[0]] + rest[1..]
  }

  /** `s.replace(a, b)` for single characters. */
  function ReplaceChar(s: string, a: char, b: char): (r: string)
    ensures |r| == |s|
    ensures forall i :: 0 <= i < |s| ==> r[i] == if s[i] == a then b else s[i]
  {
    seq(|s|, i requires 0 <= i < |s| => if s[i] == a then b else s[i])
  }

  /** `s.replace(pat, "")`: every non-overlapping occurrence, scanning left to right. */
  function RemoveAll(s: string, pat: string): string
    requires pat != []
    decreases |s|
  {
    if |s| == 0 then ""
    else if |pat| <= |s| && s[..|pat|] == pat then RemoveAll(s[|pat|..], pat)
    else [s[0]] + RemoveAll(s[1..], pat)
  }

  /** `sub in s`. */
  predicate Contains(s: string, sub: string) {
    |sub| <= |s| && (s[..|sub|] == sub || Contains(s[1..], sub))
  }

  /** `sub` occurs in `s` starting at position `k`. */
  predicate OccursAt(s: string, sub: string, k: nat) {
    k + |sub| <= |s| && s[k..k + |sub|] == sub
  }

  /** An occurrence at position `k` makes `sub in s` true. */
  lemma {:induction false} ContainsAt(s: string, sub: string, k: nat)
    requires OccursAt(s, sub, k)
    ensures Contains(s, sub)
  {
    if k > 0 {
      assert s[1..][k - 1..k - 1 + |sub|] == s[k..k + |sub|];
      ContainsAt(s[1..], sub, k - 1);
    }
  }

  /** `sub in s` holds exactly when `sub` occurs at some position of `s`. */
  lemma {:induction false} ContainsIff(s: string, sub: string)
    ensures Contains(s, sub) <==> exists k: nat :: OccursAt(s, sub, k)
  {
    if Contains(s, sub) {
      if s[..|sub|] == sub {
        assert OccursAt(s, sub, 0);
      } else {
        ContainsIff(s[1..], sub);
        var k: nat :| OccursAt(s[1..], sub, k);
        assert s[k + 1..k + 1 + |sub|] == s[1..][k..k + |sub|];
        assert OccursAt(s, sub, k + 1);
      }
    }
    if exists k: nat :: OccursAt(s, sub, k) {
      var k: nat :| OccursAt(s, sub, k);
      ContainsAt(s, sub, k);
    }
  }

  // ------------------------------------------------------------- lines

  /** The line boundaries of `str.splitlines()`. */
  predicate IsLineBreak(c: char) {
    ('\n' <= c <= '\r') || ('\U{1C}' <= c <= '\U{1E}') || c == '\U{85}' || c == '\U{2028}' || c == '\U{2029}'
  }

  function LineEnd(s: string): (n: nat)
    ensures n <= |s|
    ensures n < |s| ==> IsLineBreak(s[n])
  {
    if |s| == 0 || IsLineBreak(s[0]) then 0 else 1 + LineEnd(s[1..])
  }

  /** `s.splitlines()`: "\r\n" is one boundary, and a final boundary adds no empty line. */
  function SplitLines(s: string): seq<string>
    decreases |s|
  {
    if s == [] then []
    else
      var i := LineEnd(s);
      if i == |s| then [s]
      else
        var j := if s[i] == '\r' && i + 1 < |s| && s[i + 1] == '\n' then i + 2 else i + 1;
        [s[..i]] + SplitLines(s[j..])
  }

  // ----------------------------------------------------------- decimals

  predicate IsDigit(c: char) { '0' <= c <= '9' }

  predicate AllDigits(s: string) { forall i :: 0 <= i < |s| ==> IsDigit(s[i]) }

  /** `s.isdigit()` (ASCII digits). */
  predicate IsDigitString(s: string) { |s| > 0 && AllDigits(s) }

  function DigitChar(d: nat): (c: char)
    requires d < 10
    ensures IsDigit(c)
  {
    ('0' as int + d) as char
  }

  /** `str(n)` for a natural number. */
  function NatToString(n: nat): string {
    if n < 10 then [DigitChar(n)] else NatToString(n / 10) + [DigitChar(n % 10)]
  }

  /** The value of a string of ASCII digits. */
  function DigitsValue(s: string): nat
    requires AllDigits(s)
  {
    if s == [] then 0
    else
      assert IsDigit(s[|s| - 1]);
      DigitsValue(s[..|s| - 1]) * 10 + (s[|s| - 1] as int - '0' as int)
  }

  /** `int(s)`: surrounding blanks, an optional sign, then ASCII digits. */
  function ParseInt(s: string): Option<int> {
    var t := Strip(s);
    if |t| > 0 && (t[0] == '-' || t[0] == '+') then
      if IsDigitString(t[1..]) then
        var v: int := DigitsValue(t[1..]);
        Some(if t[0] == '-' then -v else v)
      else None
    else if IsDigitString(t) then Some(DigitsValue(t))
    else None
  }

  /** `str(n)` is a digit string that reads back as `n`. */
  lemma {:induction false} NatToStringRoundTrip(n: nat)
    ensures IsDigitString(NatToString(n))
    ensures DigitsValue(NatToString(n)) == n
  {
    if n >= 10 {
      NatToStringRoundTrip(n / 10);
      var s := NatToString(n);
      assert s[..|s| - 1] == NatToString(n / 10);
    }
  }

  /** Decimal rendering is injective. */
  lemma NatToStringInjective(a: nat, b: nat)
    requires NatToString(a) == NatToString(b)
    ensures a == b
  {
    NatToStringRoundTrip(a);
    NatToStringRoundTrip(b);
  }

  /** Stripping blanks off a digit string changes nothing. */
  lemma StripDigits(s: string)
    requires IsDigitString(s)
    ensures StripLeft(s) == s && StripRight(s) == s && Strip(s) == s
  {
    assert IsDigit(s[0]) && !IsSpace(s[0]);
    assert StripLeft(s) == s;
    assert IsDigit(s[|s| - 1]) && !IsSpace(s[|s| - 1]);
    assert StripRight(s) == s;
  }

  /** `int(str(n)) == n`. */
  lemma ParseIntOfNatToString(n: nat)
    ensures ParseInt(NatToString(n)) == Some(n)
  {
    NatToStringRoundTrip(n);
    StripDigits(NatToString(n));
  }

  /** Number of characters after the last `sep` (the whole length when there is none). */
  function TailLen(s: string, sep: char): (n: nat)
    ensures n <= |s|
  {
    if |s| > 0 && s[|s| - 1] != sep then 1 + TailLen(s[..|s| - 1], sep) else 0
  }

  lemma {:induction false} TailLenAfterSeparator(a: string, t: string, sep: char)
    requires sep !in t
    ensures TailLen(a + [sep] + t, sep) == |t|
  {
    if t != [] {
      var s := a + [sep] + t;
      assert s[..|s| - 1] == a + [sep] + t[..|t| - 1];
      TailLenAfterSeparator(a, t[..|t| - 1], sep);
    }
  }

  /** Two strings that each end with `sep` followed by a separator-free tail
      can only be equal when the tails are equal. */
  lemma SameTailAfterLastSeparator(a: string, t1: string, b: string, t2: string, sep: char)
    requires sep !in t1 && sep !in t2
    requires a + [sep] + t1 == b + [sep] + t2
    ensures t1 == t2
  {
    var s := a + [sep] + t1;
    TailLenAfterSeparator(a, t1, sep);
    TailLenAfterSeparator(b, t2, sep);
    assert t1 == s[|s| - |t1|..] == t2;
  }

  /** `str(n)` never contains an underscore or a slash. */
  lemma NatToStringHasNo(n: nat, c: char)
    requires !IsDigit(c)
    ensures c !in NatToString(n)
  {
    NatToStringRoundTrip(n);
  }

  // ------------------------------------------- words, lines and their joins

  /** Upper-casing twice is upper-casing once. */
  lemma UpperIdempotent(s: string)
    ensures Upper(Upper(s)) == Upper(s)
  {
    assert forall i :: 0 <= i < |s| ==> UpperChar(UpperChar(s[i])) == UpperChar(s[i]);
  }

  /** A string without lower-case ASCII letters is its own upper-case form. */
  lemma UpperOfUpper(s: string)
    requires forall i :: 0 <= i < |s| ==> !('a' <= s[i] <= 'z')
    ensures Upper(s) == s
  {
  }

  /** A non-empty run of capitals and underscores is a word and its own upper-case form. */
  lemma CapitalsWord(s: string)
    requires s != [] && forall i :: 0 <= i < |s| ==> 'A' <= s[i] <= 'Z' || s[i] == '_'
    ensures IsWord(s) && Upper(s) == s
  {
  }

  /** A string that neither starts nor ends with a blank is its own `strip()`. */
  lemma StripNonBlankEnds(s: string)
    requires s != [] && !IsSpace(s[0]) && !IsSpace(s[|s| - 1])
    ensures Strip(s) == s
  {
  }

  lemma {:induction false} WordLenOfWordThenSpace(w: string, rest: string)
    requires IsWord(w)
    ensures WordLen(w + " " + rest) == |w|
  {
    if |w| > 1 {
      assert (w + " " + rest)[1..] == w[1..] + " " + rest;
      WordLenOfWordThenSpace(w[1..], rest);
    } else {
      assert (w + " " + rest)[1..] == " " + rest;
    }
  }

  /** `(w + " " + rest).split()` is `w` followed by `rest.split()`. */
  lemma SplitWordThenSpace(w: string, rest: string)
    requires IsWord(w)
    ensures Split(w + " " + rest) == [w] + Split(rest)
  {
    var s := w + " " + rest;
    WordLenOfWordThenSpace(w, rest);
    assert StripLeft(s) == s;
    assert s[..|w|] == w;
    assert s[|w|..] == " " + rest;
    assert StripLeft(" " + rest) == StripLeft(rest);
  }

  /** A single word splits into itself. */
  lemma SplitWord(w: string)
    requires IsWord(w)
    ensures Split(w) == [w]
  {
    assert StripLeft(w) == w;
    assert WordLen(w) == |w| by {
      if WordLen(w) < |w| { assert IsSpace(w[WordLen(w)]); }
    }
    assert w[..|w|] == w;
  }

  /** Line breaks are blanks, so a word contains none. */
  lemma WordHasNoLineBreak(w: string)
    requires IsWord(w)
    ensures forall i :: 0 <= i < |w| ==> !IsLineBreak(w[i])
  {
  }

  lemma {:induction false} LineEndOfLine(line: string, rest: string)
    requires forall i :: 0 <= i < |line| ==> !IsLineBreak(line[i])
    requires rest == [] || IsLineBreak(rest[0])
    ensures LineEnd(line + rest) == |line|
  {
    if line != [] {
      assert (line + rest)[1..] == line[1..] + rest;
      LineEndOfLine(line[1..], rest);
    }
  }

  /** `(line + "\n" + rest).splitlines()` for a line without breaks. */
  lemma SplitLinesCons(line: string, rest: string)
    requires forall i :: 0 <= i < |line| ==> !IsLineBreak(line[i])
    ensures SplitLines(line + "\n" + rest) == [line] + SplitLines(rest)
  {
    var s := line + "\n" + rest;
    LineEndOfLine(line, "\n" + rest);
    assert s == line + ("\n" + rest);
    assert s[..|line|] == line;
    assert s[|line| + 1..] == rest;
  }

  /** A non-empty line without breaks is a single line. */
  lemma SplitLinesOne(line: string)
    requires line != []
    requires forall i :: 0 <= i < |line| ==> !IsLineBreak(line[i])
    ensures SplitLines(line) == [line]
  {
    LineEndOfLine(line, []);
    assert line + [] == line;
  }

  /** `str(i)` for any integer. */
  function IntToString(i: int): string {
    if i < 0 then "-" + NatToString(-i) else NatToString(i)
  }

  /** `int(str(i)) == i`, and `str(i)` is a word. */
  lemma ParseIntOfIntToString(i: int)
    ensures ParseInt(IntToString(i)) == Some(i)
    ensures IsWord(IntToString(i))
  {
    if i >= 0 {
      ParseIntOfNatToString(i);
      NatToStringRoundTrip(i);
    } else {
      var d := NatToString(-i);
      NatToStringRoundTrip(-i);
      var s := "-" + d;
      StripNonBlankEnds(s);
      assert s[1..] == d;
    }
  }

  // ------------------------------------------------------------ paths

  /** A piece without the separator splits into itself. */
  lemma {:induction false} SplitOnPiece(w: string, c: char)
    requires c !in w
    ensures SplitOn(w, c) == [w]
  {
    if w != [] {
      SplitOnPiece(w[1..], c);
      assert [w[0]] + w[1..] == w;
    }
  }

  /** A piece without the separator, the separator, then the rest: the piece
      comes first and the rest is split on its own. */
  lemma {:induction false} SplitOnCons(w: string, rest: string, c: char)
    requires c !in w
    ensures SplitOn(w + [c] + rest, c) == [w] + SplitOn(rest, c)
  {
    var s := w + [c] + rest;
    if w == [] {
      assert s == [c] + rest;
      assert s[1..] == rest;
    } else {
      assert s[1..] == w[1..] + [c] + rest;
      SplitOnCons(w[1..], rest, c);
      assert [w[0]] + w[1..] == w;
    }
  }

  /** Stripping `c` off a string with one leading `c` and no other `c` at
      either end. */
  lemma StripOneLeading(s: string, c: char)
    requires s != [] && s[0] != c && s[|s| - 1] != c
    ensures StripChar([c] + s, c) == s
  {
    assert ([c] + s)[1..] == s;
  }

  /** `str(n)` is a non-empty run of digits. */
  lemma NatToStringShape(n: nat, c: char)
    requires !IsDigit(c)
    ensures NatToString(n) != [] && c !in NatToString(n)
    ensures NatToString(n)[0] != c && NatToString(n)[|NatToString(n)| - 1] != c
  {
    NatToStringRoundTrip(n);
  }
}
