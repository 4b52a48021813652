/**
 * The Python string built-ins the protocol relies on: str.strip(), str.split()
 * with no separator, sep.join(...), str.upper() as far as alias lookup can
 * observe it, int(s) on a string and str(n) on a non-negative integer.
 */
module PyText {
  import opened Errors
  import opened Seqs

  /** Python's str.isspace() for one character: exactly these code points. */
  predicate IsSpace(c: char) {
    ('\t' <= c <= '\r') || ('\U{1C}' <= c <= '\U{1F}') || c == ' '
    || c == '\U{85}' || c == '\U{A0}' || c == '\U{1680}'
    || ('\U{2000}' <= c <= '\U{200A}') || c == '\U{2028}' || c == '\U{2029}'
    || c == '\U{202F}' || c == '\U{205F}' || c == '\U{3000}'
  }

  /** Whitespace is never a digit, a sign, a letter or an underscore, so it never occurs in a token or a number. */
  lemma SpaceIsNoTokenChar(c: char)
    requires IsSpace(c)
    ensures !IsDigit(c) && !('A' <= c <= 'Z') && !('a' <= c <= 'z')
    ensures c != '_' && c != '+' && c != '-'
  {
  }

  predicate AllSpace(s: string) {
    forall i :: 0 <= i < |s| ==> IsSpace(s[i])
  }

  /** A token str.split() can produce: non-empty and free of whitespace. */
  predicate IsWord(s: string) {
    |s| > 0 && forall i :: 0 <= i < |s| ==> !IsSpace(s[i])
  }

  /** Neither starts nor ends with whitespace (the shape of a stripped string). */
  predicate Trimmed(s: string) {
    s == [] || (!IsSpace(s[0]) && !IsSpace(s[|s| - 1]))
  }

  /** Length of the leading run of whitespace of s. */
  function SpaceEnd(s: string): (k: nat)
    ensures k <= |s| && AllSpace(s[..k])
    ensures k < |s| ==> !IsSpace(s[k])
  {
    if s != [] && IsSpace(s[0]) then
      var k := 1 + SpaceEnd(s[1..]);
      assert forall i :: 0 < i < k ==> s[..k][i] == s[1..][..k - 1][i - 1];
      k
    else 0
  }

  /** Where the trailing run of whitespace of s starts. */
  function SpaceStart(s: string): (k: nat)
    ensures k <= |s| && AllSpace(s[k..])
    ensures 0 < k ==> !IsSpace(s[k - 1])
  {
    if s != [] && IsSpace(s[|s| - 1]) then
      var k := SpaceStart(s[..|s| - 1]);
      assert forall i :: k <= i < |s| - 1 ==> s[i] == s[..|s| - 1][i];
      k
    else |s|
  }

  /** str.strip(): drop the leading and the trailing whitespace. */
  function Strip(s: string): (r: string)
    ensures Trimmed(r)
    ensures r == [] <==> AllSpace(s)
    ensures |r| <= |s|
  {
    var l := s[SpaceEnd(s)..];
    var r := l[..SpaceStart(l)];
    assert r != [] ==> r[0] == l[0];
    assert AllSpace(s) ==> l == [] by {
      if l != [] { assert l[0] == s[SpaceEnd(s)]; }
    }
    assert r == [] ==> AllSpace(s) by {
      if r == [] {
        assert l == [];
        assert s == s[..SpaceEnd(s)];
      }
    }
    r
  }

  /** Length of the leading run of non-whitespace characters of s. */
  function WordEnd(s: string): (k: nat)
    ensures k <= |s| && (k < |s| ==> IsSpace(s[k]))
    ensures forall i :: 0 <= i < k ==> !IsSpace(s[i])
    ensures s != [] && !IsSpace(s[0]) ==> k > 0
  {
    if s == [] || IsSpace(s[0]) then 0 else 1 + WordEnd(s[1..])
  }

  /** str.split() with no separator: the maximal runs of non-whitespace, in order. */
  function Split(s: string): (r: seq<string>)
    ensures forall i :: 0 <= i < |r| ==> IsWord(r[i])
    ensures r == [] <==> AllSpace(s)
    decreases |s|
  {
    if s == [] then []
    else if IsSpace(s[0]) then
      var r := Split(s[1..]);
      assert AllSpace(s[1..]) ==> AllSpace(s) by {
        assert forall i :: 0 < i < |s| ==> s[i] == s[1..][i - 1];
      }
      r
    else
      var k := WordEnd(s);
      var rest := Split(s[k..]);
      assert forall i :: 0 < i <= |rest| ==> ([s[..k]] + rest)[i] == rest[i - 1];
      [s[..k]] + rest
  }

  /** sep.join(ws). */
  function Join(ws: seq<string>, sep: string): (r: string)
    ensures |ws| == 1 ==> r == ws[0]
  {
    if ws == [] then [] else if |ws| == 1 then ws[0] else ws[0] + sep + Join(ws[1..], sep)
  }

  /**
   * str.upper() as seen by a lookup among ASCII keys: ASCII letters, and the
   * ten non-ASCII characters whose upper-case form is all ASCII (sharp s,
   * dotless i, long s and the Latin ligatures), are mapped as Python maps
   * them; every other character is kept, which changes no lookup result
   * because its Python upper-case form is not ASCII either.
   */
  function UpperChar(c: char): (r: string)
    ensures 1 <= |r| <= 3
    ensures 'a' <= c <= 'z' ==> r == [(c as int - 32) as char]
    ensures c < '\U{80}' && !('a' <= c <= 'z') ==> r == [c]
  {
    if 'a' <= c <= 'z' then [(c as int - 32) as char]
    else if c == '\U{DF}' then "SS"
    else if c == '\U{131}' then "I"
    else if c == '\U{17F}' then "S"
    else if c == '\U{FB00}' then "FF"
    else if c == '\U{FB01}' then "FI"
    else if c == '\U{FB02}' then "FL"
    else if c == '\U{FB03}' then "FFI"
    else if c == '\U{FB04}' then "FFL"
    else if c == '\U{FB05}' || c == '\U{FB06}' then "ST"
    else [c]
  }

  function Upper(s: string): (r: string)
    ensures |s| <= |r| <= 3 * |s|
    ensures (forall i :: 0 <= i < |s| ==> s[i] < '\U{80}') ==> |r| == |s|
    decreases |s|
  {
    if s == [] then [] else UpperChar(s[0]) + Upper(s[1..])
  }

  /** Characters that str.upper() leaves alone and that occur in command tokens. */
  predicate IsUpperToken(s: string) {
    forall i :: 0 <= i < |s| ==> ('A' <= s[i] <= 'Z' || s[i] == '_')
  }

  predicate IsDigit(c: char) {
    '0' <= c <= '9'
  }

  /** The digit part int() accepts: digits, single underscores only between two digits. */
  predicate IsDigitGroups(s: string) {
    && |s| > 0 && IsDigit(s[0]) && IsDigit(s[|s| - 1])
    && forall i :: 0 <= i < |s| ==> DigitOrJoiner(s, i)
  }

  /** Position i holds a digit, or an underscore with a digit on each side. */
  predicate DigitOrJoiner(s: string, i: nat)
    requires i < |s|
  {
    IsDigit(s[i]) || (s[i] == '_' && 0 < i < |s| - 1 && IsDigit(s[i - 1]) && IsDigit(s[i + 1]))
  }

  /** Base-10 value of a run of digits, underscores skipped. */
  function DigitsValue(s: string): (v: nat)
    decreases |s|
  {
    if s == [] then 0
    else if IsDigit(s[|s| - 1]) then 10 * DigitsValue(s[..|s| - 1]) + (s[|s| - 1] as int - '0' as int)
    else DigitsValue(s[..|s| - 1])
  }

  /**
   * The four information separators U+001C..U+001F: str.isspace() counts
   * them as whitespace, but int() skips only the other whitespace
   * characters, and they are neither a sign nor a digit.
   */
  predicate IsSeparatorControl(c: char) {
    '\U{1C}' <= c <= '\U{1F}'
  }

  predicate HasSeparatorControl(s: string) {
    exists i :: 0 <= i < |s| && IsSeparatorControl(s[i])
  }

  /**
   * int(s) on a string: surrounding whitespace stripped, an optional sign,
   * then ASCII digit groups; None where Python raises ValueError. Once a
   * string holds no information separator, the whitespace int() skips is
   * exactly the whitespace str.strip() removes.
   */
  function PyInt(s: string): (r: Option<int>)
    ensures |s| > 0 && (forall i :: 0 <= i < |s| ==> IsDigit(s[i])) ==> r == Some(DigitsValue(s))
    ensures HasSeparatorControl(s) ==> r == None
  {
    assert |s| > 0 && (forall i :: 0 <= i < |s| ==> IsDigit(s[i])) ==>
             !HasSeparatorControl(s) && Strip(s) == s && IsDigitGroups(s) by {
      if |s| > 0 && (forall i :: 0 <= i < |s| ==> IsDigit(s[i])) {
        StripPadded([], s, []);
        assert [] + s + [] == s;
      }
    }
    if HasSeparatorControl(s) then None
    else
      var t := Strip(s);
      if |t| > 0 && (t[0] == '+' || t[0] == '-') then
        if IsDigitGroups(t[1..]) then
          Some(if t[0] == '-' then -(DigitsValue(t[1..]) as int) else DigitsValue(t[1..]))
        else None
      else if IsDigitGroups(t) then Some(DigitsValue(t))
      else None
  }

  function DigitChar(d: nat): (c: char)
    requires d < 10
    ensures IsDigit(c) && c as int - '0' as int == d
  {
    ('0' as int + d) as char
  }

  /** str(n) for a non-negative int: its shortest decimal form. */
  function NatToString(n: nat): (r: string)
    ensures |r| > 0 && forall i :: 0 <= i < |r| ==> IsDigit(r[i])
    ensures |r| > 1 ==> r[0] != '0'
  {
    if n < 10 then [DigitChar(n)] else NatToString(n / 10) + [DigitChar(n % 10)]
  }

  // ---------------------------------------------------------------------------
  // Lemmas about strip and split

  lemma AllSpaceAppend(a: string, b: string)
    requires AllSpace(a) && AllSpace(b)
    ensures AllSpace(a + b)
  {
    forall i | 0 <= i < |a + b|
      ensures IsSpace((a + b)[i])
    {
      if i < |a| { assert (a + b)[i] == a[i]; } else { assert (a + b)[i] == b[i - |a|]; }
    }
  }

  lemma {:induction false} SpaceEndPadded(p: string, t: string)
    requires AllSpace(p) && (t == [] || !IsSpace(t[0]))
    ensures SpaceEnd(p + t) == |p|
    decreases |p|
  {
    if p != [] {
      assert (p + t)[1..] == p[1..] + t;
      SpaceEndPadded(p[1..], t);
    } else {
      assert p + t == t;
    }
  }

  lemma {:induction false} SpaceStartPadded(t: string, q: string)
    requires AllSpace(q) && (t == [] || !IsSpace(t[|t| - 1]))
    ensures SpaceStart(t + q) == |t|
    decreases |q|
  {
    if q != [] {
      assert (t + q)[..|t + q| - 1] == t + q[..|q| - 1];
      SpaceStartPadded(t, q[..|q| - 1]);
    } else {
      assert t + q == t;
    }
  }

  /** Whitespace around an already stripped string is exactly what strip() removes. */
  lemma StripPadded(p: string, t: string, q: string)
    requires AllSpace(p) && AllSpace(q) && Trimmed(t)
    ensures Strip(p + t + q) == t
  {
    if t == [] {
      assert p + t + q == p + q;
      AllSpaceAppend(p, q);
    } else {
      assert p + t + q == p + (t + q);
      assert (t + q)[0] == t[0];
      SpaceEndPadded(p, t + q);
      assert (p + t + q)[|p|..] == t + q;
      SpaceStartPadded(t, q);
      assert (t + q)[..|t|] == t;
    }
  }

  lemma {:induction false} WordEndPadded(w: string, rest: string)
    requires forall i :: 0 <= i < |w| ==> !IsSpace(w[i])
    requires rest == [] || IsSpace(rest[0])
    ensures WordEnd(w + rest) == |w|
    decreases |w|
  {
    if w != [] {
      assert (w + rest)[1..] == w[1..] + rest;
      WordEndPadded(w[1..], rest);
    } else {
      assert w + rest == rest;
    }
  }

  lemma {:induction false} WordEndTrailing(u: string, q: string)
    requires AllSpace(q)
    ensures WordEnd(u + q) == WordEnd(u)
    decreases |u|
  {
    if u == [] {
      assert u + q == q;
    } else if !IsSpace(u[0]) {
      assert (u + q)[1..] == u[1..] + q;
      WordEndTrailing(u[1..], q);
    }
  }

  lemma {:induction false} SplitLeadingSpace(p: string, t: string)
    requires AllSpace(p)
    ensures Split(p + t) == Split(t)
    decreases |p|
  {
    if p == [] {
      assert p + t == t;
    } else {
      assert (p + t)[0] == p[0];
      assert (p + t)[1..] == p[1..] + t;
      SplitLeadingSpace(p[1..], t);
    }
  }

  lemma {:induction false} SplitTrailingSpace(t: string, q: string)
    requires AllSpace(q)
    ensures Split(t + q) == Split(t)
    decreases |t|
  {
    if t == [] {
      assert t + q == q;
    } else if IsSpace(t[0]) {
      assert (t + q)[0] == t[0];
      assert (t + q)[1..] == t[1..] + q;
      SplitTrailingSpace(t[1..], q);
    } else {
      assert (t + q)[0] == t[0];
      var k := WordEnd(t);
      WordEndTrailing(t, q);
      assert (t + q)[..k] == t[..k];
      assert (t + q)[k..] == t[k..] + q;
      SplitTrailingSpace(t[k..], q);
    }
  }

  lemma {:induction false} JoinWordsShape(ws: seq<string>)
    requires |ws| > 0 && forall i :: 0 <= i < |ws| ==> IsWord(ws[i])
    ensures |Join(ws, " ")| > 0 && Trimmed(Join(ws, " "))
    ensures Join(ws, " ")[0] == ws[0][0]
  {
    if |ws| > 1 {
      JoinWordsShape(ws[1..]);
    }
  }

  lemma WordExcludesNewline(w: string)
    requires IsWord(w)
    ensures '\n' !in w
  {
  }

  /** A word followed by nothing or by whitespace is the first token split() finds. */
  lemma SplitWordThen(w: string, rest: string)
    requires IsWord(w) && (rest == [] || IsSpace(rest[0]))
    ensures Split(w + rest) == [w] + Split(rest)
  {
    var s := w + rest;
    assert s[0] == w[0];
    WordEndPadded(w, rest);
    assert s[..|w|] == w;
    assert s[|w|..] == rest;
  }

  /** Splitting a single-space join of tokens gives the tokens back. */
  lemma {:induction false} SplitJoin(ws: seq<string>)
    requires forall i :: 0 <= i < |ws| ==> IsWord(ws[i])
    ensures Split(Join(ws, " ")) == ws
    decreases |ws|
  {
    if |ws| == 1 {
      SplitWordThen(ws[0], []);
      assert ws[0] + [] == ws[0];
    } else if |ws| > 1 {
      var tail := Join(ws[1..], " ");
      assert Join(ws, " ") == ws[0] + (" " + tail);
      SplitWordThen(ws[0], " " + tail);
      SplitLeadingSpace(" ", tail);
      SplitJoin(ws[1..]);
      assert ws == [ws[0]] + ws[1..];
    }
  }

  /** A character absent from every piece and from the separator is absent from the join. */
  lemma {:induction false} JoinExcludes(ws: seq<string>, sep: string, ch: char)
    requires forall i :: 0 <= i < |ws| ==> ch !in ws[i]
    requires ch !in sep
    ensures ch !in Join(ws, sep)
    decreases |ws|
  {
    if |ws| > 1 {
      JoinExcludes(ws[1..], sep, ch);
    }
  }

  /** Joining with one more leading piece puts that piece and the separator in front. */
  lemma JoinCons(w: string, ws: seq<string>, sep: string)
    requires ws != []
    ensures Join([w] + ws, sep) == w + sep + Join(ws, sep)
  {
    assert ([w] + ws)[1..] == ws;
  }

  // ---------------------------------------------------------------------------
  // Lemmas about upper-casing

  lemma {:induction false} UpperAppend(a: string, b: string)
    ensures Upper(a + b) == Upper(a) + Upper(b)
    decreases |a|
  {
    if a == [] {
      assert a + b == b;
    } else {
      assert (a + b)[1..] == a[1..] + b;
      UpperAppend(a[1..], b);
    }
  }

  /** Command tokens are fixed points of upper-casing. */
  lemma {:induction false} UpperOfUpperToken(s: string)
    requires IsUpperToken(s)
    ensures Upper(s) == s
    decreases |s|
  {
    if s != [] {
      UpperOfUpperToken(s[1..]);
    }
  }

  /** A non-empty run of upper-case letters and underscores is a word and is stripped. */
  lemma UpperTokenShape(t: string)
    requires IsUpperToken(t) && |t| > 0
    ensures IsWord(t) && Trimmed(t)
  {
  }

  function LowerChar(c: char): (r: char)
    ensures IsSpace(r) <==> IsSpace(c)
  {
    if 'A' <= c <= 'Z' then (c as int + 32) as char else c
  }

  /** A stripped upper-case token is left alone by strip() and upper(). */
  lemma CanonicalForm(t: string)
    requires IsUpperToken(t) && Trimmed(t)
    ensures Strip(t) == t && Upper(t) == t
  {
    UpperOfUpperToken(t);
    StripPadded([], t, []);
    assert [] + t + [] == t;
  }

  /** Lower-casing ASCII letters, what a client may do to a token. */
  function LowerAscii(s: string): (r: string)
    ensures |r| == |s| && forall i :: 0 <= i < |s| ==> r[i] == LowerChar(s[i])
  {
    seq(|s|, i requires 0 <= i < |s| => LowerChar(s[i]))
  }

  /** Case of ASCII letters never changes the upper-cased form. */
  lemma {:induction false} UpperIgnoresCase(s: string)
    ensures Upper(LowerAscii(s)) == Upper(s)
    decreases |s|
  {
    if s != [] {
      var l := LowerAscii(s);
      assert l[1..] == LowerAscii(s[1..]);
      assert UpperChar(l[0]) == UpperChar(s[0]);
      UpperIgnoresCase(s[1..]);
      assert Upper(l) == UpperChar(l[0]) + Upper(l[1..]);
    }
  }

  lemma LowerAsciiAppend(a: string, b: string)
    ensures LowerAscii(a + b) == LowerAscii(a) + LowerAscii(b)
  {
    assert forall i :: 0 <= i < |a + b| ==> LowerAscii(a + b)[i] == (LowerAscii(a) + LowerAscii(b))[i];
  }

  /** A string is the whitespace strip() removes around what strip() keeps. */
  lemma StripParts(t: string) returns (a: string, b: string)
    ensures AllSpace(a) && AllSpace(b) && t == a + Strip(t) + b
  {
    var e := SpaceEnd(t);
    var l := t[e..];
    var k := SpaceStart(l);
    var r := l[..k];
    a := t[..e];
    b := l[k..];
    Halves(t, e);
    Halves(l, k);
    Assoc(a, r, b);
  }

  /** split() sees the same tokens before and after strip(). */
  lemma SplitStrip(s: string)
    ensures Split(Strip(s)) == Split(s)
  {
    var a, b := StripParts(s);
    var r := Strip(s);
    assert s == a + (r + b);
    SplitLeadingSpace(a, r + b);
    SplitTrailingSpace(r, b);
  }

  lemma SeqAssoc(p: string, a: string, r: string, b: string, q: string)
    ensures p + (a + r + b) + q == (p + a) + r + (b + q)
  {
  }

  /** Whitespace added around a string is removed by strip() with the rest. */
  lemma StripAbsorbsPadding(p: string, t: string, q: string)
    requires AllSpace(p) && AllSpace(q)
    ensures Strip(p + t + q) == Strip(t)
  {
    var a, b := StripParts(t);
    var r := Strip(t);
    AllSpaceAppend(p, a);
    AllSpaceAppend(b, q);
    calc {
      p + t + q;
      p + (a + r + b) + q;
      { SeqAssoc(p, a, r, b, q); }
      (p + a) + r + (b + q);
    }
    StripPadded(p + a, r, b + q);
  }

  lemma LowerAsciiShape(a: string, r: string, b: string)
    requires AllSpace(a) && AllSpace(b) && Trimmed(r)
    ensures AllSpace(LowerAscii(a)) && AllSpace(LowerAscii(b)) && Trimmed(LowerAscii(r))
  {
  }

  /** Lower-casing and stripping commute. */
  lemma LowerAsciiStrip(t: string)
    ensures Strip(LowerAscii(t)) == LowerAscii(Strip(t))
  {
    var a, b := StripParts(t);
    var r := Strip(t);
    LowerAsciiAppend(a + r, b);
    LowerAsciiAppend(a, r);
    LowerAsciiShape(a, r, b);
    StripPadded(LowerAscii(a), LowerAscii(r), LowerAscii(b));
  }

  // ---------------------------------------------------------------------------
  // Lemmas about int() and str()

  lemma DigitsValueAppend(s: string, d: nat)
    requires d < 10
    ensures DigitsValue(s + [DigitChar(d)]) == 10 * DigitsValue(s) + d
  {
    assert (s + [DigitChar(d)])[..|s|] == s;
  }

  lemma {:induction false} NatToStringValue(n: nat)
    ensures IsDigitGroups(NatToString(n)) && DigitsValue(NatToString(n)) == n
  {
    if n < 10 {
      assert DigitsValue([DigitChar(n)]) == 10 * DigitsValue([]) + n;
    } else {
      NatToStringValue(n / 10);
      DigitsValueAppend(NatToString(n / 10), n % 10);
    }
  }

  /** int(str(n)) == n for every non-negative n. */
  lemma NatToStringRoundTrip(n: nat)
    ensures PyInt(NatToString(n)) == Some(n)
  {
    NatToStringValue(n);
  }

  /** int("-" + d) for a run of digit groups d is the negated value of d. */
  lemma PyIntNegative(d: string)
    requires IsDigitGroups(d)
    ensures PyInt("-" + d) == Some(-(DigitsValue(d) as int))
  {
    var s := "-" + d;
    assert s[0] == '-' && s[1..] == d;
    assert s[|s| - 1] == d[|d| - 1];
    StripPadded([], s, []);
    assert [] + s + [] == s;
    assert Strip(s) == s;
    SignedHasNoSeparator(d);
  }

  lemma SignedHasNoSeparator(d: string)
    requires IsDigitGroups(d)
    ensures !HasSeparatorControl("-" + d)
  {
    var s := "-" + d;
    forall i | 0 <= i < |s|
      ensures !IsSeparatorControl(s[i])
    {
      if i > 0 {
        assert s[i] == d[i - 1] && DigitOrJoiner(d, i - 1);
      }
    }
  }

  /**
   * int() refuses a number after an information separator although
   * str.strip() removes the separator.
   */
  lemma SeparatorNotSkipped()
    ensures Strip("\U{1C}5") == "5"
    ensures PyInt("\U{1C}5") == None
  {
    var s := "\U{1C}5";
    StripPadded("\U{1C}", "5", []);
    assert "\U{1C}" + "5" + [] == s;
    assert IsSeparatorControl(s[0]);
  }
}
