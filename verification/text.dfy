/** Characters and strings with the meaning Python gives them in the scoring code:
    `str.strip()`, the regex class `\s`, `str.upper()` / `str.lower()` on the
    letters that occur in scale codes, slugs and file extensions, decimal digits,
    and the text accepted by `int()`. */
module Text {

  datatype Option<T> = None | Some(value: T)

  /** How a Python call ends: with a value, or by raising an exception. */
  datatype Outcome<T> = Returned(value: T) | Raised

  /** Python's `str.isspace()`; both `str.strip()` and the regex class `\s` use it. */
  predicate IsSpace(c: char) {
    || ('\t' <= c <= '\r')
    || ('\U{1C}' <= c <= ' ')
    || c == '\U{85}' || c == '\U{A0}' || c == '\U{1680}'
    || ('\U{2000}' <= c <= '\U{200A}')
    || c == '\U{2028}' || c == '\U{2029}' || c == '\U{202F}' || c == '\U{205F}' || c == '\U{3000}'
  }

  predicate IsDigit(c: char) { '0' <= c <= '9' }

  predicate AllDigits(s: string) { forall i :: 0 <= i < |s| ==> IsDigit(s[i]) }

  /** `str.lstrip()` */
  function LStrip(s: string): (r: string)
    ensures |r| <= |s| && r == s[|s| - |r|..]
    ensures r == [] || !IsSpace(r[0])
    ensures forall i :: 0 <= i < |s| - |r| ==> IsSpace(s[i])
  {
    if s != [] && IsSpace(s[0]) then LStrip(s[1..]) else s
  }

  /** `str.rstrip()` */
  function RStrip(s: string): (r: string)
    ensures |r| <= |s| && r == s[..|r|]
    ensures r == [] || !IsSpace(r[|r| - 1])
    ensures forall i :: |r| <= i < |s| ==> IsSpace(s[i])
  {
    if s != [] && IsSpace(s[|s| - 1]) then RStrip(s[..|s| - 1]) else s
  }

  /** `str.strip()` */
  function Strip(s: string): (r: string)
    ensures r == [] || (!IsSpace(r[0]) && !IsSpace(r[|r| - 1]))
  {
    RStrip(LStrip(s))
  }

  /** The stripped text is a slice of the original: whatever `LStrip` skipped, then a prefix. */
  lemma StripSlice(s: string)
    ensures var a := |s| - |LStrip(s)|;
      a + |Strip(s)| <= |s| && Strip(s) == s[a..a + |Strip(s)|]
  {
    var l := LStrip(s);
    var a := |s| - |l|;
    var r := RStrip(l);
    assert l == s[a..];
    assert r == l[..|r|];
    assert s[a..][..|r|] == s[a..a + |r|];
  }

  lemma StripUnchanged(s: string)
    requires s != [] && !IsSpace(s[0]) && !IsSpace(s[|s| - 1])
    ensures Strip(s) == s
  {
    assert LStrip(s) == s;
  }

  predicate AllSpace(s: string) { forall i :: 0 <= i < |s| ==> IsSpace(s[i]) }

  /** Spaces up to `k` and a non-space at `k`: `lstrip` removes exactly those spaces. */
  lemma LStripExact(s: string, k: nat)
    requires k <= |s| && (forall i :: 0 <= i < k ==> IsSpace(s[i])) && (k == |s| || !IsSpace(s[k]))
    ensures LStrip(s) == s[k..]
  {
    var r := LStrip(s);
    assert r == s[|s| - |r|..];
  }

  lemma RStripExact(s: string, k: nat)
    requires k <= |s| && (forall i :: k <= i < |s| ==> IsSpace(s[i])) && (k == 0 || !IsSpace(s[k - 1]))
    ensures RStrip(s) == s[..k]
  {
    var r := RStrip(s);
    assert r == s[..|r|];
  }

  /** `strip` removes the spaces around a text that starts and ends with a non-space. */
  lemma StripPadded(pre: string, m: string, post: string)
    requires AllSpace(pre) && AllSpace(post) && m != [] && !IsSpace(m[0]) && !IsSpace(m[|m| - 1])
    ensures Strip(pre + m + post) == m
  {
    var s := pre + m + post;
    var t := m + post;
    assert LStrip(s) == t by {
      forall i | 0 <= i < |pre| ensures IsSpace(s[i]) {
        assert s[i] == pre[i];
      }
      assert s[|pre|] == m[0];
      LStripExact(s, |pre|);
      assert s[|pre|..] == t;
    }
    assert RStrip(t) == m by {
      forall i | |m| <= i < |t| ensures IsSpace(t[i]) {
        assert t[i] == post[i - |m|];
      }
      assert t[|m| - 1] == m[|m| - 1];
      RStripExact(t, |m|);
      assert t[..|m|] == m;
    }
  }


  /** `str.upper()` on one character whose upper case is one character: ASCII, Latin-1 and
      Cyrillic letters, ÿ (to Ÿ), µ (to the Greek capital mu), and the dotless i and the
      long s, whose upper cases are Latin capitals. */
  function UpperChar(c: char): char {
    if 'a' <= c <= 'z' then (c as int - 32) as char
    else if '\U{E0}' <= c <= '\U{FE}' && c != '\U{F7}' then (c as int - 32) as char
    else if c == '\U{FF}' then '\U{178}'
    else if c == '\U{B5}' then '\U{39C}'
    else if '\U{430}' <= c <= '\U{44F}' then (c as int - 32) as char
    else if '\U{450}' <= c <= '\U{45F}' then (c as int - 80) as char
    else if c == '\U{131}' then 'I'
    else if c == '\U{17F}' then 'S'
    else c
  }

  /** `str.upper()` on one character: ß becomes "SS", every other character one character. */
  function UpperOf(c: char): string {
    if c == '\U{DF}' then "SS" else [UpperChar(c)]
  }

  /** A character that `str.upper()` leaves as it is. */
  predicate IsUpperFixed(c: char) {
    c != '\U{DF}' && UpperChar(c) == c
  }

  predicate NoSharpS(s: string) {
    forall i :: 0 <= i < |s| ==> s[i] != '\U{DF}'
  }

  /** `str.lower()` on one character, for ASCII, Latin-1 and Cyrillic letters, Ÿ and the Kelvin sign. */
  function LowerChar(c: char): char {
    if 'A' <= c <= 'Z' then (c as int + 32) as char
    else if '\U{C0}' <= c <= '\U{DE}' && c != '\U{D7}' then (c as int + 32) as char
    else if c == '\U{178}' then '\U{FF}'
    else if '\U{410}' <= c <= '\U{42F}' then (c as int + 32) as char
    else if '\U{400}' <= c <= '\U{40F}' then (c as int + 80) as char
    else if c == '\U{212A}' then 'k'
    else c
  }

  /** `str.upper()`. The result is never shorter, keeps the length when there is no ß, and
      holds no character that upper-casing would change. */
  function Upper(s: string): (r: string)
    ensures |s| <= |r|
    ensures NoSharpS(s) ==> |r| == |s| && forall i :: 0 <= i < |s| ==> r[i] == UpperChar(s[i])
    ensures forall i :: 0 <= i < |r| ==> IsUpperFixed(r[i])
  {
    if s == [] then [] else UpperOf(s[0]) + Upper(s[1..])
  }

  /** `str.lower()` keeps the length, and its result holds no character that lower-casing would change. */
  function Lower(s: string): (r: string)
    ensures |r| == |s| && forall i :: 0 <= i < |s| ==> r[i] == LowerChar(s[i])
    ensures forall i :: 0 <= i < |r| ==> LowerChar(r[i]) == r[i]
  {
    seq(|s|, i requires 0 <= i < |s| => LowerChar(s[i]))
  }

  /** Text that upper-casing leaves alone is its own upper case. */
  lemma {:induction false} UpperFixedText(s: string)
    requires forall i :: 0 <= i < |s| ==> IsUpperFixed(s[i])
    ensures Upper(s) == s
  {
    if s != [] {
      UpperFixedText(s[1..]);
      assert [s[0]] + s[1..] == s;
    }
  }

  /** Upper-casing twice is upper-casing once. */
  lemma UpperIdempotent(s: string)
    ensures Upper(Upper(s)) == Upper(s)
  {
    UpperFixedText(Upper(s));
  }

  /** Lower-casing twice is lower-casing once. */
  lemma LowerIdempotent(s: string)
    ensures Lower(Lower(s)) == Lower(s)
  {
  }

  /** A letter with a case partner in the modelled ranges: ASCII, Latin-1 other than ß, µ and
      the signs × and ÷, and Cyrillic. */
  predicate IsCasedLetter(c: char) {
    || ('A' <= c <= 'Z') || ('a' <= c <= 'z')
    || ('\U{C0}' <= c <= '\U{FF}' && c != '\U{D7}' && c != '\U{F7}' && c != '\U{DF}')
    || ('\U{400}' <= c <= '\U{45F}')
  }

  lemma CaseFoldChar(c: char)
    requires IsCasedLetter(c)
    ensures UpperChar(LowerChar(c)) == UpperChar(c) && LowerChar(UpperChar(c)) == LowerChar(c)
  {
  }

  /** On cased letters, upper- and lower-casing forget only the case: the upper case of the
      lower case is the upper case, and the other way round. */
  lemma CaseFold(s: string)
    requires forall i :: 0 <= i < |s| ==> IsCasedLetter(s[i])
    ensures Upper(Lower(s)) == Upper(s) && Lower(Upper(s)) == Lower(s)
  {
    var l := Lower(s);
    assert NoSharpS(s);
    assert NoSharpS(l) by {
      forall i | 0 <= i < |s| ensures l[i] != '\U{DF}' {
        CaseFoldChar(s[i]);
      }
    }
    var ul, u := Upper(l), Upper(s);
    assert |ul| == |u| == |s|;
    forall i | 0 <= i < |s| ensures ul[i] == u[i] {
      CaseFoldChar(s[i]);
    }
    var lu := Lower(u);
    forall i | 0 <= i < |s| ensures lu[i] == l[i] {
      CaseFoldChar(s[i]);
    }
  }

  /** Python 3's `upper` on the three Latin-1 letters whose upper case leaves Latin-1. */
  lemma UpperLatin1Specials()
    ensures Upper("\U{DF}") == "SS" && Upper("\U{FF}") == "\U{178}" && Upper("\U{B5}") == "\U{39C}"
  {
    assert "\U{DF}"[1..] == [] && "\U{FF}"[1..] == [] && "\U{B5}"[1..] == [];
  }

  /** The value of a run of decimal digits. */
  function DigitsValue(s: string): (n: nat)
    requires AllDigits(s)
  {
    if s == [] then 0 else 10 * DigitsValue(s[..|s| - 1]) + (s[|s| - 1] as int - '0' as int)
  }

  /** The end of the longest run of characters satisfying `p` that starts at `i`. */
  function Span(s: string, i: nat, p: char -> bool): (j: nat)
    requires i <= |s|
    ensures i <= j <= |s|
    ensures forall k :: i <= k < j ==> p(s[k])
    ensures j == |s| || !p(s[j])
    decreases |s| - i
  {
    if i < |s| && p(s[i]) then Span(s, i + 1, p) else i
  }

  /** A run that is known to end at `j` is the run `Span` finds. */
  lemma SpanExact(s: string, i: nat, j: nat, p: char -> bool)
    requires i <= j <= |s|
    requires forall k :: i <= k < j ==> p(s[k])
    requires j == |s| || !p(s[j])
    ensures Span(s, i, p) == j
  {
    var r := Span(s, i, p);
    assert r <= j by {
      assert j < |s| ==> !p(s[j]);
    }
    assert r >= j by {
      assert r < |s| ==> !p(s[r]);
    }
  }

  /** A run that `a` continues from `i` to its end goes on into `b` as far as `b`'s own run from its start. */
  lemma SpanAppend(a: string, b: string, i: nat, p: char -> bool)
    requires i <= |a| && forall k :: i <= k < |a| ==> p(a[k])
    ensures Span(a + b, i, p) == |a| + Span(b, 0, p)
  {
    var s := a + b;
    var j := |a| + Span(b, 0, p);
    forall k | i <= k < j ensures p(s[k]) {
      if k >= |a| {
        assert s[k] == b[k - |a|];
      }
    }
    if j < |s| {
      assert s[j] == b[j - |a|];
    }
    SpanExact(s, i, j, p);
  }

  predicate IsSeparator(c: char) { c == ';' || c == ',' }

  /** The `;` and `,` of `s`, in order. */
  function SeparatorsOf(s: string): (seps: string)
    ensures forall i :: 0 <= i < |seps| ==> IsSeparator(seps[i])
  {
    if s == [] then [] else (if IsSeparator(s[0]) then [s[0]] else []) + SeparatorsOf(s[1..])
  }

  /** Tokens put back together, each separator between the two tokens it divides. */
  function Rejoin(tokens: seq<string>, seps: string): string
    requires |tokens| == |seps| + 1
  {
    if seps == [] then tokens[0] else tokens[0] + [seps[0]] + Rejoin(tokens[1..], seps[1..])
  }

  lemma RejoinCons(c: char, tokens: seq<string>, seps: string)
    requires |tokens| == |seps| + 1
    ensures Rejoin([[c] + tokens[0]] + tokens[1..], seps) == [c] + Rejoin(tokens, seps)
  {
    var ts := [[c] + tokens[0]] + tokens[1..];
    assert ts[1..] == tokens[1..];
  }

  /** `re.split(r"[;,]", s)`, which is also `s.replace(",", ";").split(";")`: at least one
      token, none holding a separator (`SplitJoin` puts them back together). */
  function SplitSeparators(s: string): (r: seq<string>)
    ensures |r| >= 1
    ensures forall k, c :: 0 <= k < |r| && c in r[k] ==> !IsSeparator(c)
  {
    if s == [] then [[]]
    else
      var rest := SplitSeparators(s[1..]);
      if IsSeparator(s[0]) then [[]] + rest else [[s[0]] + rest[0]] + rest[1..]
  }

  /** Splitting loses nothing: one token more than there are separators, and putting the
      tokens back together with the separators gives `s` again. */
  lemma {:induction false} SplitJoin(s: string)
    ensures |SplitSeparators(s)| == |SeparatorsOf(s)| + 1
    ensures Rejoin(SplitSeparators(s), SeparatorsOf(s)) == s
  {
    if s != [] {
      var rest := SplitSeparators(s[1..]);
      SplitJoin(s[1..]);
      if IsSeparator(s[0]) {
        assert ([[]] + rest)[1..] == rest;
      } else {
        RejoinCons(s[0], rest, SeparatorsOf(s[1..]));
        assert SeparatorsOf(s) == SeparatorsOf(s[1..]);
        assert [s[0]] + s[1..] == s;
      }
    }
  }

  /** A token without separators, a separator, then the rest: the token comes first. */
  lemma {:induction false} SplitAfterToken(a: string, sep: char, rest: string)
    requires IsSeparator(sep) && forall i :: 0 <= i < |a| ==> !IsSeparator(a[i])
    ensures SplitSeparators(a + [sep] + rest) == [a] + SplitSeparators(rest)
  {
    if a == [] {
      assert [] + [sep] + rest == [sep] + rest;
      assert ([sep] + rest)[1..] == rest;
    } else {
      SplitAfterToken(a[1..], sep, rest);
      assert (a + [sep] + rest)[1..] == a[1..] + [sep] + rest;
      assert [a[0]] + a[1..] == a;
    }
  }

  /** Splitting undoes `Rejoin`: tokens without separators, joined by separators, split
      back into the same tokens. */
  lemma {:induction false} SplitRejoin(tokens: seq<string>, seps: string)
    requires |tokens| == |seps| + 1
    requires forall i :: 0 <= i < |seps| ==> IsSeparator(seps[i])
    requires forall k, i :: 0 <= k < |tokens| && 0 <= i < |tokens[k]| ==> !IsSeparator(tokens[k][i])
    ensures SplitSeparators(Rejoin(tokens, seps)) == tokens
  {
    if seps == [] {
      SplitNoSeparator(tokens[0]);
    } else {
      SplitRejoin(tokens[1..], seps[1..]);
      SplitAfterToken(tokens[0], seps[0], Rejoin(tokens[1..], seps[1..]));
      assert [tokens[0]] + tokens[1..] == tokens;
    }
  }

  /** A value without `;` or `,` is one token. */
  lemma {:induction false} SplitNoSeparator(s: string)
    requires forall i :: 0 <= i < |s| ==> !IsSeparator(s[i])
    ensures SplitSeparators(s) == [s]
  {
    if s != [] {
      SplitNoSeparator(s[1..]);
      assert [s[0]] + s[1..] == s;
    }
  }

  /** The digits of a Python integer literal between the optional sign and the end:
      digits with single underscores between them (`int("1_000") == 1000`). */
  predicate IsDigitGroups(s: string) {
    && s != [] && IsDigit(s[0]) && IsDigit(s[|s| - 1])
    && (forall i :: 0 <= i < |s| ==> IsDigit(s[i]) || s[i] == '_')
    && (forall i, j :: 0 <= i < |s| && 0 <= j < |s| && j == i + 1 ==> !(s[i] == '_' && s[j] == '_'))
  }

  function DropUnderscores(s: string): (r: string)
    requires forall i :: 0 <= i < |s| ==> IsDigit(s[i]) || s[i] == '_'
    ensures AllDigits(r)
  {
    if s == [] then []
    else if s[0] == '_' then DropUnderscores(s[1..])
    else [s[0]] + DropUnderscores(s[1..])
  }

  lemma {:induction false} DropUnderscoresDigits(s: string)
    requires AllDigits(s)
    ensures DropUnderscores(s) == s
  {
    if s != [] {
      DropUnderscoresDigits(s[1..]);
      assert [s[0]] + s[1..] == s;
    }
  }

  /** `int(s)` on a string: `None` where Python raises `ValueError`. Once stripped, what it
      reads is an optional sign and digits, possibly grouped by single underscores, and only
      a minus sign leads to a negative value. */
  function PyInt(s: string): (r: Option<int>)
    ensures r.Some? ==> var t := Strip(s);
      && t != [] && IsDigit(t[|t| - 1])
      && (IsDigit(t[0]) || t[0] == '+' || t[0] == '-')
      && (forall i :: 0 < i < |t| ==> IsDigit(t[i]) || t[i] == '_')
      && (r.value < 0 ==> t[0] == '-')
      && (t[0] == '-' ==> r.value <= 0)
  {
    ReadInt(Strip(s))
  }

  /** `int()` once the surrounding whitespace is gone. */
  function ReadInt(t: string): (r: Option<int>)
    ensures r.Some? ==>
      && t != [] && IsDigit(t[|t| - 1])
      && (IsDigit(t[0]) || t[0] == '+' || t[0] == '-')
      && (forall i :: 0 < i < |t| ==> IsDigit(t[i]) || t[i] == '_')
      && (r.value < 0 ==> t[0] == '-')
      && (t[0] == '-' ==> r.value <= 0)
  {
    if t == [] then None
    else
      var neg := t[0] == '-';
      var body := if t[0] == '-' || t[0] == '+' then t[1..] else t;
      if !IsDigitGroups(body) then None
      else
        var n: int := DigitsValue(DropUnderscores(body));
        Some(if neg then -n else n)
  }

  /** `int` reads a plain run of digits as its decimal value. */
  lemma PyIntDigits(d: string)
    requires d != [] && AllDigits(d)
    ensures PyInt(d) == Some(DigitsValue(d) as int)
  {
    PyIntSigned(None, d);
    assert SignText(None) + d == d;
  }

  /** An optional `+` or `-` in front of a number. */
  predicate IsSign(sign: Option<char>) {
    sign.None? || sign.value == '+' || sign.value == '-'
  }

  function SignText(sign: Option<char>): string {
    if sign.Some? then [sign.value] else []
  }

  function Signed(sign: Option<char>, n: int): int {
    if sign == Some('-') then -n else n
  }

  /** `int` reads a signed run of digits: `int("-7") == -7`, `int("+7") == 7`. */
  lemma PyIntSigned(sign: Option<char>, digits: string)
    requires IsSign(sign) && digits != [] && AllDigits(digits)
    ensures PyInt(SignText(sign) + digits) == Some(Signed(sign, DigitsValue(digits)))
  {
    var t := SignText(sign) + digits;
    assert ReadInt(t) == Some(Signed(sign, DigitsValue(digits))) by {
      DigitGroupsOfDigits(digits);
      ReadSignedDigits(t, sign, digits);
    }
    assert Strip(t) == t by {
      assert IsDigit(digits[0]) && IsDigit(digits[|digits| - 1]);
      assert t[|t| - 1] == digits[|digits| - 1];
      StripUnchanged(t);
    }
  }

  /** `int` ignores the spaces in front of a signed run of digits: `int(" -7") == -7`. */
  lemma PyIntPadded(pad: string, sign: Option<char>, digits: string)
    requires AllSpace(pad) && IsSign(sign) && digits != [] && AllDigits(digits)
    ensures PyInt(pad + (SignText(sign) + digits)) == Some(Signed(sign, DigitsValue(digits)))
  {
    var m := SignText(sign) + digits;
    assert m[0] == digits[0] || m[0] == sign.value;
    assert m[|m| - 1] == digits[|digits| - 1];
    assert Strip(pad + m) == m by {
      assert pad + m + [] == pad + m;
      StripPadded(pad, m, []);
    }
    assert Strip(m) == m by {
      StripUnchanged(m);
    }
    PyIntSigned(sign, digits);
  }

  lemma DigitGroupsOfDigits(d: string)
    requires d != [] && AllDigits(d)
    ensures IsDigitGroups(d) && DropUnderscores(d) == d
  {
    DropUnderscoresDigits(d);
  }

  lemma ReadSignedDigits(t: string, sign: Option<char>, d: string)
    requires IsSign(sign) && d != [] && AllDigits(d) && IsDigitGroups(d) && DropUnderscores(d) == d
    requires t == SignText(sign) + d
    ensures ReadInt(t) == Some(Signed(sign, DigitsValue(d)))
  {
    if sign.Some? {
      ReadAfterSign(sign.value, d);
    } else {
      assert t == d;
      assert IsDigit(d[0]);
    }
  }

  lemma ReadAfterSign(c: char, d: string)
    requires (c == '+' || c == '-') && d != [] && IsDigitGroups(d) && DropUnderscores(d) == d
    ensures ReadInt([c] + d) == Some(if c == '-' then -(DigitsValue(d) as int) else DigitsValue(d) as int)
  {
    assert ([c] + d)[1..] == d;
  }

  lemma {:induction false} DropUnderscoresAfterDigits(a: string, x: string)
    requires AllDigits(a) && forall i :: 0 <= i < |x| ==> IsDigit(x[i]) || x[i] == '_'
    ensures forall i :: 0 <= i < |a + x| ==> IsDigit((a + x)[i]) || (a + x)[i] == '_'
    ensures DropUnderscores(a + x) == a + DropUnderscores(x)
  {
    if a != [] {
      DropUnderscoresAfterDigits(a[1..], x);
      var s := a + x;
      assert s[1..] == a[1..] + x;
      assert s[0] == a[0] && IsDigit(a[0]);
      assert DropUnderscores(s) == [a[0]] + DropUnderscores(s[1..]);
      assert [a[0]] + (a[1..] + DropUnderscores(x)) == a + DropUnderscores(x);
    } else {
      assert a + x == x;
    }
  }

  /** `int("1_000") == int("1000")`: a single underscore between digits is ignored. */
  lemma PyIntUnderscore(a: string, b: string)
    requires a != [] && AllDigits(a) && b != [] && AllDigits(b)
    ensures PyInt(a + "_" + b) == PyInt(a + b) == Some(DigitsValue(a + b) as int)
  {
    var s := a + "_" + b;
    assert ReadInt(s) == Some(DigitsValue(a + b) as int) by {
      ReadGroupedDigits(a, b);
    }
    assert Strip(s) == s by {
      assert IsDigit(a[0]) && IsDigit(b[|b| - 1]);
      assert s[0] == a[0] && s[|s| - 1] == b[|b| - 1];
      StripUnchanged(s);
    }
    PyIntDigits(a + b);
  }

  lemma ReadGroupedDigits(a: string, b: string)
    requires a != [] && AllDigits(a) && b != [] && AllDigits(b)
    ensures ReadInt(a + "_" + b) == Some(DigitsValue(a + b) as int)
  {
    var s := a + "_" + b;
    assert s == a + ("_" + b);
    assert ("_" + b)[1..] == b;
    DigitGroupsJoin(a, b);
    assert DropUnderscores(s) == a + b by {
      DropUnderscoresDigits(b);
      DropUnderscoresAfterDigits(a, "_" + b);
    }
  }

  /** Two runs of digits joined by one underscore form digit groups. */
  lemma DigitGroupsJoin(a: string, b: string)
    requires a != [] && AllDigits(a) && b != [] && AllDigits(b)
    ensures IsDigitGroups(a + "_" + b)
  {
    var s := a + "_" + b;
    assert IsDigit(a[0]) && IsDigit(b[|b| - 1]);
    assert s[0] == a[0] && s[|s| - 1] == b[|b| - 1];
    forall i, j | 0 <= i < |s| && 0 <= j < |s| && j == i + 1 ensures !(s[i] == '_' && s[j] == '_') {
      if i < |a| {
        assert s[i] == a[i] && IsDigit(a[i]);
      } else {
        assert s[j] == b[j - |a| - 1] && IsDigit(b[j - |a| - 1]);
      }
    }
  }

  lemma {:induction false} NatToStringValue(n: nat)
    ensures DigitsValue(NatToString(n)) == n
  {
    if n >= 10 {
      NatToStringValue(n / 10);
      var s := NatToString(n);
      assert s[..|s| - 1] == NatToString(n / 10);
    }
  }

  /** `int(str(n)) == n` for every integer. */
  lemma PyIntRoundTrip(n: int)
    ensures PyInt(IntToString(n)) == Some(n)
  {
    var m: nat := if n < 0 then -n else n;
    NatToStringValue(m);
    PyIntSigned(if n < 0 then Some('-') else None, NatToString(m));
    assert IntToString(n) == SignText(if n < 0 then Some('-') else None) + NatToString(m);
  }

  function NatToString(n: nat): (s: string)
    ensures s != [] && AllDigits(s)
  {
    if n < 10 then [('0' as int + n) as char]
    else NatToString(n / 10) + [('0' as int + n % 10) as char]
  }

  /** `str(n)` */
  function IntToString(n: int): (s: string)
    ensures s != []
  {
    if n < 0 then "-" + NatToString(-n) else NatToString(n)
  }
}
