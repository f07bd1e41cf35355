/** `_parse_value_to_scales` as written in blueprints/student.py and, character for
    character, in blueprints/psych.py: an option value becomes a map from scale code
    to points. It never fails: text it cannot read contributes nothing. */
module RegexParser {
  import opened Text
  import opened Scales
  import Dichotomies

  /** The regex class `[A-Za-zА-Яа-я_]` (Ё and ё are not in it). */
  predicate IsCodeChar(c: char) {
    ('A' <= c <= 'Z') || ('a' <= c <= 'z') || ('\U{410}' <= c <= '\U{44F}') || c == '_'
  }

  /** What `.upper()` makes of a code character: `[A-ZА-Я_]`. */
  predicate IsUpperCodeChar(c: char) {
    ('A' <= c <= 'Z') || ('\U{410}' <= c <= '\U{42F}') || c == '_'
  }

  /** A scale code as this parser produces it. */
  predicate IsCode(k: string) {
    k != [] && forall i :: 0 <= i < |k| ==> IsUpperCodeChar(k[i])
  }

  /** `re.fullmatch(r"-?\d+", s)` */
  predicate IsPlainInt(s: string) {
    var body := if s != [] && s[0] == '-' then s[1..] else s;
    body != [] && AllDigits(body)
  }

  /** `int(s)` for a string that passed `IsPlainInt`. */
  function PlainIntValue(s: string): int
    requires IsPlainInt(s)
  {
    var n: int := if s[0] == '-' then DigitsValue(s[1..]) else DigitsValue(s);
    if s[0] == '-' then -n else n
  }

  /** What is left after `\s*`. */
  function SkipSpaces(u: string): string {
    u[Span(u, 0, IsSpace)..]
  }

  /** What is left after `=?`. */
  function SkipEquals(u: string): string {
    if u != [] && u[0] == '=' then u[1..] else u
  }

  /** The sign `[+-]?` takes. */
  function SignOf(u: string): Option<char> {
    if u != [] && (u[0] == '+' || u[0] == '-') then Some(u[0]) else None
  }

  /** What is left after `[+-]?`. */
  function Unsigned(u: string): string {
    if SignOf(u).Some? then u[1..] else u
  }

  /** `[+-]?\d+` at the start of `u`: the number it reads, if it matches. */
  function ReadSigned(u: string): Option<int> {
    var v := Unsigned(u);
    var k := Span(v, 0, IsDigit);
    if k == 0 then None else Some(Signed(SignOf(u), DigitsValue(v[..k])))
  }

  /** `\s*=?\s*([+-]?\d+)` at the start of `u`: the number it reads, if it matches. Taking fewer
      spaces, skipping an `=` or skipping a sign never lets the rest match, so the greedy reading
      is the only one. */
  function ReadPoints(u: string): Option<int> {
    ReadSigned(SkipSpaces(SkipEquals(SkipSpaces(u))))
  }

  /** `re.match(r"([A-Za-zА-Яа-я_]+)\s*=?\s*([+-]?\d+)", t)`, giving `(m.group(1).upper(), int(m.group(2)))`.
      The letters cannot be followed by another letter, so the greedy run is the only way to match;
      whatever follows the digits is ignored. */
  function MatchToken(t: string): (r: Option<(string, int)>)
    ensures r.Some? ==> IsCode(r.value.0)
  {
    var n := Span(t, 0, IsCodeChar);
    if n == 0 then None
    else match ReadPoints(t[n..])
      case None => None
      case Some(pts) =>
        UpperCode(t[..n]);
        Some((Upper(t[..n]), pts))
  }

  /** Upper-casing a run of code characters gives a code. */
  lemma UpperCode(w: string)
    requires w != [] && forall i :: 0 <= i < |w| ==> IsCodeChar(w[i])
    ensures IsCode(Upper(w))
  {
    assert NoSharpS(w);
    var u := Upper(w);
    forall i | 0 <= i < |u| ensures IsUpperCodeChar(u[i]) {
      assert u[i] == UpperChar(w[i]);
      UpperCodeChar(w[i]);
    }
  }

  lemma UpperCodeChar(c: char)
    requires IsCodeChar(c)
    ensures IsUpperCodeChar(UpperChar(c))
  {
    if 'a' <= c <= 'z' {
      assert UpperChar(c) as int == c as int - 32;
    } else if '\U{430}' <= c <= '\U{44F}' {
      assert UpperChar(c) as int == c as int - 32;
    } else {
      assert UpperChar(c) == c;
    }
  }

  // ---------------------------------------------------------------------------
  // What the pattern matches, stated part by part.

  /** A token cut the way the pattern reads it: the code letters, the spaces before an optional
      `=`, the spaces after it, an optional sign, the digits, and whatever follows. */
  datatype TokenParts = TokenParts(code: string, gap1: string, eq: bool, gap2: string,
                                   sign: Option<char>, digits: string, rest: string)

  function EqText(eq: bool): string { if eq then "=" else "" }

  /** The text the parts make up. */
  function Glue(p: TokenParts): string {
    p.code + Tail(p)
  }

  /** The parts are a match of `([A-Za-zА-Яа-я_]+)\s*=?\s*([+-]?\d+)` whose digit run goes as far as it can. */
  predicate IsMatch(p: TokenParts) {
    && p.code != [] && (forall i :: 0 <= i < |p.code| ==> IsCodeChar(p.code[i]))
    && AllSpace(p.gap1) && AllSpace(p.gap2) && IsSign(p.sign)
    && p.digits != [] && AllDigits(p.digits)
    && (p.rest == [] || !IsDigit(p.rest[0]))
  }

  /** The pair a match gives: the upper-cased code and the signed number. */
  function MatchResult(p: TokenParts): (string, int)
    requires AllDigits(p.digits)
  {
    (Upper(p.code), Signed(p.sign, DigitsValue(p.digits)))
  }

  /** The parts after the code: what `\s*=?\s*([+-]?\d+)` reads, and what follows. */
  function Tail(p: TokenParts): string {
    p.gap1 + (EqText(p.eq) + (p.gap2 + (SignText(p.sign) + (p.digits + p.rest))))
  }

  /** `\s*` takes a run of spaces in front of text that does not start with one. */
  lemma SkipSpacesOver(a: string, b: string)
    requires AllSpace(a) && (b == [] || !IsSpace(b[0]))
    ensures SkipSpaces(a + b) == b
  {
    SpanAppend(a, b, 0, IsSpace);
    assert (a + b)[|a|..] == b;
  }

  /** `[+-]?\d+` reads a sign and a maximal run of digits as the signed number. */
  lemma ReadSignedParts(sign: Option<char>, digits: string, rest: string)
    requires IsSign(sign) && digits != [] && AllDigits(digits) && (rest == [] || !IsDigit(rest[0]))
    ensures ReadSigned(SignText(sign) + (digits + rest)) == Some(Signed(sign, DigitsValue(digits)))
  {
    var s5 := digits + rest;
    var u := SignText(sign) + s5;
    if sign.Some? {
      assert u[0] == sign.value;
      assert u[1..] == s5;
    } else {
      assert u == s5 && IsDigit(u[0]);
    }
    assert SignOf(u) == sign && Unsigned(u) == s5;
    SpanAppend(digits, rest, 0, IsDigit);
    assert s5[..|digits|] == digits;
  }

  /** The parts `\s*=?\s*([+-]?\d+)` cuts `u` into, the code left empty; the digits are empty
      when the pattern does not match. */
  function CutTail(u: string): TokenParts {
    var u2 := SkipSpaces(u);
    var v := SkipEquals(u2);
    var u3 := SkipSpaces(v);
    var w := Unsigned(u3);
    var k := Span(w, 0, IsDigit);
    TokenParts([], u[..Span(u, 0, IsSpace)], u2 != [] && u2[0] == '=', v[..Span(v, 0, IsSpace)],
               SignOf(u3), w[..k], w[k..])
  }

  lemma SkipSpacesCut(u: string)
    ensures u == u[..Span(u, 0, IsSpace)] + SkipSpaces(u)
    ensures AllSpace(u[..Span(u, 0, IsSpace)])
  {
  }

  lemma SkipEqualsCut(u: string)
    ensures u == EqText(u != [] && u[0] == '=') + SkipEquals(u)
  {
    if u != [] && u[0] == '=' {
      assert u == [u[0]] + u[1..];
    }
  }

  lemma UnsignedCut(u: string)
    ensures u == SignText(SignOf(u)) + Unsigned(u)
  {
    if SignOf(u).Some? {
      assert u == [u[0]] + u[1..];
    }
  }

  /** The cut puts the text back together. */
  lemma CutTailGlue(u: string)
    ensures Tail(CutTail(u)) == u
  {
    var u2 := SkipSpaces(u);
    var v := SkipEquals(u2);
    var u3 := SkipSpaces(v);
    SignedCut(u3);
    SkipSpacesSplit(v);
    SkipEqualsCut(u2);
    SkipSpacesSplit(u);
  }

  lemma SkipSpacesSplit(u: string)
    ensures u == u[..Span(u, 0, IsSpace)] + SkipSpaces(u)
  {
  }

  lemma SignedCut(u: string)
    ensures var w := Unsigned(u); var k := Span(w, 0, IsDigit);
      u == SignText(SignOf(u)) + (w[..k] + w[k..])
  {
    var w := Unsigned(u);
    var k := Span(w, 0, IsDigit);
    assert w == w[..k] + w[k..];
    UnsignedCut(u);
  }

  /** The cut has the pattern's shape: spaces, spaces, a sign, digits, and no digit after them. */
  lemma CutTailShape(u: string)
    ensures var p := CutTail(u);
      AllSpace(p.gap1) && AllSpace(p.gap2) && IsSign(p.sign) && AllDigits(p.digits) && (p.rest == [] || !IsDigit(p.rest[0]))
  {
    SkipSpacesCut(u);
    SkipSpacesCut(SkipEquals(SkipSpaces(u)));
  }

  /** The pattern matches exactly when the cut found digits, and reads the signed number they make. */
  lemma CutTailValue(u: string)
    ensures var p := CutTail(u);
      AllDigits(p.digits) && ReadPoints(u) == if p.digits == [] then None else Some(Signed(p.sign, DigitsValue(p.digits)))
  {
  }

  /** The pattern after the code reads the signed number the parts say. */
  lemma ReadPointsParts(p: TokenParts)
    requires IsMatch(p)
    ensures ReadPoints(Tail(p)) == Some(Signed(p.sign, DigitsValue(p.digits)))
  {
    var s4 := SignText(p.sign) + (p.digits + p.rest);
    var v := p.gap2 + s4;
    assert s4[0] == '+' || s4[0] == '-' || IsDigit(s4[0]);
    if p.eq {
      SkipSpacesOver(p.gap1, EqText(p.eq) + v);
      assert SkipEquals(EqText(p.eq) + v) == v;
    } else {
      assert Tail(p) == (p.gap1 + p.gap2) + s4;
      SkipSpacesOver(p.gap1 + p.gap2, s4);
      assert SkipEquals(s4) == s4;
    }
    SkipSpacesOver(p.gap2, s4);
    SkipSpacesOver([], s4);
    assert SkipSpaces(SkipEquals(SkipSpaces(Tail(p)))) == s4;
    ReadSignedParts(p.sign, p.digits, p.rest);
  }

  /** Every match is found: the pattern reads the code and the number the parts say. */
  lemma MatchTokenComplete(p: TokenParts)
    requires IsMatch(p)
    ensures MatchToken(Glue(p)) == Some(MatchResult(p))
  {
    var t := Glue(p);
    var tail := Tail(p);
    if p.gap1 != [] {
      assert tail[0] == p.gap1[0];
    } else if p.eq {
      assert tail[0] == '=';
    } else if p.gap2 != [] {
      assert tail[0] == p.gap2[0];
    } else {
      assert tail == SignText(p.sign) + (p.digits + p.rest);
    }
    assert !IsCodeChar(tail[0]);
    SpanAppend(p.code, tail, 0, IsCodeChar);
    assert Span(t, 0, IsCodeChar) == |p.code|;
    assert t[..|p.code|] == p.code && t[|p.code|..] == tail;
    ReadPointsParts(p);
  }

  /** How the pattern cuts a token: the code-letter run, then the cut of what follows it. */
  function CutToken(t: string): TokenParts {
    var n := Span(t, 0, IsCodeChar);
    CutTail(t[n..]).(code := t[..n])
  }

  /** The cut puts the token back together. */
  lemma CutTokenGlue(t: string)
    ensures Glue(CutToken(t)) == t
  {
    var n := Span(t, 0, IsCodeChar);
    assert t == t[..n] + t[n..];
    CutTailGlue(t[n..]);
  }

  lemma CutTokenValue(t: string)
    ensures MatchToken(t).Some? <==> CutToken(t).code != [] && CutToken(t).digits != []
    ensures MatchToken(t).Some? ==> MatchToken(t) == Some(MatchResult(CutToken(t)))
  {
    CutTailValue(t[Span(t, 0, IsCodeChar)..]);
  }

  /** Every match found is one: the pattern's result comes from parts that glue to the token. */
  lemma MatchTokenSound(t: string)
    requires MatchToken(t).Some?
    ensures IsMatch(CutToken(t)) && Glue(CutToken(t)) == t
    ensures MatchToken(t) == Some(MatchResult(CutToken(t)))
  {
    CutTokenGlue(t);
    CutTokenValue(t);
    CutTailShape(t[Span(t, 0, IsCodeChar)..]);
  }

  /** No match exactly when no parts glue to the token. */
  lemma MatchTokenNone(t: string)
    ensures MatchToken(t).None? <==> forall p :: IsMatch(p) ==> Glue(p) != t
  {
    if MatchToken(t).Some? {
      MatchTokenSound(t);
    } else {
      forall p | IsMatch(p) ensures Glue(p) != t {
        MatchTokenComplete(p);
      }
    }
  }

  /** One pass of the token loop: strip, skip an empty token, add a matching token's points. */
  function TokenStep(acc: Scales, token: string): Scales {
    var t := Strip(token);
    if t == [] then acc
    else match MatchToken(t)
      case None => acc
      case Some((code, pts)) => Add(acc, code, pts)
  }

  /** The token loop, from an empty dict. */
  function ParseTokens(tokens: seq<string>): Scales {
    if tokens == [] then [] else TokenStep(ParseTokens(tokens[..|tokens| - 1]), tokens[|tokens| - 1])
  }

  function Parse(val: Option<string>): Scales {
    if val.None? then []
    else
      var s := Strip(val.value);
      if s == [] then []
      else if Dichotomies.LetterOf(s).Some? then [([Dichotomies.LetterOf(s).value], 1)]
      else if IsPlainInt(s) then [("TOTAL", PlainIntValue(s))]
      else ParseTokens(SplitSeparators(s))
  }

  method ParseValue(val: Option<string>) returns (result: Scales)
    ensures result == Parse(val)
  {
    if val.None? {
      return [];
    }
    var s := Strip(val.value);
    if s == [] {
      return [];
    }
    var letter := Dichotomies.LetterOf(s);
    if letter.Some? {
      return [([letter.value], 1)];
    }
    if IsPlainInt(s) {
      return [("TOTAL", PlainIntValue(s))];
    }
    var tokens := SplitSeparators(s);
    assert Parse(val) == ParseTokens(tokens);
    result := AccumulateTokens(tokens);
  }

  /** One more token of the loop. */
  lemma ParseTokensStep(tokens: seq<string>, i: nat)
    requires i < |tokens|
    ensures ParseTokens(tokens[..i + 1]) == TokenStep(ParseTokens(tokens[..i]), tokens[i])
  {
    assert tokens[..i + 1][..i] == tokens[..i];
  }

  /** The token loop: strip each token, skip the empty ones, add each matching token's points. */
  method AccumulateTokens(tokens: seq<string>) returns (acc: Scales)
    ensures acc == ParseTokens(tokens)
  {
    acc := [];
    for i := 0 to |tokens|
      invariant acc == ParseTokens(tokens[..i])
    {
      ParseTokensStep(tokens, i);
      var token := Strip(tokens[i]);
      if token == [] {
        continue;
      }
      var m := MatchToken(token);
      if m.Some? {
        acc := Add(acc, m.value.0, m.value.1);
      }
    }
    assert tokens[..|tokens|] == tokens;
  }

  /** A one-token list goes through the token step once, from the empty map. */
  lemma ParseTokensSingle(t: string)
    ensures ParseTokens([t]) == TokenStep([], t)
  {
    assert [t][..0] == [];
  }

  // ---------------------------------------------------------------------------
  // What the parse result is.

  /** The points of all tokens whose code is `k`. */
  function TokenPoints(tokens: seq<string>, k: string): int {
    if tokens == [] then 0
    else
      var last := MatchToken(Strip(tokens[|tokens| - 1]));
      TokenPoints(tokens[..|tokens| - 1], k) + (if last.Some? && last.value.0 == k then last.value.1 else 0)
  }

  lemma {:induction false} ParseTokensGet(tokens: seq<string>, k: string)
    ensures Get(ParseTokens(tokens), k) == TokenPoints(tokens, k)
  {
    if tokens != [] {
      var init := tokens[..|tokens| - 1];
      ParseTokensGet(init, k);
      TokenStepGet(ParseTokens(init), tokens[|tokens| - 1], k);
    }
  }

  /** One token adds its points to its own code and to no other. */
  lemma TokenStepGet(acc: Scales, token: string, k: string)
    ensures var last := MatchToken(Strip(token));
      Get(TokenStep(acc, token), k) == Get(acc, k) + (if last.Some? && last.value.0 == k then last.value.1 else 0)
  {
    if Strip(token) == [] {
      assert Span(Strip(token), 0, IsCodeChar) == 0;
    }
  }

  lemma {:induction false} ParseTokensWellFormed(tokens: seq<string>)
    ensures DistinctKeys(ParseTokens(tokens))
    ensures forall i :: 0 <= i < |ParseTokens(tokens)| ==> IsCode(ParseTokens(tokens)[i].0)
  {
    if tokens != [] {
      var init := tokens[..|tokens| - 1];
      ParseTokensWellFormed(init);
      TokenStepWellFormed(ParseTokens(init), tokens[|tokens| - 1]);
    }
  }

  /** One token keeps the keys distinct and every key a code. */
  lemma TokenStepWellFormed(acc: Scales, token: string)
    requires DistinctKeys(acc) && forall i :: 0 <= i < |acc| ==> IsCode(acc[i].0)
    ensures DistinctKeys(TokenStep(acc, token))
    ensures forall i :: 0 <= i < |TokenStep(acc, token)| ==> IsCode(TokenStep(acc, token)[i].0)
  {
    var t := Strip(token);
    if t != [] && MatchToken(t).Some? {
      var (code, pts) := MatchToken(t).value;
      var r := Add(acc, code, pts);
      assert TokenStep(acc, token) == r;
      AddDistinct(acc, code, pts);
      forall i | 0 <= i < |r| ensures IsCode(r[i].0) {
        if i < |acc| {
          assert r[i].0 == acc[i].0;
        } else {
          assert r[i] == (code, pts);
        }
      }
    } else {
      assert TokenStep(acc, token) == acc;
    }
  }

  /** A composite value: each code's points are the sum over every token that names it,
      so repeated codes add up and tokens that do not match add nothing. */
  lemma ParseSumsTokens(val: Option<string>, k: string)
    requires val.Some?
    requires Strip(val.value) != [] && Dichotomies.LetterOf(Strip(val.value)).None? && !IsPlainInt(Strip(val.value))
    ensures Get(Parse(val), k) == TokenPoints(SplitSeparators(Strip(val.value)), k)
  {
    ParseTokensGet(SplitSeparators(Strip(val.value)), k);
  }

  /** Every result has distinct keys, and each key is TOTAL, one of the eight letters,
      or a non-empty upper-cased code. */
  lemma ParseWellFormed(val: Option<string>)
    ensures DistinctKeys(Parse(val))
    ensures forall i :: 0 <= i < |Parse(val)| ==>
      var k := Parse(val)[i].0;
      k == "TOTAL" || (|k| == 1 && k[0] in Dichotomies.Letters) || IsCode(k)
  {
    if val.Some? {
      var s := Strip(val.value);
      if s != [] && Dichotomies.LetterOf(s).None? && !IsPlainInt(s) {
        ParseTokensWellFormed(SplitSeparators(s));
      }
    }
  }

  /** The leading cases: nothing or blank text gives `{}`, one of the eight letters in
      either case gives `{LETTER: 1}`, and a whole signed integer gives `{TOTAL: n}`. */
  lemma ParseLeadingCases(val: Option<string>)
    ensures val.None? || Strip(val.value) == [] ==> Parse(val) == []
    ensures val.Some? && Dichotomies.LetterOf(Strip(val.value)).Some? ==>
      Parse(val) == [([UpperChar(Strip(val.value)[0])], 1)]
    ensures val.Some? && Strip(val.value) != [] && Dichotomies.LetterOf(Strip(val.value)).None? && IsPlainInt(Strip(val.value)) ==>
      Parse(val) == [("TOTAL", PlainIntValue(Strip(val.value)))]
  {
  }
}
