/** `_parse_value_to_scales` as written in services/analysis.py. It tests for a bare
    integer with `s.lstrip("-").isdigit()` and reads composite values by splitting each
    token at its first `=`, so it accepts other inputs than the regex copy does, and
    it raises `ValueError` on a value such as `--5`. */
module SplitParser {
  import opened Text
  import opened Scales
  import Dichotomies

  predicate IsDash(c: char) { c == '-' }

  /** `s.lstrip("-").isdigit()` on a stripped value (ASCII digits). */
  predicate IsDashedDigits(s: string) {
    var n := Span(s, 0, IsDash);
    n < |s| && AllDigits(s[n..])
  }

  /** `int(s)` for a value that passed `IsDashedDigits`: none or one dash gives the number,
      two or more make `int()` raise. */
  function DashedValue(s: string): Outcome<Scales>
    requires IsDashedDigits(s)
  {
    var n := Span(s, 0, IsDash);
    var mag: int := DigitsValue(s[n..]);
    if n == 0 then Returned([("TOTAL", mag)])
    else if n == 1 then Returned([("TOTAL", -mag)])
    else Raised
  }

  /** The index of the first `=` in `t`, if any. */
  function FindEq(t: string): (r: Option<nat>)
    ensures r.Some? ==> r.value < |t| && t[r.value] == '=' && forall i :: 0 <= i < r.value ==> t[i] != '='
    ensures r.None? ==> forall i :: 0 <= i < |t| ==> t[i] != '='
  {
    if t == [] then None
    else if t[0] == '=' then Some(0)
    else match FindEq(t[1..])
      case None => None
      case Some(i) => Some(i + 1)
  }

  lemma {:induction false} FindEqAt(t: string, k: nat)
    requires k < |t| && t[k] == '='
    requires forall i :: 0 <= i < k ==> t[i] != '='
    ensures FindEq(t) == Some(k)
  {
    if k > 0 {
      FindEqAt(t[1..], k - 1);
    }
  }

  /** One stripped, non-empty token: `code, num = token.split("=", 1)`, the code stripped and
      upper-cased, the points `int(num.strip())`; `None` when the token has no `=` or when
      `int()` raises (the `except` skips the token). */
  function EqToken(t: string): Option<(string, int)> {
    match FindEq(t)
      case None => None
      case Some(i) =>
        match PyInt(t[i + 1..])
          case None => None
          case Some(pts) => Some((Upper(Strip(t[..i])), pts))
  }

  lemma EqTokenAt(t: string, k: nat, pts: int)
    requires FindEq(t) == Some(k) && PyInt(t[k + 1..]) == Some(pts)
    ensures EqToken(t) == Some((Upper(Strip(t[..k])), pts))
  {
  }

  function TokenStep(acc: Scales, token: string): Scales {
    var t := Strip(token);
    if t == [] then acc
    else match EqToken(t)
      case None => acc
      case Some((code, pts)) => Add(acc, code, pts)
  }

  function ParseTokens(tokens: seq<string>): Scales {
    if tokens == [] then [] else TokenStep(ParseTokens(tokens[..|tokens| - 1]), tokens[|tokens| - 1])
  }

  function Parse(val: Option<string>): Outcome<Scales> {
    if val.None? then Returned([])
    else
      var s := Strip(val.value);
      if s == [] then Returned([])
      else if Dichotomies.LetterOf(s).Some? then Returned([([Dichotomies.LetterOf(s).value], 1)])
      else if IsDashedDigits(s) then DashedValue(s)
      else Returned(ParseTokens(SplitSeparators(s)))
  }

  method ParseValue(val: Option<string>) returns (result: Outcome<Scales>)
    ensures result == Parse(val)
  {
    if val.None? {
      return Returned([]);
    }
    var s := Strip(val.value);
    if s == [] {
      return Returned([]);
    }
    var letter := Dichotomies.LetterOf(s);
    if letter.Some? {
      return Returned([([letter.value], 1)]);
    }
    var dashes := Span(s, 0, IsDash);
    if dashes < |s| && AllDigits(s[dashes..]) {
      assert Parse(val) == DashedValue(s);
      if dashes >= 2 {
        return Raised;
      }
      var mag: int := DigitsValue(s[dashes..]);
      return Returned([("TOTAL", if dashes == 1 then -mag else mag)]);
    }
    var tokens := SplitSeparators(s);
    assert Parse(val) == Returned(ParseTokens(tokens));
    var acc := AccumulateTokens(tokens);
    return Returned(acc);
  }

  /** One more token of the loop. */
  lemma ParseTokensStep(tokens: seq<string>, i: nat)
    requires i < |tokens|
    ensures ParseTokens(tokens[..i + 1]) == TokenStep(ParseTokens(tokens[..i]), tokens[i])
  {
    assert tokens[..i + 1][..i] == tokens[..i];
  }

  /** The token loop: strip each token, skip the empty ones, add each `=` token's points. */
  method AccumulateTokens(tokens: seq<string>) returns (acc: Scales)
    ensures acc == ParseTokens(tokens)
  {
    acc := [];
    for i := 0 to |tokens|
      invariant acc == ParseTokens(tokens[..i])
    {
      ParseTokensStep(tokens, i);
      var token := Strip(tokens[i]);
      if token == [] {
        continue;
      }
      var m := EqToken(token);
      if m.Some? {
        acc := Add(acc, m.value.0, m.value.1);
      }
    }
    assert tokens[..|tokens|] == tokens;
  }

  /** A one-token list goes through the token step once, from the empty map. */
  lemma ParseTokensSingle(t: string)
    ensures ParseTokens([t]) == TokenStep([], t)
  {
    assert [t][..0] == [];
  }

  // ---------------------------------------------------------------------------
  // What the outcome is.

  /** The points of all `=` tokens whose code is `k`. */
  function EqTokenPoints(tokens: seq<string>, k: string): int {
    if tokens == [] then 0
    else
      var last := EqToken(Strip(tokens[|tokens| - 1]));
      EqTokenPoints(tokens[..|tokens| - 1], k) + (if last.Some? && last.value.0 == k then last.value.1 else 0)
  }

  lemma {:induction false} ParseTokensGet(tokens: seq<string>, k: string)
    ensures Get(ParseTokens(tokens), k) == EqTokenPoints(tokens, k)
  {
    if tokens != [] {
      var init := tokens[..|tokens| - 1];
      ParseTokensGet(init, k);
      TokenStepGet(ParseTokens(init), tokens[|tokens| - 1], k);
    }
  }

  /** One token adds its points to its own code and to no other. */
  lemma TokenStepGet(acc: Scales, token: string, k: string)
    ensures var last := EqToken(Strip(token));
      Get(TokenStep(acc, token), k) == Get(acc, k) + (if last.Some? && last.value.0 == k then last.value.1 else 0)
  {
    if Strip(token) == [] {
      assert FindEq(Strip(token)).None?;
    }
  }

  lemma {:induction false} ParseTokensDistinct(tokens: seq<string>)
    ensures DistinctKeys(ParseTokens(tokens))
  {
    if tokens != [] {
      var init := tokens[..|tokens| - 1];
      ParseTokensDistinct(init);
      TokenStepDistinct(ParseTokens(init), tokens[|tokens| - 1]);
    }
  }

  lemma TokenStepDistinct(acc: Scales, token: string)
    requires DistinctKeys(acc)
    ensures DistinctKeys(TokenStep(acc, token))
  {
    var t := Strip(token);
    if t != [] && EqToken(t).Some? {
      AddDistinct(acc, EqToken(t).value.0, EqToken(t).value.1);
    }
  }

  /** Only tokens with an `=` count: a token without one never changes the map. */
  lemma NoEqIgnored(acc: Scales, token: string)
    requires forall i :: 0 <= i < |token| ==> token[i] != '='
    ensures TokenStep(acc, token) == acc
  {
    var t := Strip(token);
    var a := |token| - |LStrip(token)|;
    StripSlice(token);
    forall i | 0 <= i < |t| ensures t[i] != '=' {
      assert t[i] == token[a + i];
    }
    assert FindEq(t).None?;
  }

  /** A composite value: each code's points are the sum over every `=` token that names it. */
  lemma ParseSumsEqTokens(val: Option<string>, k: string)
    requires val.Some?
    requires Strip(val.value) != [] && Dichotomies.LetterOf(Strip(val.value)).None? && !IsDashedDigits(Strip(val.value))
    ensures Parse(val).Returned?
    ensures Get(Parse(val).value, k) == EqTokenPoints(SplitSeparators(Strip(val.value)), k)
  {
    var tokens := SplitSeparators(Strip(val.value));
    assert Parse(val) == Returned(ParseTokens(tokens));
    ParseTokensGet(tokens, k);
  }

  /** Every map this copy returns has distinct keys. */
  lemma ParseDistinct(val: Option<string>)
    requires Parse(val).Returned?
    ensures DistinctKeys(Parse(val).value)
  {
    if val.Some? {
      var s := Strip(val.value);
      if s != [] && Dichotomies.LetterOf(s).None? && !IsDashedDigits(s) {
        ParseTokensDistinct(SplitSeparators(s));
      }
    }
  }

  /** The run of leading dashes ends where the first non-dash is. */
  lemma DashRun(s: string, n: nat)
    requires n < |s| && s[n] != '-'
    requires forall i :: 0 <= i < n ==> s[i] == '-'
    ensures Span(s, 0, IsDash) == n
  {
    var d := Span(s, 0, IsDash);
    assert d <= n by {
      assert !IsDash(s[n]);
    }
    assert d >= n by {
      assert d < |s| ==> !IsDash(s[d]);
    }
  }

  /** Only the `int(s)` of the leading cases can raise, and it does on two or more dashes. */
  lemma RaisedExactly(val: Option<string>)
    requires val.Some?
    ensures Parse(val).Raised? <==> IsDashedDigits(Strip(val.value)) && Span(Strip(val.value), 0, IsDash) >= 2
  {
    var s := Strip(val.value);
    if IsDashedDigits(s) && Span(s, 0, IsDash) >= 2 {
      assert |s| >= 3;
      assert Dichotomies.LetterOf(s).None?;
    }
  }

  /** This copy raises exactly on a stripped value made of two or more dashes followed by digits. */
  lemma RaisesIff(val: Option<string>)
    ensures Parse(val).Raised? <==>
      val.Some? &&
      exists n :: 2 <= n < |Strip(val.value)| &&
        (forall i :: 0 <= i < n ==> Strip(val.value)[i] == '-') && AllDigits(Strip(val.value)[n..])
  {
    if val.Some? {
      var s := Strip(val.value);
      var d := Span(s, 0, IsDash);
      RaisedExactly(val);
      if IsDashedDigits(s) && d >= 2 {
        assert forall i :: 0 <= i < d ==> IsDash(s[i]);
        assert 2 <= d < |s| && (forall i :: 0 <= i < d ==> s[i] == '-') && AllDigits(s[d..]);
      }
      if exists n :: 2 <= n < |s| && (forall i :: 0 <= i < n ==> s[i] == '-') && AllDigits(s[n..]) {
        var n :| 2 <= n < |s| && (forall i :: 0 <= i < n ==> s[i] == '-') && AllDigits(s[n..]);
        assert IsDigit(s[n..][0]);
        DashRun(s, n);
      }
    }
  }

  /** The leading cases: nothing or blank gives `{}`, one of the eight letters in either
      case gives `{LETTER: 1}`, digits with at most one dash in front give `{TOTAL: n}`. */
  lemma ParseLeadingCases(val: Option<string>)
    ensures val.None? || Strip(val.value) == [] ==> Parse(val) == Returned([])
    ensures val.Some? && Dichotomies.LetterOf(Strip(val.value)).Some? ==>
      Parse(val) == Returned([([UpperChar(Strip(val.value)[0])], 1)])
    ensures val.Some? && AllDigits(Strip(val.value)) && Strip(val.value) != [] && Dichotomies.LetterOf(Strip(val.value)).None? ==>
      Parse(val) == Returned([("TOTAL", DigitsValue(Strip(val.value)) as int)])
    ensures val.Some? && |Strip(val.value)| >= 2 && Strip(val.value)[0] == '-' && AllDigits(Strip(val.value)[1..]) ==>
      Parse(val) == Returned([("TOTAL", -(DigitsValue(Strip(val.value)[1..]) as int))])
  {
    if val.Some? {
      var s := Strip(val.value);
      if s != [] && AllDigits(s) {
        assert !IsDash(s[0]) by { assert IsDigit(s[0]); }
        assert Span(s, 0, IsDash) == 0;
        assert s[0..] == s;
      }
      if |s| >= 2 && s[0] == '-' && AllDigits(s[1..]) {
        assert IsDigit(s[1..][0]);
        assert Span(s, 1, IsDash) == 1;
        assert Span(s, 0, IsDash) == 1;
        assert Dichotomies.LetterOf(s).None?;
      }
    }
  }
}
