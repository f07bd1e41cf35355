/** Where the two parser copies agree and where they part: the regex copy of
    blueprints/student.py and blueprints/psych.py against the split copy of
    services/analysis.py. */
module CompareParsers {
  import opened Text
  import opened Scales
  import RegexParser
  import SplitParser
  import Dichotomies

  /** On the leading cases (nothing, blank, one letter, a whole integer with at most one
      minus sign) the two copies return the same map. */
  lemma LeadingCasesAgree(val: Option<string>)
    requires val.None? || Strip(val.value) == [] || Dichotomies.LetterOf(Strip(val.value)).Some?
      || RegexParser.IsPlainInt(Strip(val.value))
    ensures SplitParser.Parse(val) == Returned(RegexParser.Parse(val))
  {
    if val.Some? {
      var s := Strip(val.value);
      if s != [] && Dichotomies.LetterOf(s).None? && RegexParser.IsPlainInt(s) {
        if s[0] == '-' {
          assert IsDigit(s[1..][0]);
          SplitParser.DashRun(s, 1);
        } else {
          assert IsDigit(s[0]);
          SplitParser.DashRun(s, 0);
          assert s[0..] == s;
        }
      }
    }
  }

  // ---------------------------------------------------------------------------
  // Composite values both copies read alike.

  /** A token both copies read: code letters, spaces, `=`, spaces, an optional sign, digits,
      and nothing after them (`COMM=2`, `comm = 2`, `TOTAL=-3`). */
  predicate IsEntry(p: RegexParser.TokenParts) {
    RegexParser.IsMatch(p) && p.eq && p.rest == []
  }

  /** One token of a composite value: an entry with spaces around it. */
  datatype Item = Item(lead: string, entry: RegexParser.TokenParts, trail: string)

  predicate IsItem(it: Item) {
    AllSpace(it.lead) && IsEntry(it.entry) && AllSpace(it.trail)
  }

  function ItemText(it: Item): string {
    it.lead + RegexParser.Glue(it.entry) + it.trail
  }

  function ItemTexts(items: seq<Item>): (texts: seq<string>)
    ensures |texts| == |items| && forall k :: 0 <= k < |items| ==> texts[k] == ItemText(items[k])
  {
    seq(|items|, k requires 0 <= k < |items| => ItemText(items[k]))
  }

  /** The map both copies build: each entry's upper-cased code and signed number added in turn. */
  function ItemsScales(items: seq<Item>): Scales
    requires forall k :: 0 <= k < |items| ==> IsItem(items[k])
  {
    if items == [] then []
    else
      var last := items[|items| - 1];
      assert IsItem(last);
      var r := RegexParser.MatchResult(last.entry);
      Add(ItemsScales(items[..|items| - 1]), r.0, r.1)
  }

  /** The characters of an entry: code letters, spaces and an `=`, then spaces, a sign and
      digits; none is a separator, and neither end is a space. */
  lemma EntryChars(p: RegexParser.TokenParts)
    requires IsEntry(p)
    ensures var t := RegexParser.Glue(p);
      && (forall k :: 0 <= k < |t| ==> !IsSeparator(t[k]))
      && !IsSpace(t[0]) && !IsSpace(t[|t| - 1]) && RegexParser.IsCodeChar(t[0]) && |t| >= 3
  {
    var t := RegexParser.Glue(p);
    var i := |p.code| + |p.gap1|;
    var m := SignText(p.sign) + p.digits;
    assert t == (p.code + p.gap1) + ("=" + (p.gap2 + m));
    forall k | 0 <= k < |t| ensures !IsSeparator(t[k]) {
      if k < |p.code| {
        assert t[k] == p.code[k];
      } else if k < i {
        assert t[k] == p.gap1[k - |p.code|];
      } else if k > i + |p.gap2| + |SignText(p.sign)| {
        assert t[k] == p.digits[k - i - 1 - |p.gap2| - |SignText(p.sign)|];
      }
    }
    assert t[|t| - 1] == p.digits[|p.digits| - 1];
  }

  /** The first `=` of an entry `t` is at `i`, after the code and the spaces that follow it. */
  lemma EntryEq(p: RegexParser.TokenParts, t: string, i: nat)
    requires IsEntry(p) && t == RegexParser.Glue(p) && i == |p.code| + |p.gap1|
    ensures i < |t| && t[i] == '=' && forall k :: 0 <= k < i ==> t[k] != '='
    ensures t[..i] == p.code + p.gap1 && t[i + 1..] == p.gap2 + (SignText(p.sign) + p.digits)
  {
    assert t == (p.code + p.gap1) + ("=" + (p.gap2 + (SignText(p.sign) + p.digits)));
    forall k | 0 <= k < i ensures t[k] != '=' {
      if k < |p.code| {
        assert t[k] == p.code[k];
      } else {
        assert t[k] == p.gap1[k - |p.code|];
      }
    }
  }

  /** The split copy reads an entry as the code, stripped and upper-cased, and `int()` of what
      follows the `=`, which is the signed number. */
  lemma EqTokenOfEntry(p: RegexParser.TokenParts)
    requires IsEntry(p)
    ensures SplitParser.EqToken(RegexParser.Glue(p)) == Some(RegexParser.MatchResult(p))
  {
    var t := RegexParser.Glue(p);
    var i := |p.code| + |p.gap1|;
    EntryParts(p, t, i);
    SplitParser.EqTokenAt(t, i, Signed(p.sign, DigitsValue(p.digits)));
  }

  /** The first `=` of an entry follows its code and spaces; before it stands the code, after it
      the signed number. */
  lemma EntryParts(p: RegexParser.TokenParts, t: string, i: nat)
    requires IsEntry(p) && t == RegexParser.Glue(p) && i == |p.code| + |p.gap1|
    ensures SplitParser.FindEq(t) == Some(i) && i + 1 <= |t|
    ensures Strip(t[..i]) == p.code
    ensures PyInt(t[i + 1..]) == Some(Signed(p.sign, DigitsValue(p.digits)))
  {
    EntryEq(p, t, i);
    SplitParser.FindEqAt(t, i);
    assert Strip(t[..i]) == p.code by {
      assert [] + p.code + p.gap1 == t[..i];
      StripPadded([], p.code, p.gap1);
    }
    PyIntPadded(p.gap2, p.sign, p.digits);
  }

  /** Both token steps add an item's code and number. */
  lemma ItemStepsAgree(acc: Scales, it: Item)
    requires IsItem(it)
    ensures var r := RegexParser.MatchResult(it.entry);
      && RegexParser.TokenStep(acc, ItemText(it)) == Add(acc, r.0, r.1)
      && SplitParser.TokenStep(acc, ItemText(it)) == Add(acc, r.0, r.1)
  {
    var t := RegexParser.Glue(it.entry);
    EntryChars(it.entry);
    StripPadded(it.lead, t, it.trail);
    RegexParser.MatchTokenComplete(it.entry);
    EqTokenOfEntry(it.entry);
  }

  lemma {:induction false} ItemTokensAgree(items: seq<Item>)
    requires forall k :: 0 <= k < |items| ==> IsItem(items[k])
    ensures RegexParser.ParseTokens(ItemTexts(items)) == ItemsScales(items)
    ensures SplitParser.ParseTokens(ItemTexts(items)) == ItemsScales(items)
  {
    if items != [] {
      var n := |items| - 1;
      var texts := ItemTexts(items);
      assert texts[..n] == ItemTexts(items[..n]);
      ItemTokensAgree(items[..n]);
      ItemStepsAgree(ItemsScales(items[..n]), items[n]);
    }
  }

  /** The first token of a joined text is where it starts. */
  lemma RejoinStart(tokens: seq<string>, seps: string)
    requires |tokens| == |seps| + 1
    ensures |tokens[0]| <= |Rejoin(tokens, seps)| && Rejoin(tokens, seps)[..|tokens[0]|] == tokens[0]
  {
  }

  /** No item holds a `;` or a `,`. */
  lemma ItemTextsNoSeparators(items: seq<Item>)
    requires forall k :: 0 <= k < |items| ==> IsItem(items[k])
    ensures var texts := ItemTexts(items);
      forall k, i :: 0 <= k < |texts| && 0 <= i < |texts[k]| ==> !IsSeparator(texts[k][i])
  {
    var texts := ItemTexts(items);
    forall k, i | 0 <= k < |texts| && 0 <= i < |texts[k]| ensures !IsSeparator(texts[k][i]) {
      var it := items[k];
      var g := RegexParser.Glue(it.entry);
      EntryChars(it.entry);
      if i < |it.lead| {
        assert texts[k][i] == it.lead[i];
      } else if i < |it.lead| + |g| {
        assert texts[k][i] == g[i - |it.lead|];
      } else {
        assert texts[k][i] == it.trail[i - |it.lead| - |g|];
      }
    }
  }

  /** Items joined together start with the first code letter, so the text is none of the
      leading cases: not one letter, not an integer, not dashes and digits. */
  lemma ItemsNotLeading(items: seq<Item>, seps: string)
    requires |items| == |seps| + 1
    requires forall k :: 0 <= k < |items| ==> IsItem(items[k])
    requires items[0].lead == []
    ensures var s := Rejoin(ItemTexts(items), seps);
      && s != [] && Dichotomies.LetterOf(s).None? && !RegexParser.IsPlainInt(s) && !SplitParser.IsDashedDigits(s)
  {
    var texts := ItemTexts(items);
    var s := Rejoin(texts, seps);
    RejoinStart(texts, seps);
    EntryChars(items[0].entry);
    assert texts[0][0] == RegexParser.Glue(items[0].entry)[0];
    assert s[0] == texts[0][0] && |s| >= 3;
    assert RegexParser.IsCodeChar(s[0]);
    assert !SplitParser.IsDashedDigits(s) by {
      SplitParser.DashRun(s, 0);
      assert s[0..] == s;
    }
  }

  /** A composite value: entries joined by `;` or `,`, each with spaces around it (`COMM=2; ORG=1`,
      `comm = 2, TOTAL=-3`). Both copies read every entry and add up codes that repeat, so they
      return the same map. */
  lemma ItemsAgree(val: Option<string>, items: seq<Item>, seps: string)
    requires |items| == |seps| + 1 && forall i :: 0 <= i < |seps| ==> IsSeparator(seps[i])
    requires forall k :: 0 <= k < |items| ==> IsItem(items[k])
    requires items[0].lead == []
    requires val.Some? && Strip(val.value) == Rejoin(ItemTexts(items), seps)
    ensures RegexParser.Parse(val) == ItemsScales(items)
    ensures SplitParser.Parse(val) == Returned(ItemsScales(items))
  {
    var texts := ItemTexts(items);
    var s := Strip(val.value);
    assert SplitSeparators(s) == texts by {
      ItemTextsNoSeparators(items);
      SplitRejoin(texts, seps);
    }
    ItemsNotLeading(items, seps);
    assert RegexParser.Parse(val) == RegexParser.ParseTokens(texts);
    assert SplitParser.Parse(val) == Returned(SplitParser.ParseTokens(texts));
    ItemTokensAgree(items);
  }

  // ---------------------------------------------------------------------------
  // Where they part.

  /** The characters of a token without `=` (`COMM 3`, `COMM3`): no separator, no `=`. */
  lemma NoEqChars(p: RegexParser.TokenParts)
    requires RegexParser.IsMatch(p) && !p.eq && p.rest == []
    ensures var t := RegexParser.Glue(p);
      && (forall k :: 0 <= k < |t| ==> !IsSeparator(t[k]) && t[k] != '=')
      && !IsSpace(t[0]) && !IsSpace(t[|t| - 1]) && RegexParser.IsCodeChar(t[0]) && |t| >= 2
  {
    var t := RegexParser.Glue(p);
    var i := |p.code| + |p.gap1| + |p.gap2| + |SignText(p.sign)|;
    assert t == p.code + p.gap1 + p.gap2 + SignText(p.sign) + p.digits;
    forall k | 0 <= k < |t| ensures !IsSeparator(t[k]) && t[k] != '=' {
      if k < |p.code| {
        assert t[k] == p.code[k];
      } else if k < |p.code| + |p.gap1| {
        assert t[k] == p.gap1[k - |p.code|];
      } else if k < |p.code| + |p.gap1| + |p.gap2| {
        assert t[k] == p.gap2[k - |p.code| - |p.gap1|];
      } else if k >= i {
        assert t[k] == p.digits[k - i];
      }
    }
    assert t[|t| - 1] == p.digits[|p.digits| - 1];
  }

  /** A token without `=` (`COMM 3`, `COMM3`): the regex copy reads the code and the number, while
      the split copy, which only reads tokens with an `=`, reads nothing. */
  lemma MissingEqualsDiffers(p: RegexParser.TokenParts)
    requires RegexParser.IsMatch(p) && !p.eq && p.rest == []
    ensures RegexParser.Parse(Some(RegexParser.Glue(p))) == [RegexParser.MatchResult(p)]
    ensures SplitParser.Parse(Some(RegexParser.Glue(p))) == Returned([])
  {
    var t := RegexParser.Glue(p);
    NoEqChars(p);
    StripUnchanged(t);
    SplitNoSeparator(t);
    assert !RegexParser.IsPlainInt(t);
    assert !SplitParser.IsDashedDigits(t) by {
      SplitParser.DashRun(t, 0);
      assert t[0..] == t;
    }
    assert RegexParser.ParseTokens([t]) == [RegexParser.MatchResult(p)] by {
      RegexParser.ParseTokensSingle(t);
      RegexParser.MatchTokenComplete(p);
    }
    assert SplitParser.ParseTokens([t]) == [] by {
      SplitParser.ParseTokensSingle(t);
      SplitParser.NoEqIgnored([], t);
    }
  }

  /** `n` minus signs. */
  function Dashes(n: nat): (r: string)
    ensures |r| == n && forall i :: 0 <= i < n ==> r[i] == '-'
  {
    seq(n, _ => '-')
  }

  lemma DashedChars(k: nat, digits: string)
    requires k >= 2 && digits != [] && AllDigits(digits)
    ensures var s := Dashes(k) + digits;
      && Strip(s) == s
      && SplitSeparators(s) == [s]
      && s[k..] == digits
      && s[0] == '-' && s[1] == '-'
  {
    var s := Dashes(k) + digits;
    assert s[|s| - 1] == digits[|digits| - 1] && IsDigit(digits[|digits| - 1]);
    StripUnchanged(s);
    forall i | 0 <= i < |s| ensures !IsSeparator(s[i]) {
      if i >= k {
        assert s[i] == digits[i - k] && IsDigit(digits[i - k]);
      }
    }
    SplitNoSeparator(s);
  }

  lemma RegexSkipsDashed(k: nat, digits: string)
    requires k >= 2 && digits != [] && AllDigits(digits)
    ensures RegexParser.Parse(Some(Dashes(k) + digits)) == []
  {
    var s := Dashes(k) + digits;
    DashedChars(k, digits);
    assert RegexParser.Parse(Some(s)) == RegexParser.ParseTokens([s]) by {
      assert !RegexParser.IsPlainInt(s) by {
        assert s[1..][0] == '-';
      }
    }
    assert RegexParser.MatchToken(s) == None by {
      SpanExact(s, 0, 0, RegexParser.IsCodeChar);
    }
    assert RegexParser.ParseTokens([s]) == [] by {
      RegexParser.ParseTokensSingle(s);
    }
  }

  lemma SplitRaisesOnDashed(k: nat, digits: string)
    requires k >= 2 && digits != [] && AllDigits(digits)
    ensures SplitParser.Parse(Some(Dashes(k) + digits)) == Raised
  {
    var s := Dashes(k) + digits;
    DashedChars(k, digits);
    SplitParser.RaisesIff(Some(s));
    assert 2 <= k < |s| && (forall i :: 0 <= i < k ==> s[i] == '-') && AllDigits(s[k..]);
  }

  /** Two or more minus signs before digits (`--5`): the regex copy reads nothing, the split
      copy passes its `lstrip("-").isdigit()` test and then `int()` raises. */
  lemma DoubleMinusDiffers(k: nat, digits: string)
    requires k >= 2 && digits != [] && AllDigits(digits)
    ensures RegexParser.Parse(Some(Dashes(k) + digits)) == []
    ensures SplitParser.Parse(Some(Dashes(k) + digits)) == Raised
  {
    RegexSkipsDashed(k, digits);
    SplitRaisesOnDashed(k, digits);
  }

  lemma EqualsChars(digits: string)
    requires digits != [] && AllDigits(digits)
    ensures var s := "=" + digits;
      && Strip(s) == s
      && SplitSeparators(s) == [s]
      && s[1..] == digits
      && |s| > 1 && !IsDigit(s[0]) && s[0] != '-'
  {
    var s := "=" + digits;
    assert s[|s| - 1] == digits[|digits| - 1] && IsDigit(digits[|digits| - 1]);
    StripUnchanged(s);
    forall i | 0 <= i < |s| ensures !IsSeparator(s[i]) {
      if i >= 1 {
        assert s[i] == digits[i - 1] && IsDigit(digits[i - 1]);
      }
    }
    SplitNoSeparator(s);
  }

  lemma RegexSkipsEquals(digits: string)
    requires digits != [] && AllDigits(digits)
    ensures RegexParser.Parse(Some("=" + digits)) == []
  {
    var s := "=" + digits;
    EqualsChars(digits);
    SpanExact(s, 0, 0, RegexParser.IsCodeChar);
    RegexParser.ParseTokensSingle(s);
  }

  lemma SplitReadsEquals(digits: string)
    requires digits != [] && AllDigits(digits)
    ensures SplitParser.Parse(Some("=" + digits)) == Returned([("", DigitsValue(digits) as int)])
  {
    var s := "=" + digits;
    EqualsChars(digits);
    assert SplitParser.Parse(Some(s)) == Returned(SplitParser.ParseTokens([s])) by {
      assert !SplitParser.IsDashedDigits(s) by {
        SplitParser.DashRun(s, 0);
        assert s[0..] == s;
      }
    }
    var v := DigitsValue(digits) as int;
    assert SplitParser.EqToken(s) == Some(("", v)) by {
      SplitParser.FindEqAt(s, 0);
      PyIntDigits(digits);
      SplitParser.EqTokenAt(s, 0, v);
      assert s[..0] == [];
      assert Strip([]) == [];
      assert Upper([]) == [];
    }
    assert SplitParser.ParseTokens([s]) == [("", v)] by {
      SplitParser.ParseTokensSingle(s);
    }
  }

  /** `=N` with no code: the regex copy needs letters first and reads nothing, the split
      copy files the points under the empty code. */
  lemma MissingCodeDiffers(digits: string)
    requires digits != [] && AllDigits(digits)
    ensures RegexParser.Parse(Some("=" + digits)) == []
    ensures SplitParser.Parse(Some("=" + digits)) == Returned([("", DigitsValue(digits) as int)])
  {
    RegexSkipsEquals(digits);
    SplitReadsEquals(digits);
  }
}
