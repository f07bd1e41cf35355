/** `_interpret` and the `attempt_finish` score of blueprints/student.py: the slug
    selects a rule, and each rule turns the per-scale totals, `raw` and `max_score`
    into a title, a list of bullets and, for three tests, a code. */
module Student {
  import opened Text
  import opened Scales
  import opened Bands
  import opened Rankings
  import Dichotomies
  import Aggregate

  /** `(slug or "").lower()` */
  function NormSlug(slug: Option<string>): string {
    Lower(if slug.None? then "" else slug.value)
  }

  /** Which branch of `_interpret` a normalised slug takes. */
  datatype Rule = MbtiRule | HollandRule | KlimovRule | KosRule | ScalesRule(bennett: bool) | CdiRule | DefaultRule

  function RuleOf(s: string): Rule {
    if s == "mbti" then MbtiRule
    else if s == "holland" then HollandRule
    else if s == "klimov" then KlimovRule
    else if s == "kos2" then KosRule
    else if s == "interests" || s == "thinking" || s == "child_type" || s == "bennett" then ScalesRule(s == "bennett")
    else if s == "cdi" then CdiRule
    else DefaultRule
  }

  // ---------------------------------------------------------------------------
  // One function per branch.

  /** The MBTI branch, once the pair loop has produced the code and the explanation lines. */
  function MbtiSummary(code: string, lines: seq<Dichotomies.PairLine>): Summary {
    Summary(MbtiTitle(code), [TypeIs(code), NotADiagnosis, StyleGuide] + PairBullets(lines), Some(code))
  }

  function HollandSummary(per: Scales): Summary {
    var order := Ranking(per, InRiasecText);
    var top := TopCode(order);
    Summary(RiasecTitle(top), [RankingLine(order), TopThree(top), ChooseByCodes], Some(top))
  }

  /** `sorted([(names.get(k, k), v) for k, v in per.items() if k in names], key=lambda x: -x[1])` */
  function KlimovOrder(per: Scales): Scales {
    SortDesc(Renamed(FilterKeys(per, IsKlimovCode), KlimovShort))
  }

  function KlimovSummary(per: Scales): Summary {
    var order := KlimovOrder(per);
    var lead := if order == [] then Dash else order[0].0;
    Summary(KlimovTitle(lead), [RankingLine(order), LeadType(lead)], Some(lead))
  }

  function KosSummary(per: Scales): Summary {
    var comm, org := Get(per, "COMM"), Get(per, "ORG");
    Summary(KosTitle, [Communication(comm, KosLevel(comm)), Organisation(org, KosLevel(org)), SoftSkills], None)
  }

  /** The interests, thinking, child_type and bennett branch: the three leading scales,
      and for bennett with a non-zero `max_score` the spatial-ability percentage. */
  function ScalesSummary(per: Scales, bennett: bool, raw: int, maxScore: int): Summary {
    var leading := LeadingScales(Prefix(SortDesc(per), 3));
    if bennett && maxScore != 0 then
      var pct := Percent(raw, maxScore);
      Summary(ScalesTitle, [leading, Spatial(pct, BennettBand(pct))], None)
    else Summary(ScalesTitle, [leading], None)
  }

  function CdiSummary(raw: int): Summary {
    Summary(CdiTitle, [CdiTotal(raw, CdiBand(raw)), ForPsychologist], None)
  }

  /** What `_interpret(slug, per, raw, max_score)` returns. */
  function Interpretation(slug: Option<string>, per: Scales, raw: int, maxScore: int): Summary {
    match RuleOf(NormSlug(slug))
      case MbtiRule =>
        var m := Dichotomies.LetterCounts(per);
        MbtiSummary(Dichotomies.TypeCode(m), Dichotomies.PairLines(m))
      case HollandRule => HollandSummary(per)
      case KlimovRule => KlimovSummary(per)
      case KosRule => KosSummary(per)
      case ScalesRule(bennett) => ScalesSummary(per, bennett, raw, maxScore)
      case CdiRule => CdiSummary(raw)
      case DefaultRule => Summary(SavedTitle, [Saved], None)
  }

  /** `_interpret`: the MBTI branch runs the pair loop, the others are expressions. */
  method Interpret(slug: Option<string>, per: Scales, raw: int, maxScore: int) returns (r: Summary)
    ensures r == Interpretation(slug, per, raw, maxScore)
  {
    var s := NormSlug(slug);
    if s == "mbti" {
      var code, explain := Dichotomies.ResolveDichotomies(per);
      return MbtiSummary(code, explain);
    }
    if s == "holland" {
      return HollandSummary(per);
    }
    if s == "klimov" {
      return KlimovSummary(per);
    }
    if s == "kos2" {
      return KosSummary(per);
    }
    if s == "interests" || s == "thinking" || s == "child_type" || s == "bennett" {
      return ScalesSummary(per, s == "bennett", raw, maxScore);
    }
    if s == "cdi" {
      return CdiSummary(raw);
    }
    return Summary(SavedTitle, [Saved], None);
  }

  // ---------------------------------------------------------------------------
  // What each rule promises.

  /** MBTI: a four-letter code, one letter per pair with ties to the first letter, three
      header bullets and then one bullet per pair in pair order, `≈` exactly on a tie. */
  lemma InterpretMbti(slug: Option<string>, per: Scales, raw: int, maxScore: int)
    requires NormSlug(slug) == "mbti"
    ensures var r := Interpretation(slug, per, raw, maxScore);
      && r.code.Some? && |r.code.value| == 4
      && (forall i :: 0 <= i < 4 ==>
            && (r.code.value[i] == Dichotomies.Pairs[i].0 <==> Get(per, [Dichotomies.Pairs[i].0]) >= Get(per, [Dichotomies.Pairs[i].1]))
            && (r.code.value[i] == Dichotomies.Pairs[i].0 || r.code.value[i] == Dichotomies.Pairs[i].1))
      && |r.bullets| == 7 && r.bullets[0] == TypeIs(r.code.value)
      && r.title == MbtiTitle(r.code.value)
      && forall i :: 0 <= i < 4 ==>
           && r.bullets[3 + i].Pair?
           && r.bullets[3 + i].line.first == Dichotomies.Pairs[i].0
           && (r.bullets[3 + i].line.tie <==> Get(per, [Dichotomies.Pairs[i].0]) == Get(per, [Dichotomies.Pairs[i].1]))
           && r.bullets[3 + i].line.pick == r.code.value[i]
  {
    MbtiBranch(slug, per, raw, maxScore);
    MbtiShape(per);
  }

  /** The slug "mbti" takes the MBTI branch. */
  lemma MbtiBranch(slug: Option<string>, per: Scales, raw: int, maxScore: int)
    requires NormSlug(slug) == "mbti"
    ensures var m := Dichotomies.LetterCounts(per);
      Interpretation(slug, per, raw, maxScore) == MbtiSummary(Dichotomies.TypeCode(m), Dichotomies.PairLines(m))
  {
    assert RuleOf(NormSlug(slug)) == MbtiRule;
  }

  /** The slug "klimov" takes the Klimov branch. */
  lemma KlimovBranch(slug: Option<string>, per: Scales, raw: int, maxScore: int)
    requires NormSlug(slug) == "klimov"
    ensures Interpretation(slug, per, raw, maxScore) == KlimovSummary(per)
  {
    assert RuleOf(NormSlug(slug)) == KlimovRule;
  }

  /** The slug "cdi" takes the CDI branch. */
  lemma CdiBranch(slug: Option<string>, per: Scales, raw: int, maxScore: int)
    requires NormSlug(slug) == "cdi"
    ensures Interpretation(slug, per, raw, maxScore) == CdiSummary(raw)
  {
    assert RuleOf(NormSlug(slug)) == CdiRule;
  }

  /** The MBTI branch on the counts of `per`. */
  lemma MbtiShape(per: Scales)
    ensures var m := Dichotomies.LetterCounts(per);
      var r := MbtiSummary(Dichotomies.TypeCode(m), Dichotomies.PairLines(m));
      && r.code.Some? && |r.code.value| == 4
      && (forall i :: 0 <= i < 4 ==>
            && (r.code.value[i] == Dichotomies.Pairs[i].0 <==> Get(per, [Dichotomies.Pairs[i].0]) >= Get(per, [Dichotomies.Pairs[i].1]))
            && (r.code.value[i] == Dichotomies.Pairs[i].0 || r.code.value[i] == Dichotomies.Pairs[i].1))
      && |r.bullets| == 7 && r.bullets[0] == TypeIs(r.code.value)
      && r.title == MbtiTitle(r.code.value)
      && forall i :: 0 <= i < 4 ==>
           && r.bullets[3 + i].Pair?
           && r.bullets[3 + i].line.first == Dichotomies.Pairs[i].0
           && (r.bullets[3 + i].line.tie <==> Get(per, [Dichotomies.Pairs[i].0]) == Get(per, [Dichotomies.Pairs[i].1]))
           && r.bullets[3 + i].line.pick == r.code.value[i]
  {
    var m := Dichotomies.LetterCounts(per);
    var code, lines := Dichotomies.TypeCode(m), Dichotomies.PairLines(m);
    var r := MbtiSummary(code, lines);
    Dichotomies.TypeCodeShape(m);
    Dichotomies.PairLinesShape(m);
    Dichotomies.PairCounts(per);
    MbtiSummaryShape(code, lines);
    forall i | 0 <= i < 4
      ensures && r.bullets[3 + i].Pair?
              && r.bullets[3 + i].line.first == Dichotomies.Pairs[i].0
              && (r.bullets[3 + i].line.tie <==> Get(per, [Dichotomies.Pairs[i].0]) == Get(per, [Dichotomies.Pairs[i].1]))
              && r.bullets[3 + i].line.pick == code[i]
    {
      assert r.bullets[3 + i] == Pair(lines[i]);
    }
  }

  lemma MbtiSummaryShape(code: string, lines: seq<Dichotomies.PairLine>)
    ensures var r := MbtiSummary(code, lines);
      && r.code == Some(code) && r.title == MbtiTitle(code)
      && |r.bullets| == 3 + |lines| && r.bullets[0] == TypeIs(code)
      && forall i :: 0 <= i < |lines| ==> r.bullets[3 + i] == Pair(lines[i])
  {
    var head: seq<Bullet> := [TypeIs(code), NotADiagnosis, StyleGuide];
    var tail := PairBullets(lines);
    assert MbtiSummary(code, lines).bullets == head + tail;
    forall i | 0 <= i < |lines|
      ensures (head + tail)[3 + i] == Pair(lines[i])
    {
      assert (head + tail)[3 + i] == tail[i];
    }
  }

  /** Holland: the ranking lists exactly the entries whose key occurs in "RIASEC" (so a
      multi-letter key such as "RI" is kept), largest first and stable on ties; the code
      is the top-three code of that ranking. */
  lemma InterpretHolland(slug: Option<string>, per: Scales, raw: int, maxScore: int)
    requires NormSlug(slug) == "holland"
    ensures var r := Interpretation(slug, per, raw, maxScore);
      && |r.bullets| == 3 && r.bullets[0].RankingLine?
      && var order := r.bullets[0].order;
      && NonIncreasing(order)
      && (forall x :: x in order <==> x in per && SubstringOf(x.0, "RIASEC"))
      && (forall v :: WithValue(order, v) == WithValue(FilterKeys(per, InRiasecText), v))
      && r.code == Some(TopCode(order)) && r.bullets[1] == TopThree(TopCode(order))
  {
    RankingOrdered(per, InRiasecText);
  }

  /** Klimov: the lead is the dash exactly when no key is H, T, N, S or A; otherwise it
      is the short name of the earliest entry holding the largest value. */
  lemma InterpretKlimov(slug: Option<string>, per: Scales, raw: int, maxScore: int)
    requires NormSlug(slug) == "klimov"
    ensures var r := Interpretation(slug, per, raw, maxScore);
      && r.code.Some? && |r.bullets| == 2 && r.bullets[1] == LeadType(r.code.value)
      && ((forall i :: 0 <= i < |per| ==> !IsKlimovCode(per[i].0)) ==> r.code.value == Dash)
      && ((exists i :: 0 <= i < |per| && IsKlimovCode(per[i].0)) ==>
            r.code.value == KlimovShort(FirstMax(FilterKeys(per, IsKlimovCode)).0))
  {
    KlimovBranch(slug, per, raw, maxScore);
    var order := KlimovOrder(per);
    var lead := if order == [] then Dash else order[0].0;
    assert KlimovSummary(per).code == Some(lead) && KlimovSummary(per).bullets == [RankingLine(order), LeadType(lead)];
    KlimovOrderHead(per);
  }

  /** The Klimov ranking is empty exactly when no key is a Klimov code; otherwise it starts
      with the short name of the first largest Klimov entry. */
  lemma KlimovOrderHead(per: Scales)
    ensures (forall i :: 0 <= i < |per| ==> !IsKlimovCode(per[i].0)) ==> KlimovOrder(per) == []
    ensures (exists i :: 0 <= i < |per| && IsKlimovCode(per[i].0)) ==>
      KlimovOrder(per) != [] && KlimovOrder(per)[0].0 == KlimovShort(FirstMax(FilterKeys(per, IsKlimovCode)).0)
  {
    var f := FilterKeys(per, IsKlimovCode);
    SortRenamed(f, KlimovShort);
    if exists i :: 0 <= i < |per| && IsKlimovCode(per[i].0) {
      var i :| 0 <= i < |per| && IsKlimovCode(per[i].0);
      assert per[i] in f;
      SortDescHead(f);
    } else {
      FilterNone(per, IsKlimovCode);
    }
  }

  /** KOS-2: communication and organisation each banded high from 8, medium from 4. */
  lemma InterpretKos(slug: Option<string>, per: Scales, raw: int, maxScore: int)
    requires NormSlug(slug) == "kos2"
    ensures var r := Interpretation(slug, per, raw, maxScore);
      && r.code.None? && |r.bullets| == 3
      && r.bullets[0].Communication? && r.bullets[0].points == Get(per, "COMM")
      && r.bullets[1].Organisation? && r.bullets[1].points == Get(per, "ORG")
      && (r.bullets[0].level == High <==> Get(per, "COMM") >= 8)
      && (r.bullets[0].level == Middle <==> 4 <= Get(per, "COMM") < 8)
      && (r.bullets[1].level == High <==> Get(per, "ORG") >= 8)
      && (r.bullets[1].level == Middle <==> 4 <= Get(per, "ORG") < 8)
  {
    BandedPartition(Get(per, "COMM"), 8, 4);
    BandedPartition(Get(per, "ORG"), 8, 4);
  }

  /** interests, thinking, child_type, bennett: the leading scales are the first three of a
      stable descending ranking of all scales; the percentage bullet is there exactly for
      bennett with a non-zero `max_score`, and bands `int(100 * raw / max_score)` at 75 and 40. */
  lemma InterpretScales(slug: Option<string>, per: Scales, raw: int, maxScore: int)
    requires NormSlug(slug) in {"interests", "thinking", "child_type", "bennett"}
    ensures var r := Interpretation(slug, per, raw, maxScore);
      && r.code.None? && r.bullets[0] == LeadingScales(Prefix(SortDesc(per), 3))
      && NonIncreasing(SortDesc(per)) && multiset(SortDesc(per)) == multiset(per)
      && (|r.bullets| == 2 <==> NormSlug(slug) == "bennett" && maxScore != 0)
      && (|r.bullets| == 2 ==>
            && r.bullets[1] == Spatial(Percent(raw, maxScore), BennettBand(Percent(raw, maxScore)))
            && (r.bullets[1].level == High <==> Percent(raw, maxScore) >= 75)
            && (r.bullets[1].level == Middle <==> 40 <= Percent(raw, maxScore) < 75))
  {
    var s := NormSlug(slug);
    RuleOfScales(s);
    ScalesSummaryShape(per, s == "bennett", raw, maxScore);
    SortDescSorted(per);
    SortDescPermutation(per);
  }

  /** The four slugs of the scales branch, and only "bennett" of them, take the percentage. */
  lemma RuleOfScales(s: string)
    requires s in {"interests", "thinking", "child_type", "bennett"}
    ensures RuleOf(s) == ScalesRule(s == "bennett")
  {
  }

  lemma ScalesSummaryShape(per: Scales, bennett: bool, raw: int, maxScore: int)
    ensures var r := ScalesSummary(per, bennett, raw, maxScore);
      && r.code.None? && r.bullets[0] == LeadingScales(Prefix(SortDesc(per), 3))
      && (|r.bullets| == 2 <==> bennett && maxScore != 0)
      && (|r.bullets| == 2 ==>
            && r.bullets[1] == Spatial(Percent(raw, maxScore), BennettBand(Percent(raw, maxScore)))
            && (r.bullets[1].level == High <==> Percent(raw, maxScore) >= 75)
            && (r.bullets[1].level == Middle <==> 40 <= Percent(raw, maxScore) < 75))
  {
    BandedPartition(Percent(raw, maxScore), 75, 40);
  }

  /** CDI: the total with its level, high from 19, moderate from 13. */
  lemma InterpretCdi(slug: Option<string>, per: Scales, raw: int, maxScore: int)
    requires NormSlug(slug) == "cdi"
    ensures var r := Interpretation(slug, per, raw, maxScore);
      && r.bullets == [CdiTotal(raw, CdiBand(raw)), ForPsychologist]
      && (CdiBand(raw) == High <==> raw >= 19) && (CdiBand(raw) == Middle <==> 13 <= raw < 19)
  {
    CdiBranch(slug, per, raw, maxScore);
    BandedPartition(raw, 19, 13);
  }

  /** Any other slug, a missing one included, only says the results were saved. */
  lemma InterpretDefault(slug: Option<string>, per: Scales, raw: int, maxScore: int)
    requires NormSlug(slug) !in {"mbti", "holland", "klimov", "kos2", "interests", "thinking", "child_type", "bennett", "cdi"}
    ensures Interpretation(slug, per, raw, maxScore) == Summary(SavedTitle, [Saved], None)
  {
  }

  /** The slug is matched without regard to case: any slug reads as its lower case does. */
  lemma SlugCaseInsensitive(slug: string, per: Scales, raw: int, maxScore: int)
    ensures Interpretation(Some(slug), per, raw, maxScore) == Interpretation(Some(Lower(slug)), per, raw, maxScore)
  {
    LowerIdempotent(slug);
  }

  /** A multi-letter key that occurs in "RIASEC" counts: `{"RI": 2}` gives the code "RI". */
  lemma HollandKeepsRunOfLetters()
    ensures HollandSummary([("RI", 2)]).code == Some("RI")
  {
    assert InRiasecText("RI");
    assert FilterKeys([("RI", 2)], InRiasecText) == [("RI", 2)];
    assert Prefix([("RI", 2)], 3) == [("RI", 2)];
    assert JoinKeys([("RI", 2)]) == "RI";
  }

  /** Truncation, not floor: 30 of 40 is 75% (high), 15 of 40 is 37% (low), and
      -1 of 3 is -33%, where Dafny's Euclidean division would give -34. */
  lemma BennettExamples()
    ensures Percent(30, 40) == 75 && BennettBand(Percent(30, 40)) == High
    ensures Percent(15, 40) == 37 && BennettBand(Percent(15, 40)) == Low
    ensures Percent(-1, 3) == -33 && (100 * -1) / 3 == -34
  {
  }

  // ---------------------------------------------------------------------------
  // attempt_finish.

  /** `round(100 * raw / max_score)` when both `max_score` and the question count are
      non-zero, else `round(100 * answered / total_q)`, else 0. `attempt_finish` assigns it
      only when the attempt has a `score` attribute; the `TestAttempt` model (models.py) has
      no such column, so as the repository stands the score is computed and never stored. */
  function FinishScore(raw: int, maxScore: int, totalQ: nat, answered: nat): int {
    if maxScore != 0 && totalQ != 0 then RoundPercent(raw, maxScore) else RoundPercent(answered, totalQ)
  }

  /** The finish score of `_calc_raw_total`'s totals never exceeds 100 unless there are more
      answer rows than questions; it is at least 0 unless the chosen options carry a negative
      TOTAL. Without a positive `max_score` it is the share of questions answered. */
  lemma FinishScoreBounds(parse: Aggregate.Parser, qs: seq<Aggregate.Question>, answers: seq<Aggregate.Answer>)
    ensures var raw, maxScore := Aggregate.RawFirst(parse, qs, answers), Aggregate.MaxScore(parse, qs);
      && (maxScore != 0 || |answers| <= |qs| ==> FinishScore(raw, maxScore, |qs|, |answers|) <= 100)
      && (0 <= raw ==> 0 <= FinishScore(raw, maxScore, |qs|, |answers|))
      && (maxScore == 0 ==> FinishScore(raw, maxScore, |qs|, |answers|) == RoundPercent(|answers|, |qs|))
  {
    var raw, maxScore := Aggregate.RawFirst(parse, qs, answers), Aggregate.MaxScore(parse, qs);
    Aggregate.RawFirstAtMostMax(parse, qs, answers);
    RoundPercentBounds(raw, maxScore);
    RoundPercentBounds(|answers|, |qs|);
  }
}
