/** The psychologist's side, blueprints/psych.py: the CDI risk level of a raw score,
    the counts of students per risk level in a class, how a user's name is shown, and
    `_interpretation`, the three-language variant of the student summary. Its parser
    and aggregator are the regex copy and `Aggregate.CalcScalesAndTotals`. */
module Psych {
  import opened Text
  import opened Scales
  import opened Bands
  import opened Rankings
  import Dichotomies
  import Student

  // ---------------------------------------------------------------------------
  // CDI risk.

  datatype Lang = Ru | En | Kk

  /** `lang if lang in ("ru", "en", "kk") else "ru"` */
  function NormLang(lang: string): Lang {
    if lang == "en" then En else if lang == "kk" then Kk else Ru
  }

  datatype Color = Danger | Warning | Secondary

  /** `{"level", "label", "color", "reason"}`: the level (high, moderate, low), its colour,
      and the language and score the label and the reason are written with. */
  datatype Risk = Risk(level: Band, color: Color, lang: Lang, score: int)

  /** `_cdi_risk_from_raw(raw, lang)` */
  function CdiRisk(raw: Option<int>, lang: string): Option<Risk> {
    if raw.None? then None
    else
      var l := NormLang(lang);
      if raw.value >= 19 then Some(Risk(High, Danger, l, raw.value))
      else if raw.value >= 13 then Some(Risk(Middle, Warning, l, raw.value))
      else Some(Risk(Low, Secondary, l, raw.value))
  }

  /** No score gives no risk; any score gives a complete risk whose level is the CDI
      band (high from 19, moderate 13 to 18, low below), whose colour is danger, warning
      or secondary accordingly, and whose language is the requested one or Russian. */
  lemma CdiRiskLevels(raw: Option<int>, lang: string)
    ensures raw.None? <==> CdiRisk(raw, lang).None?
    ensures raw.Some? ==>
      var r := CdiRisk(raw, lang).value;
      && r.level == CdiBand(raw.value) && r.score == raw.value
      && (r.level == High <==> raw.value >= 19)
      && (r.level == Middle <==> 13 <= raw.value <= 18)
      && (r.level == Low <==> raw.value < 13)
      && (r.color == Danger <==> r.level == High)
      && (r.color == Warning <==> r.level == Middle)
      && (r.lang == Ru <==> lang != "en" && lang != "kk")
  {
    if raw.Some? {
      BandedPartition(raw.value, 19, 13);
    }
  }

  /** A language other than ru, en and kk is read as ru. */
  lemma CdiRiskUnknownLang(raw: Option<int>, lang: string)
    requires lang != "ru" && lang != "en" && lang != "kk"
    ensures CdiRisk(raw, lang) == CdiRisk(raw, "ru")
  {
  }

  // ---------------------------------------------------------------------------
  // CDI tally of a class.

  /** `cdi_counts`: students per risk level, and those without a CDI result. */
  datatype Tally = Tally(high: nat, moderate: nat, low: nat, none: nat)

  /** The level of a student's latest CDI result, if there is one. */
  function LevelOf(risks: map<int, Risk>, student: int): Option<Band> {
    if student in risks then Some(risks[student].level) else None
  }

  /** How many of the students have level `level` (`None`: no result). */
  function CountLevel(students: seq<int>, risks: map<int, Risk>, level: Option<Band>): nat {
    if students == [] then 0
    else CountLevel(students[..|students| - 1], risks, level) + (if LevelOf(risks, students[|students| - 1]) == level then 1 else 0)
  }

  /** The tally loop over the students of a class. */
  method CdiTally(students: seq<int>, risks: map<int, Risk>) returns (t: Tally)
    ensures t.high == CountLevel(students, risks, Some(High))
    ensures t.moderate == CountLevel(students, risks, Some(Middle))
    ensures t.low == CountLevel(students, risks, Some(Low))
    ensures t.none == CountLevel(students, risks, None)
  {
    t := Tally(0, 0, 0, 0);
    for i := 0 to |students|
      invariant t.high == CountLevel(students[..i], risks, Some(High))
      invariant t.moderate == CountLevel(students[..i], risks, Some(Middle))
      invariant t.low == CountLevel(students[..i], risks, Some(Low))
      invariant t.none == CountLevel(students[..i], risks, None)
    {
      assert students[..i + 1][..i] == students[..i];
      var s := students[i];
      if s !in risks {
        t := t.(none := t.none + 1);
      } else {
        match risks[s].level {
          case High => t := t.(high := t.high + 1);
          case Middle => t := t.(moderate := t.moderate + 1);
          case Low => t := t.(low := t.low + 1);
        }
      }
    }
    assert students[..|students|] == students;
  }

  /** Every student lands in exactly one bucket, so the four counts add up to the class size. */
  lemma {:induction false} TallySum(students: seq<int>, risks: map<int, Risk>)
    ensures CountLevel(students, risks, Some(High)) + CountLevel(students, risks, Some(Middle))
          + CountLevel(students, risks, Some(Low)) + CountLevel(students, risks, None) == |students|
  {
    if students != [] {
      TallySum(students[..|students| - 1], risks);
      var s := students[|students| - 1];
      if s in risks {
        match risks[s].level {
          case High =>
          case Middle =>
          case Low =>
        }
      }
    }
  }

  // ---------------------------------------------------------------------------
  // Display names.

  /** The `id` attribute as `getattr(u, 'id', '?')` sees it: missing, present and `None`, or a number. */
  datatype IdAttr = NoId | NullId | Id(n: int)

  /** What the f-string shows for the id: the default `?`, Python's `None`, or the number. */
  function IdText(id: IdAttr): (t: string)
    ensures t != ""
  {
    match id
      case NoId => "?"
      case NullId => "None"
      case Id(n) => IntToString(n)
  }

  /** The attributes `_display_name` looks at; a missing name attribute is `None`. */
  datatype User = User(id: IdAttr, lastName: Option<string>, firstName: Option<string>, name: Option<string>, email: Option<string>)

  /** `hasattr(u, attr) and getattr(u, attr)`: present and not empty. */
  predicate Truthy(a: Option<string>) { a.Some? && a.value != "" }

  /** The truthy ones among `attrs`, in order. */
  function TruthyParts(attrs: seq<Option<string>>): (parts: seq<string>)
    ensures forall j :: 0 <= j < |parts| ==> parts[j] != ""
  {
    if attrs == [] then []
    else TruthyParts(attrs[..|attrs| - 1]) + (if Truthy(attrs[|attrs| - 1]) then [attrs[|attrs| - 1].value] else [])
  }

  /** `" ".join(parts)` */
  function JoinSpace(parts: seq<string>): string {
    if parts == [] then "" else if |parts| == 1 then parts[0] else parts[0] + " " + JoinSpace(parts[1..])
  }

  /** Last name and first name, then `name`, then `email`, then `#id` (`#?` without an id attribute, `#None` when it is `None`). */
  function DisplayNameOf(u: User): string {
    var parts := TruthyParts([u.lastName, u.firstName]);
    if parts != [] then JoinSpace(parts)
    else if Truthy(u.name) then u.name.value
    else if Truthy(u.email) then u.email.value
    else "#" + IdText(u.id)
  }

  /** `_display_name(u)` */
  method DisplayName(u: User) returns (s: string)
    ensures s == DisplayNameOf(u)
  {
    var attrs := [u.lastName, u.firstName];
    var parts: seq<string> := [];
    for i := 0 to |attrs|
      invariant parts == TruthyParts(attrs[..i])
    {
      assert attrs[..i + 1][..i] == attrs[..i];
      if Truthy(attrs[i]) {
        parts := parts + [attrs[i].value];
      }
    }
    assert attrs[..|attrs|] == attrs;
    if parts == [] && Truthy(u.name) {
      parts := [u.name.value];
    }
    if parts == [] && Truthy(u.email) {
      parts := [u.email.value];
    }
    if parts == [] {
      parts := ["#" + IdText(u.id)];
    }
    s := JoinSpace(parts);
  }

  lemma {:induction false} JoinSpaceNonEmpty(parts: seq<string>)
    requires parts != [] && forall j :: 0 <= j < |parts| ==> parts[j] != ""
    ensures JoinSpace(parts) != ""
  {
    if |parts| > 1 {
      JoinSpaceNonEmpty(parts[1..]);
    }
  }

  /** The shown name is never empty, and the fallbacks apply in order: last and first name
      (joined by a space), then `name`, then `email`, then `#id`. */
  lemma DisplayNamePrecedence(u: User)
    ensures DisplayNameOf(u) != ""
    ensures Truthy(u.lastName) && Truthy(u.firstName) ==> DisplayNameOf(u) == u.lastName.value + " " + u.firstName.value
    ensures Truthy(u.lastName) && !Truthy(u.firstName) ==> DisplayNameOf(u) == u.lastName.value
    ensures !Truthy(u.lastName) && Truthy(u.firstName) ==> DisplayNameOf(u) == u.firstName.value
    ensures !Truthy(u.lastName) && !Truthy(u.firstName) && Truthy(u.name) ==> DisplayNameOf(u) == u.name.value
    ensures !Truthy(u.lastName) && !Truthy(u.firstName) && !Truthy(u.name) && Truthy(u.email) ==> DisplayNameOf(u) == u.email.value
    ensures !Truthy(u.lastName) && !Truthy(u.firstName) && !Truthy(u.name) && !Truthy(u.email) ==>
      DisplayNameOf(u) == "#" + IdText(u.id)
  {
    var parts := TruthyParts([u.lastName, u.firstName]);
    TruthyPartsOfTwo(u.lastName, u.firstName);
    if parts != [] {
      JoinSpaceNonEmpty(parts);
    }
    if |parts| == 2 {
      assert JoinSpace(parts) == parts[0] + " " + JoinSpace(parts[1..]);
    }
  }

  lemma TruthyPartsOfTwo(a: Option<string>, b: Option<string>)
    ensures TruthyParts([a, b]) == (if Truthy(a) then [a.value] else []) + (if Truthy(b) then [b.value] else [])
  {
    assert [a, b][..1] == [a] && [a][..0] == [];
    assert TruthyParts([a]) == (if Truthy(a) then [a.value] else []);
  }

  // ---------------------------------------------------------------------------
  // _interpretation.

  /** Which branch of `_interpretation` a normalised slug takes (psych.py has no Klimov
      branch, and sends cdi to the bennett group). */
  datatype Rule = MbtiRule | HollandRule | KosRule | ScalesRule(bennett: bool) | DefaultRule

  function RuleOf(s: string): Rule {
    if s == "mbti" then MbtiRule
    else if s == "holland" then HollandRule
    else if s == "kos2" then KosRule
    else if s == "cdi" || s == "interests" || s == "thinking" || s == "child_type" || s == "bennett" then ScalesRule(s == "bennett")
    else DefaultRule
  }

  predicate KnownLang(lang: string) { lang == "ru" || lang == "en" || lang == "kk" }

  /** Two header bullets and then the four pair bullets (`bullets[:0] = [...]`). */
  function MbtiSummary(code: string, lines: seq<Dichotomies.PairLine>): Summary {
    Summary(MbtiTitle(code), [TypeIs(code), NotADiagnosis] + PairBullets(lines), Some(code))
  }

  /** Holland with `k in set("RIASEC")`: only one-letter keys. */
  function HollandSummary(per: Scales): Summary {
    var top := TopCode(Ranking(per, InRiasecSet));
    Summary(RiasecTitle(top), [TopThree(top), ChooseByCodes], Some(top))
  }

  function KosSummary(per: Scales): Summary {
    var comm, org := Get(per, "COMM"), Get(per, "ORG");
    Summary(KosTitle, [Communication(comm, KosLevel(comm)), Organisation(org, KosLevel(org))], None)
  }

  /** The cdi, interests, thinking, child_type and bennett branch: the percentage bullet for
      bennett with a non-zero `max_score`, otherwise the one "saved" bullet. */
  function ScalesSummary(bennett: bool, raw: int, maxScore: int): Summary {
    if bennett && maxScore != 0 then
      var pct := Percent(raw, maxScore);
      Summary(ScalesTitle, [Spatial(pct, BennettBand(pct))], None)
    else Summary(ScalesTitle, [Saved], None)
  }

  /** What `_interpretation(slug, lang, per, raw, max_score)` does: the table of texts is
      looked up by `lang` first, so a language other than ru, en and kk raises `KeyError`
      whatever the slug. */
  function Interpretation(slug: Option<string>, lang: string, per: Scales, raw: int, maxScore: int): Outcome<Summary> {
    if !KnownLang(lang) then Raised
    else Returned(
      match RuleOf(Student.NormSlug(slug))
        case MbtiRule =>
          var m := Dichotomies.LetterCounts(per);
          MbtiSummary(Dichotomies.TypeCode(m), Dichotomies.PairLines(m))
        case HollandRule => HollandSummary(per)
        case KosRule => KosSummary(per)
        case ScalesRule(bennett) => ScalesSummary(bennett, raw, maxScore)
        case DefaultRule => Summary(ScalesTitle, [Saved], None))
  }

  /** `_interpretation`: the MBTI branch appends one bullet per pair in a loop and then
      splices the two headers in front. */
  method Interpret(slug: Option<string>, lang: string, per: Scales, raw: int, maxScore: int) returns (r: Outcome<Summary>)
    ensures r == Interpretation(slug, lang, per, raw, maxScore)
  {
    if lang != "ru" && lang != "en" && lang != "kk" {
      return Raised;
    }
    var s := Student.NormSlug(slug);
    if s == "mbti" {
      var code, lines := Dichotomies.ResolveDichotomies(per);
      var bullets := PairBullets(lines);
      bullets := [TypeIs(code), NotADiagnosis] + bullets;
      return Returned(Summary(MbtiTitle(code), bullets, Some(code)));
    }
    if s == "holland" {
      return Returned(HollandSummary(per));
    }
    if s == "kos2" {
      return Returned(KosSummary(per));
    }
    if s == "cdi" || s == "interests" || s == "thinking" || s == "child_type" || s == "bennett" {
      return Returned(ScalesSummary(s == "bennett", raw, maxScore));
    }
    return Returned(Summary(ScalesTitle, [Saved], None));
  }

  /** `_interpretation` raises exactly for a language outside ru, en and kk. */
  lemma InterpretationRaisesIff(slug: Option<string>, lang: string, per: Scales, raw: int, maxScore: int)
    ensures Interpretation(slug, lang, per, raw, maxScore).Raised? <==> lang !in {"ru", "en", "kk"}
  {
  }

  /** MBTI: the same four-letter code and tie rule as blueprints/student.py, with two header
      bullets and the four pair bullets, six in all. */
  lemma InterpretMbti(slug: Option<string>, lang: string, per: Scales, raw: int, maxScore: int)
    requires KnownLang(lang) && Student.NormSlug(slug) == "mbti"
    ensures var r := Interpretation(slug, lang, per, raw, maxScore);
      && r.Returned? && |r.value.bullets| == 6 && r.value.code.Some?
      && r.value.code == Student.Interpretation(slug, per, raw, maxScore).code
      && |r.value.code.value| == 4
      && r.value.bullets[2..] == Student.Interpretation(slug, per, raw, maxScore).bullets[3..]
  {
    var m := Dichotomies.LetterCounts(per);
    var code, lines := Dichotomies.TypeCode(m), Dichotomies.PairLines(m);
    assert Interpretation(slug, lang, per, raw, maxScore) == Returned(MbtiSummary(code, lines));
    assert Student.Interpretation(slug, per, raw, maxScore) == Student.MbtiSummary(code, lines);
    assert MbtiSummary(code, lines).bullets[2..] == PairBullets(lines);
    assert Student.MbtiSummary(code, lines).bullets[3..] == PairBullets(lines);
  }

  /** Holland here keeps one-letter keys only: the code is the dash or one to three of the
      letters R, I, A, S, E, C, read off a stable descending ranking. */
  lemma InterpretHolland(slug: Option<string>, lang: string, per: Scales, raw: int, maxScore: int)
    requires KnownLang(lang) && Student.NormSlug(slug) == "holland"
    ensures var r := Interpretation(slug, lang, per, raw, maxScore);
      && r.Returned? && r.value.code.Some?
      && var code := r.value.code.value;
      && (code == Dash || (1 <= |code| <= 3 && forall i :: 0 <= i < |code| ==> code[i] in "RIASEC"))
      && (code == Dash <==> forall i :: 0 <= i < |per| ==> !InRiasecSet(per[i].0))
  {
    assert Interpretation(slug, lang, per, raw, maxScore) == Returned(HollandSummary(per));
    HollandCode(per);
  }

  lemma HollandCode(per: Scales)
    ensures var code := TopCode(Ranking(per, InRiasecSet));
      && (code == Dash || (1 <= |code| <= 3 && forall i :: 0 <= i < |code| ==> code[i] in "RIASEC"))
      && (code == Dash <==> forall i :: 0 <= i < |per| ==> !InRiasecSet(per[i].0))
  {
    var order := Ranking(per, InRiasecSet);
    assert forall x :: x in order <==> x in per && InRiasecSet(x.0) by {
      RankingOrdered(per, InRiasecSet);
    }
    forall i | 0 <= i < |order| ensures |order[i].0| == 1 && order[i].0[0] in "RIASEC" {
      assert order[i] in order;
    }
    TopCodeLetters(order);
    if order == [] {
      forall i | 0 <= i < |per| ensures !InRiasecSet(per[i].0) {
        assert per[i] !in order;
      }
    } else {
      assert order[0] in per;
      var i :| 0 <= i < |per| && per[i] == order[0];
      assert InRiasecSet(per[i].0);
      assert TopCode(order)[0] in "RIASEC";
    }
  }

  /** KOS-2: the same bands as blueprints/student.py, without the advice bullet. */
  lemma InterpretKos(slug: Option<string>, lang: string, per: Scales, raw: int, maxScore: int)
    requires KnownLang(lang) && Student.NormSlug(slug) == "kos2"
    ensures var r := Interpretation(slug, lang, per, raw, maxScore);
      && r.Returned? && r.value.bullets == Student.Interpretation(slug, per, raw, maxScore).bullets[..2]
  {
  }

  /** cdi, interests, thinking, child_type and bennett: one bullet, the percentage for bennett
      with a non-zero `max_score` and "saved" otherwise; any other slug: "saved". */
  lemma InterpretOthers(slug: Option<string>, lang: string, per: Scales, raw: int, maxScore: int)
    requires KnownLang(lang) && Student.NormSlug(slug) !in {"mbti", "holland", "kos2"}
    ensures var r := Interpretation(slug, lang, per, raw, maxScore);
      && r.Returned? && |r.value.bullets| == 1 && r.value.code.None?
      && (Student.NormSlug(slug) == "bennett" && maxScore != 0 ==>
            r.value.bullets[0] == Spatial(Percent(raw, maxScore), BennettBand(Percent(raw, maxScore))))
      && (Student.NormSlug(slug) != "bennett" || maxScore == 0 ==> r.value.bullets[0] == Saved)
  {
  }

  /** The two Holland filters differ: `{"RI": 2}` gives the code "RI" in blueprints/student.py
      but the dash here. */
  lemma HollandFiltersDiffer()
    ensures Student.HollandSummary([("RI", 2)]).code == Some("RI")
    ensures HollandSummary([("RI", 2)]).code == Some(Dash)
  {
    Student.HollandKeepsRunOfLetters();
    assert FilterKeys([("RI", 2)], InRiasecSet) == [];
  }

  // ---------------------------------------------------------------------------
  // Corrected: the language falls back to ru, as in `_cdi_risk_from_raw`.

  /** The language `_interpretation` would use if it normalised like `_cdi_risk_from_raw`. */
  function LangName(l: Lang): string {
    match l
      case Ru => "ru"
      case En => "en"
      case Kk => "kk"
  }

  /** `_interpretation` with an unknown language read as ru. */
  function InterpretationAnyLang(slug: Option<string>, lang: string, per: Scales, raw: int, maxScore: int): Outcome<Summary> {
    Interpretation(slug, LangName(NormLang(lang)), per, raw, maxScore)
  }

  /** The corrected version never raises, agrees with `_interpretation` on ru, en and kk,
      and reads any other language as ru. */
  lemma AnyLangNeverRaises(slug: Option<string>, lang: string, per: Scales, raw: int, maxScore: int)
    ensures InterpretationAnyLang(slug, lang, per, raw, maxScore).Returned?
    ensures KnownLang(lang) ==> InterpretationAnyLang(slug, lang, per, raw, maxScore) == Interpretation(slug, lang, per, raw, maxScore)
    ensures !KnownLang(lang) ==> InterpretationAnyLang(slug, lang, per, raw, maxScore) == Interpretation(slug, "ru", per, raw, maxScore)
  {
  }

  /** As written, a request with `?lang=de` makes the psychologist's result page raise,
      while the CDI risk for the same language falls back to ru. */
  lemma UnknownLangRaises(slug: Option<string>, per: Scales, raw: int, maxScore: int)
    ensures Interpretation(slug, "de", per, raw, maxScore) == Raised
    ensures CdiRisk(Some(raw), "de") == CdiRisk(Some(raw), "ru")
  {
  }
}
