/** services/analysis.py: `_humanize`, the one-line digest of a test result, and
    `build_user_results_summary`, the digest of a student's latest finished attempts.
    Its aggregator calls the split copy of the parser, so a summary can raise. */
module Analysis {
  import opened Text
  import opened Scales
  import opened Bands
  import opened Rankings
  import Dichotomies
  import Aggregate
  import Student

  datatype ScaleTest = Interests | Thinking | ChildType

  /** What a digest line says, without its wording. */
  datatype Digest =
    | MbtiDigest(code: string, lines: seq<Dichotomies.PairLine>)
    | KlimovDigest(lead: string, ranking: Scales)        // ranking shown with full category names
    | HollandDigest(code: string, ranking: Scales)
    | KosDigest(comm: int, commLevel: Band, org: int, orgLevel: Band)
    | BennettDigest(pct: int, level: Band)
    | ScalesDigest(test: ScaleTest, leading: Scales)
    | CdiConfidential                                    // "available only to the school psychologist"
    | SavedDigest

  /** `ordered` of the Klimov branch: the Klimov entries, codes kept, largest first. */
  function KlimovRanking(per: Scales): Scales {
    Ranking(per, IsKlimovCode)
  }

  function KlimovDigestOf(per: Scales): Digest {
    var ordered := KlimovRanking(per);
    KlimovDigest(if ordered == [] then Dash else KlimovLong(ordered[0].0), Renamed(ordered, KlimovLong))
  }

  function HollandDigestOf(per: Scales): Digest {
    var ordered := Ranking(per, InRiasecText);
    HollandDigest(TopCode(ordered), ordered)
  }

  function KosDigestOf(per: Scales): Digest {
    var comm, org := Get(per, "COMM"), Get(per, "ORG");
    KosDigest(comm, KosLevel(comm), org, KosLevel(org))
  }

  function BennettDigestOf(raw: int, maxScore: int): Digest {
    var pct := Percent(raw, maxScore);
    BennettDigest(pct, BennettBand(pct))
  }

  /** What `_humanize(slug, per, raw, max_score)` says. */
  function HumanizeOf(slug: string, per: Scales, raw: int, maxScore: int): Digest {
    var s := Lower(slug);
    if s == "mbti" then
      var m := Dichotomies.LetterCounts(per);
      MbtiDigest(Dichotomies.TypeCode(m), Dichotomies.PairLines(m))
    else if s == "klimov" then KlimovDigestOf(per)
    else if s == "holland" then HollandDigestOf(per)
    else if s == "kos2" then KosDigestOf(per)
    else if s == "bennett" then BennettDigestOf(raw, maxScore)
    else if s == "interests" then ScalesDigest(Interests, Prefix(SortDesc(per), 3))
    else if s == "thinking" then ScalesDigest(Thinking, Prefix(SortDesc(per), 3))
    else if s == "child_type" then ScalesDigest(ChildType, Prefix(SortDesc(per), 3))
    else if s == "cdi" then CdiConfidential
    else SavedDigest
  }

  /** `_humanize`: the MBTI branch calls `_mbti_code_from_per`, the pair loop. */
  method Humanize(slug: string, per: Scales, raw: int, maxScore: int) returns (d: Digest)
    ensures d == HumanizeOf(slug, per, raw, maxScore)
  {
    var s := Lower(slug);
    if s == "mbti" {
      var code, lines := Dichotomies.ResolveDichotomies(per);
      return MbtiDigest(code, lines);
    }
    return HumanizeOf(slug, per, raw, maxScore);
  }

  // ---------------------------------------------------------------------------
  // What a digest says.

  /** Bennett: without a `max_score` the percentage is 0, hence low; otherwise it is
      `int(100 * raw / max_score)` banded at 75 and 40, and between 0 and 100 when
      `0 <= raw <= max_score`. */
  lemma BennettDigestBands(raw: int, maxScore: int)
    requires 0 <= maxScore
    ensures var d := HumanizeOf("bennett", [], raw, maxScore);
      && d.BennettDigest?
      && (maxScore == 0 ==> d.pct == 0 && d.level == Low)
      && (d.level == High <==> d.pct >= 75)
      && (d.level == Middle <==> 40 <= d.pct < 75)
      && (0 <= raw <= maxScore ==> 0 <= d.pct <= 100)
  {
    assert Lower("bennett") == "bennett";
    BandedPartition(Percent(raw, maxScore), 75, 40);
    if raw <= maxScore {
      PercentBounds(raw, maxScore);
    }
  }

  /** Klimov: the lead is the full name of the earliest entry with the largest value among
      H, T, N, S and A, or the dash when there is none; the student page shows the short name
      of the same entry. */
  lemma KlimovLead(per: Scales)
    ensures var d := KlimovDigestOf(per);
      && ((forall i :: 0 <= i < |per| ==> !IsKlimovCode(per[i].0)) ==> d.lead == Dash)
      && ((exists i :: 0 <= i < |per| && IsKlimovCode(per[i].0)) ==>
            var k := FirstMax(FilterKeys(per, IsKlimovCode)).0;
            && d.lead == KlimovLong(k)
            && Student.KlimovSummary(per).code == Some(KlimovShort(k)))
      && NonIncreasing(KlimovRanking(per))
  {
    var f := FilterKeys(per, IsKlimovCode);
    RankingOrdered(per, IsKlimovCode);
    SortRenamed(f, KlimovShort);
    if exists i :: 0 <= i < |per| && IsKlimovCode(per[i].0) {
      var i :| 0 <= i < |per| && IsKlimovCode(per[i].0);
      assert per[i] in f;
      SortDescHead(f);
    } else {
      FilterNone(per, IsKlimovCode);
    }
  }

  /** Holland and MBTI give the same code as the student page for the same totals. */
  lemma CodesAgreeWithStudent(per: Scales)
    ensures HollandDigestOf(per).code == Student.HollandSummary(per).code.value
    ensures var m := Dichotomies.LetterCounts(per);
      HumanizeOf("mbti", per, 0, 0) == MbtiDigest(Dichotomies.TypeCode(m), Dichotomies.PairLines(m))
  {
    assert Lower("mbti") == "mbti";
  }

  /** KOS-2: both counts banded high from 8, medium from 4. */
  lemma KosDigestBands(per: Scales)
    ensures var d := KosDigestOf(per);
      && d.comm == Get(per, "COMM") && d.org == Get(per, "ORG")
      && (d.commLevel == High <==> d.comm >= 8) && (d.commLevel == Middle <==> 4 <= d.comm < 8)
      && (d.orgLevel == High <==> d.org >= 8) && (d.orgLevel == Middle <==> 4 <= d.org < 8)
  {
    BandedPartition(Get(per, "COMM"), 8, 4);
    BandedPartition(Get(per, "ORG"), 8, 4);
  }

  /** The CDI digest reveals nothing of the totals. */
  lemma CdiRevealsNothing(per1: Scales, raw1: int, max1: int, per2: Scales, raw2: int, max2: int)
    ensures HumanizeOf("cdi", per1, raw1, max1) == HumanizeOf("cdi", per2, raw2, max2) == CdiConfidential
  {
    assert Lower("cdi") == "cdi";
  }

  // ---------------------------------------------------------------------------
  // build_user_results_summary.

  /** The test fields the summary reads; questions in `order`, options in `order`. */
  datatype TestRow = TestRow(title: string, slug: string, confidential: bool, questions: seq<Aggregate.Question>)

  /** A finished attempt with its answers. */
  datatype Attempt = Attempt(testId: int, answers: seq<Aggregate.Answer>)

  datatype Line =
    | Placeholder(title: string)                 // "TITLE: confidential summary without details."
    | DigestLine(title: string, digest: Digest)  // "TITLE: " + _humanize(...)

  /** The fixed "no finished tests yet" text, or the header and one line per attempt. */
  datatype Report = NoFinishedTests | Report(lines: seq<Line>)

  /** The line of one attempt: none when its test is gone, the placeholder for a confidential
      test, otherwise the digest of its totals (raising when an option value raises). */
  function LineFor(a: Attempt, tests: map<int, TestRow>): Outcome<Option<Line>> {
    if a.testId !in tests then Returned(None)
    else
      var t := tests[a.testId];
      if t.confidential then Returned(Some(Placeholder(t.title)))
      else DigestLineOf(t, Aggregate.Aggregate(Aggregate.SplitCopy, t.questions, Aggregate.IndexByQuestion(a.answers)))
  }

  /** The digest line of a non-confidential test, or the exception its aggregation raised. */
  function DigestLineOf(t: TestRow, totals: Outcome<Aggregate.Totals>): Outcome<Option<Line>> {
    match totals
      case Raised => Raised
      case Returned(tot) => Returned(Some(DigestLine(t.title, HumanizeOf(t.slug, tot.per, tot.raw, tot.maxScore))))
  }

  /** One turn of the loop: an earlier exception or this attempt's exception ends it,
      otherwise this attempt's line (if any) is appended. */
  function Step(prev: Outcome<seq<Line>>, next: Outcome<Option<Line>>): Outcome<seq<Line>> {
    match prev
      case Raised => Raised
      case Returned(ls) =>
        match next
          case Raised => Raised
          case Returned(None) => Returned(ls)
          case Returned(Some(l)) => Returned(ls + [l])
  }

  function LinesOf(atts: seq<Attempt>, tests: map<int, TestRow>): Outcome<seq<Line>> {
    if atts == [] then Returned([])
    else Step(LinesOf(atts[..|atts| - 1], tests), LineFor(atts[|atts| - 1], tests))
  }

  /** What `build_user_results_summary` returns for attempts already sorted newest first. */
  function SummaryOf(attempts: seq<Attempt>, tests: map<int, TestRow>, limit: nat): Outcome<Report> {
    var atts := Prefix(attempts, limit);
    if atts == [] then Returned(NoFinishedTests)
    else match LinesOf(atts, tests)
      case Raised => Raised
      case Returned(ls) => Returned(Report(ls))
  }

  /** The body of the attempt loop: the line one attempt adds, or the exception it raises. */
  method AttemptLine(a: Attempt, tests: map<int, TestRow>) returns (l: Outcome<Option<Line>>)
    ensures l == LineFor(a, tests)
  {
    if a.testId !in tests {
      return Returned(None);
    }
    var t := tests[a.testId];
    if t.confidential {
      return Returned(Some(Placeholder(t.title)));
    }
    var totals := Aggregate.CalcScalesAndTotals(Aggregate.SplitCopy, t.questions, Aggregate.IndexByQuestion(a.answers));
    if totals.Raised? {
      return Raised;
    }
    var d := Humanize(t.slug, totals.value.per, totals.value.raw, totals.value.maxScore);
    return Returned(Some(DigestLine(t.title, d)));
  }

  /** The attempt loop: the lines of the attempts, or the first exception one of them raises. */
  method CollectLines(atts: seq<Attempt>, tests: map<int, TestRow>) returns (r: Outcome<seq<Line>>)
    ensures r == LinesOf(atts, tests)
  {
    var lines: seq<Line> := [];
    for i := 0 to |atts|
      invariant LinesOf(atts[..i], tests) == Returned(lines)
    {
      assert atts[..i + 1][..i] == atts[..i];
      var l := AttemptLine(atts[i], tests);
      assert LinesOf(atts[..i + 1], tests) == Step(Returned(lines), l);
      match l
      case Raised =>
        LinesRaisedPrefix(atts, tests, i + 1);
        return Raised;
      case Returned(None) =>
      case Returned(Some(line)) =>
        lines := lines + [line];
    }
    assert atts[..|atts|] == atts;
    return Returned(lines);
  }

  method BuildSummary(attempts: seq<Attempt>, tests: map<int, TestRow>, limit: nat) returns (r: Outcome<Report>)
    ensures r == SummaryOf(attempts, tests, limit)
  {
    var atts := Prefix(attempts, limit);
    if atts == [] {
      return Returned(NoFinishedTests);
    }
    var lines := CollectLines(atts, tests);
    match lines
    case Raised => return Raised;
    case Returned(ls) => return Returned(Report(ls));
  }

  /** Once the lines of the first `k` attempts raise, the whole loop raises. */
  lemma {:induction false} LinesRaisedPrefix(atts: seq<Attempt>, tests: map<int, TestRow>, k: nat)
    requires k <= |atts| && LinesOf(atts[..k], tests).Raised?
    ensures LinesOf(atts, tests).Raised?
    decreases |atts| - k
  {
    if k == |atts| {
      assert atts[..k] == atts;
    } else {
      assert atts[..k + 1][..k] == atts[..k];
      LinesRaisedPrefix(atts, tests, k + 1);
    }
  }

  /** A list of attempts raises exactly when the line of one of them raises. */
  lemma {:induction false} LinesRaiseIff(atts: seq<Attempt>, tests: map<int, TestRow>)
    ensures LinesOf(atts, tests).Raised? <==> exists i :: 0 <= i < |atts| && LineFor(atts[i], tests).Raised?
  {
    if atts != [] {
      var init, last := atts[..|atts| - 1], atts[|atts| - 1];
      LinesRaiseIff(init, tests);
      if LinesOf(atts, tests).Raised? {
        if !LineFor(last, tests).Raised? {
          assert LinesOf(init, tests).Raised?;
          var j :| 0 <= j < |init| && LineFor(init[j], tests).Raised?;
          assert init[j] == atts[j];
        }
      } else {
        assert LinesOf(init, tests).Returned? && LineFor(last, tests).Returned?;
        forall i | 0 <= i < |atts|
          ensures LineFor(atts[i], tests).Returned?
        {
          if i < |init| {
            assert init[i] == atts[i];
          }
        }
      }
    }
  }

  // ---------------------------------------------------------------------------
  // What a summary says.

  /** How many of the attempts have a test that still exists. */
  function KnownTests(atts: seq<Attempt>, tests: map<int, TestRow>): nat {
    if atts == [] then 0
    else KnownTests(atts[..|atts| - 1], tests) + (if atts[|atts| - 1].testId in tests then 1 else 0)
  }

  /** One line per attempt whose test exists, in attempt order: a confidential test gives
      the placeholder, any other test a digest line. */
  lemma {:induction false} LinesPerAttempt(atts: seq<Attempt>, tests: map<int, TestRow>)
    requires LinesOf(atts, tests).Returned?
    ensures |LinesOf(atts, tests).value| == KnownTests(atts, tests) <= |atts|
    ensures forall j :: 0 <= j < |LinesOf(atts, tests).value| ==>
      LinesOf(atts, tests).value[j].Placeholder? ==>
        exists i :: 0 <= i < |atts| && atts[i].testId in tests && tests[atts[i].testId].confidential
          && tests[atts[i].testId].title == LinesOf(atts, tests).value[j].title
  {
    if atts != [] {
      var init := atts[..|atts| - 1];
      LinesPerAttempt(init, tests);
      forall i | 0 <= i < |init| ensures init[i] == atts[i] { }
    }
  }

  /** No attempts (or a limit of 0) give the fixed message; otherwise, when nothing raises,
      there is one line per attempt with an existing test, at most `limit` lines. */
  lemma SummaryShape(attempts: seq<Attempt>, tests: map<int, TestRow>, limit: nat)
    ensures (attempts == [] || limit == 0) <==> SummaryOf(attempts, tests, limit) == Returned(NoFinishedTests)
    ensures SummaryOf(attempts, tests, limit).Returned? && SummaryOf(attempts, tests, limit).value.Report? ==>
      |SummaryOf(attempts, tests, limit).value.lines| == KnownTests(Prefix(attempts, limit), tests) <= limit
  {
    var atts := Prefix(attempts, limit);
    if atts != [] && LinesOf(atts, tests).Returned? {
      LinesPerAttempt(atts, tests);
    }
  }

  /** A confidential test's line does not depend on the attempt's answers. */
  lemma ConfidentialHidesAnswers(testId: int, a1: seq<Aggregate.Answer>, a2: seq<Aggregate.Answer>, tests: map<int, TestRow>)
    requires testId in tests && tests[testId].confidential
    ensures LineFor(Attempt(testId, a1), tests) == LineFor(Attempt(testId, a2), tests) == Returned(Some(Placeholder(tests[testId].title)))
  {
  }

  /** A summary raises exactly when an attempt within the limit belongs to an existing,
      non-confidential test whose options the split copy of the parser cannot read. */
  lemma SummaryRaisesIff(attempts: seq<Attempt>, tests: map<int, TestRow>, limit: nat)
    ensures SummaryOf(attempts, tests, limit).Raised? <==>
      exists i :: 0 <= i < |Prefix(attempts, limit)| && Prefix(attempts, limit)[i].testId in tests
        && !tests[Prefix(attempts, limit)[i].testId].confidential
        && Aggregate.Aggregate(Aggregate.SplitCopy, tests[Prefix(attempts, limit)[i].testId].questions,
                               Aggregate.IndexByQuestion(Prefix(attempts, limit)[i].answers)).Raised?
  {
    var atts := Prefix(attempts, limit);
    LinesRaiseIff(atts, tests);
  }
}
