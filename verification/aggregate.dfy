/** `_calc_scales_and_totals` (blueprints/student.py, blueprints/psych.py,
    services/analysis.py) and `_calc_raw_total` (blueprints/student.py): fold the
    questions of a test, the options of each question and the chosen answers into
    per-scale totals, the raw TOTAL sum and the best reachable TOTAL. The database
    queries become inputs: questions arrive in `order`, each with its options in
    `order`. */
module Aggregate {
  import opened Text
  import opened Scales
  import RegexParser
  import SplitParser

  datatype OptionRow = OptionRow(id: int, value: Option<string>)

  datatype Question = Question(id: int, options: seq<OptionRow>)

  /** `TestAnswer`: the option id is empty when the student skipped the question. */
  datatype Answer = Answer(questionId: int, optionId: Option<int>)

  /** `(per, raw, max_score)` */
  datatype Totals = Totals(per: Scales, raw: int, maxScore: int)

  /** The copy of `_parse_value_to_scales` an aggregator calls. The three aggregators are
      the same code around different parsers, so the aggregator here takes the parser. */
  type Parser = Option<string> -> Outcome<Scales>

  /** The regex copy, called by blueprints/student.py and blueprints/psych.py; it never raises. */
  const RegexCopy: Parser := val => Returned(RegexParser.Parse(val))

  /** The split copy, called by services/analysis.py. */
  const SplitCopy: Parser := val => SplitParser.Parse(val)

  /** The scales of an option value that parses (an empty map for one that raises). */
  function ScalesOf(parse: Parser, val: Option<string>): Scales {
    match parse(val)
      case Returned(s) => s
      case Raised => []
  }

  function TotalOf(parse: Parser, val: Option<string>): int {
    Get(ScalesOf(parse, val), "TOTAL")
  }

  /** How parsing each option ends, in option order. */
  function OptionOutcomes(parse: Parser, opts: seq<OptionRow>): (os: seq<Outcome<Scales>>)
    ensures |os| == |opts|
    ensures forall j :: 0 <= j < |opts| ==> os[j] == parse(opts[j].value)
  {
    seq(|opts|, j requires 0 <= j < |opts| => parse(opts[j].value))
  }

  predicate AllReturned<T>(os: seq<Outcome<T>>) {
    forall j :: 0 <= j < |os| ==> os[j].Returned?
  }

  /** The TOTAL of each option, in option order. */
  function OptionTotals(parse: Parser, opts: seq<OptionRow>): (ts: seq<int>)
    ensures |ts| == |opts|
    ensures forall j :: 0 <= j < |opts| ==> ts[j] == TotalOf(parse, opts[j].value)
  {
    seq(|opts|, j requires 0 <= j < |opts| => TotalOf(parse, opts[j].value))
  }

  /** `m = 0; for t in ts: m = max(m, t)` */
  function MaxFromZero(ts: seq<int>): (m: int)
    ensures m >= 0
    ensures forall j :: 0 <= j < |ts| ==> ts[j] <= m
    ensures m == 0 || m in ts
  {
    if ts == [] then 0
    else
      var prev := MaxFromZero(ts[..|ts| - 1]);
      assert forall j :: 0 <= j < |ts| - 1 ==> ts[..|ts| - 1][j] == ts[j];
      if prev >= ts[|ts| - 1] then prev else ts[|ts| - 1]
  }

  /** `max_q`: the best TOTAL over the options of one question, never below 0. */
  function QuestionMax(parse: Parser, opts: seq<OptionRow>): int {
    MaxFromZero(OptionTotals(parse, opts))
  }

  /** `max_score`: the sum over questions of their best TOTAL. */
  function MaxScore(parse: Parser, qs: seq<Question>): (m: int)
    ensures m >= 0
  {
    if qs == [] then 0 else MaxScore(parse, qs[..|qs| - 1]) + QuestionMax(parse, qs[|qs| - 1].options)
  }

  /** `next((o for o in opts if o.id == option_id), None)` */
  function FindOption(opts: seq<OptionRow>, optionId: Option<int>): (r: Option<OptionRow>)
    ensures r.Some? ==> optionId.Some? && r.value in opts && r.value.id == optionId.value
    ensures r.None? ==> optionId.None? || forall j :: 0 <= j < |opts| ==> opts[j].id != optionId.value
  {
    if opts == [] || optionId.None? then None
    else if opts[0].id == optionId.value then Some(opts[0])
    else FindOption(opts[1..], optionId)
  }

  /** The option a question's answer names, if the question has an answer and the option
      is one of the question's own. */
  function Chosen(q: Question, answers: map<int, Answer>): Option<OptionRow> {
    if q.id in answers then FindOption(q.options, answers[q.id].optionId) else None
  }

  /** What one question adds to `per`: the chosen option's scales, or nothing. */
  function Contribution(parse: Parser, q: Question, answers: map<int, Answer>): Scales {
    match Chosen(q, answers)
      case None => []
      case Some(o) => ScalesOf(parse, o.value)
  }

  function PerScale(parse: Parser, qs: seq<Question>, answers: map<int, Answer>): Scales {
    if qs == [] then []
    else Merge(PerScale(parse, qs[..|qs| - 1], answers), Contribution(parse, qs[|qs| - 1], answers))
  }

  function Raw(parse: Parser, qs: seq<Question>, answers: map<int, Answer>): int {
    if qs == [] then 0
    else Raw(parse, qs[..|qs| - 1], answers) + Get(Contribution(parse, qs[|qs| - 1], answers), "TOTAL")
  }

  /** Every option value of every question parses without raising. */
  predicate AllParse(parse: Parser, qs: seq<Question>) {
    forall i :: 0 <= i < |qs| ==> AllReturned(OptionOutcomes(parse, qs[i].options))
  }

  /** The aggregator's result: it raises as soon as one option value raises (every option
      of every question is parsed for `max_score`), otherwise it returns the three totals. */
  function Aggregate(parse: Parser, qs: seq<Question>, answers: map<int, Answer>): Outcome<Totals> {
    if AllParse(parse, qs) then Returned(Totals(PerScale(parse, qs, answers), Raw(parse, qs, answers), MaxScore(parse, qs)))
    else Raised
  }

  /** `{a.question_id: a for a in answers}`: a later answer to the same question replaces an earlier one. */
  function IndexByQuestion(answers: seq<Answer>): (m: map<int, Answer>)
    ensures forall qid :: qid in m <==> exists i :: 0 <= i < |answers| && answers[i].questionId == qid
  {
    if answers == [] then map[]
    else
      var init := answers[..|answers| - 1];
      var last := answers[|answers| - 1];
      var m := IndexByQuestion(init)[last.questionId := last];
      assert forall i :: 0 <= i < |init| ==> init[i] == answers[i];
      m
  }

  // ---------------------------------------------------------------------------
  // The loops.

  /** One more option of a question: it parses or not, and its TOTAL joins the running maximum. */
  lemma ScanStep(parse: Parser, opts: seq<OptionRow>, j: nat)
    requires j < |opts|
    ensures AllReturned(OptionOutcomes(parse, opts[..j + 1])) <==>
      AllReturned(OptionOutcomes(parse, opts[..j])) && parse(opts[j].value).Returned?
    ensures QuestionMax(parse, opts[..j + 1]) ==
      var (m, t) := (QuestionMax(parse, opts[..j]), TotalOf(parse, opts[j].value)); if m >= t then m else t
  {
    var ts, ts1 := OptionTotals(parse, opts[..j]), OptionTotals(parse, opts[..j + 1]);
    assert ts1[..j] == ts;
    var os, os1 := OptionOutcomes(parse, opts[..j]), OptionOutcomes(parse, opts[..j + 1]);
    assert os1[..j] == os;
  }

  /** `max_q = max(max_q, parsed.get("TOTAL", 0))` over the options, raising with the parser. */
  method ScanOptions(parse: Parser, opts: seq<OptionRow>) returns (r: Outcome<int>)
    ensures r.Returned? <==> AllReturned(OptionOutcomes(parse, opts))
    ensures r.Returned? ==> r.value == QuestionMax(parse, opts)
  {
    var maxQ := 0;
    for j := 0 to |opts|
      invariant AllReturned(OptionOutcomes(parse, opts[..j]))
      invariant maxQ == QuestionMax(parse, opts[..j])
    {
      ScanStep(parse, opts, j);
      var parsed := parse(opts[j].value);
      if parsed.Raised? {
        ScanPrefixRaises(parse, opts, j + 1);
        return Raised;
      }
      var t := Get(parsed.value, "TOTAL");
      maxQ := if maxQ >= t then maxQ else t;
    }
    assert opts[..|opts|] == opts;
    return Returned(maxQ);
  }

  /** An option that raises makes every longer list of options raise. */
  lemma ScanPrefixRaises(parse: Parser, opts: seq<OptionRow>, k: nat)
    requires k <= |opts| && !AllReturned(OptionOutcomes(parse, opts[..k]))
    ensures !AllReturned(OptionOutcomes(parse, opts))
  {
    var j :| 0 <= j < k && !OptionOutcomes(parse, opts[..k])[j].Returned?;
    assert opts[..k][j] == opts[j];
    assert !OptionOutcomes(parse, opts)[j].Returned?;
  }

  /** `for code, pts in parsed.items(): per[code] = per.get(code, 0) + pts` */
  method MergeInto(per: Scales, parsed: Scales) returns (r: Scales)
    ensures r == Merge(per, parsed)
  {
    r := per;
    for k := 0 to |parsed|
      invariant r == Merge(per, parsed[..k])
    {
      assert parsed[..k + 1][..k] == parsed[..k];
      r := Add(r, parsed[k].0, parsed[k].1);
    }
    assert parsed[..|parsed|] == parsed;
  }

  /** One more question: whether all options parse, and what it adds to each total. */
  lemma QuestionStep(parse: Parser, qs: seq<Question>, answers: map<int, Answer>, i: nat)
    requires i < |qs|
    ensures AllParse(parse, qs[..i + 1]) <==> AllParse(parse, qs[..i]) && AllReturned(OptionOutcomes(parse, qs[i].options))
    ensures PerScale(parse, qs[..i + 1], answers) == Merge(PerScale(parse, qs[..i], answers), Contribution(parse, qs[i], answers))
    ensures Raw(parse, qs[..i + 1], answers) == Raw(parse, qs[..i], answers) + Get(Contribution(parse, qs[i], answers), "TOTAL")
    ensures MaxScore(parse, qs[..i + 1]) == MaxScore(parse, qs[..i]) + QuestionMax(parse, qs[i].options)
  {
    assert qs[..i + 1][..i] == qs[..i];
    assert forall j :: 0 <= j <= i ==> qs[..i + 1][j] == qs[j];
    assert forall j :: 0 <= j < i ==> qs[..i][j] == qs[j];
  }

  /** The same step for `_calc_raw_total`. */
  lemma RawFirstStep(parse: Parser, qs: seq<Question>, answers: seq<Answer>, i: nat)
    requires i < |qs|
    ensures RawFirst(parse, qs[..i + 1], answers) == RawFirst(parse, qs[..i], answers) + FirstAnswerTotal(parse, qs[i], answers)
  {
    assert qs[..i + 1][..i] == qs[..i];
  }

  /** A question with an option that raises makes the whole test raise. */
  lemma QuestionRaises(parse: Parser, qs: seq<Question>, i: nat)
    requires i < |qs| && !AllReturned(OptionOutcomes(parse, qs[i].options))
    ensures !AllParse(parse, qs)
  {
  }

  /** The chosen option of a question whose options all parse parses. */
  lemma ChosenParses(parse: Parser, q: Question, o: OptionRow)
    requires AllReturned(OptionOutcomes(parse, q.options)) && o in q.options
    ensures parse(o.value).Returned?
  {
    var j :| 0 <= j < |q.options| && q.options[j] == o;
    assert OptionOutcomes(parse, q.options)[j] == parse(o.value);
  }

  /** The answer part of one turn of the question loop: the chosen option's scales, or
      `None` where the loop `continue`s (no answer, or an option id the question lacks). */
  method ChosenScales(parse: Parser, q: Question, answers: map<int, Answer>) returns (c: Option<Scales>)
    requires AllReturned(OptionOutcomes(parse, q.options))
    ensures c.None? <==> Chosen(q, answers).None?
    ensures Contribution(parse, q, answers) == if c.Some? then c.value else []
  {
    if q.id !in answers {
      return None;
    }
    var chosen := FindOption(q.options, answers[q.id].optionId);
    if chosen.None? {
      return None;
    }
    ChosenParses(parse, q, chosen.value);
    var parsed := parse(chosen.value.value);
    return Some(parsed.value);
  }

  /** The question loop of `_calc_scales_and_totals`. */
  method CalcScalesAndTotals(parse: Parser, qs: seq<Question>, answers: map<int, Answer>) returns (r: Outcome<Totals>)
    ensures r == Aggregate(parse, qs, answers)
  {
    var per: Scales := [];
    var raw, maxScore := 0, 0;
    for i := 0 to |qs|
      invariant AllParse(parse, qs[..i])
      invariant per == PerScale(parse, qs[..i], answers)
      invariant raw == Raw(parse, qs[..i], answers)
      invariant maxScore == MaxScore(parse, qs[..i])
    {
      QuestionStep(parse, qs, answers, i);
      var maxQ := ScanOptions(parse, qs[i].options);
      if maxQ.Raised? {
        QuestionRaises(parse, qs, i);
        return Raised;
      }
      maxScore := maxScore + maxQ.value;
      var chosen := ChosenScales(parse, qs[i], answers);
      if chosen.None? {
        continue;
      }
      per := MergeInto(per, chosen.value);
      raw := raw + Get(chosen.value, "TOTAL");
    }
    assert qs[..|qs|] == qs;
    return Returned(Totals(per, raw, maxScore));
  }

  /** `next((a for a in answers if a.question_id == q.id), None)`: the earliest answer to a question. */
  function FirstAnswer(answers: seq<Answer>, qid: int): (r: Option<Answer>)
    ensures r.Some? ==> r.value in answers && r.value.questionId == qid
    ensures r.None? ==> forall i :: 0 <= i < |answers| ==> answers[i].questionId != qid
  {
    if answers == [] then None
    else if answers[0].questionId == qid then Some(answers[0])
    else FirstAnswer(answers[1..], qid)
  }

  /** What one question adds to `raw` in `_calc_raw_total`. */
  function FirstAnswerTotal(parse: Parser, q: Question, answers: seq<Answer>): int {
    match FirstAnswer(answers, q.id)
      case None => 0
      case Some(a) =>
        match FindOption(q.options, a.optionId)
          case None => 0
          case Some(o) => TotalOf(parse, o.value)
  }

  function RawFirst(parse: Parser, qs: seq<Question>, answers: seq<Answer>): int {
    if qs == [] then 0
    else RawFirst(parse, qs[..|qs| - 1], answers) + FirstAnswerTotal(parse, qs[|qs| - 1], answers)
  }

  /** `_calc_raw_total`: `raw` and `max_score` only, the answer of a question being the
      first one in the list. */
  method CalcRawTotal(parse: Parser, qs: seq<Question>, answers: seq<Answer>) returns (r: Outcome<(int, int)>)
    ensures r == if AllParse(parse, qs) then Returned((RawFirst(parse, qs, answers), MaxScore(parse, qs))) else Raised
  {
    var raw, maxScore := 0, 0;
    for i := 0 to |qs|
      invariant AllParse(parse, qs[..i])
      invariant raw == RawFirst(parse, qs[..i], answers)
      invariant maxScore == MaxScore(parse, qs[..i])
    {
      QuestionStep(parse, qs, map[], i);
      RawFirstStep(parse, qs, answers, i);
      var maxQ := ScanOptions(parse, qs[i].options);
      if maxQ.Raised? {
        QuestionRaises(parse, qs, i);
        return Raised;
      }
      maxScore := maxScore + maxQ.value;
      var t := FirstChosenTotal(parse, qs[i], answers);
      raw := raw + t;
    }
    assert qs[..|qs|] == qs;
    return Returned((raw, maxScore));
  }

  /** The answer part of one turn of `_calc_raw_total`'s loop: the TOTAL of the option the
      first answer to the question names, 0 when there is none. */
  method FirstChosenTotal(parse: Parser, q: Question, answers: seq<Answer>) returns (t: int)
    requires AllReturned(OptionOutcomes(parse, q.options))
    ensures t == FirstAnswerTotal(parse, q, answers)
  {
    t := 0;
    var ans := FirstAnswer(answers, q.id);
    if ans.Some? {
      var chosen := FindOption(q.options, ans.value.optionId);
      if chosen.Some? {
        ChosenParses(parse, q, chosen.value);
        var parsed := parse(chosen.value.value);
        t := Get(parsed.value, "TOTAL");
      }
    }
  }

  // ---------------------------------------------------------------------------
  // What the totals are.

  /** Every map the parser returns has distinct keys. */
  ghost predicate WellFormed(parse: Parser) {
    forall val :: parse(val).Returned? ==> DistinctKeys(parse(val).value)
  }

  lemma RegexCopyWellFormed()
    ensures WellFormed(RegexCopy)
    ensures forall val :: RegexCopy(val).Returned?
  {
    forall val ensures DistinctKeys(RegexCopy(val).value) {
      RegexParser.ParseWellFormed(val);
    }
  }

  lemma SplitCopyWellFormed()
    ensures WellFormed(SplitCopy)
  {
    forall val | SplitCopy(val).Returned? ensures DistinctKeys(SplitCopy(val).value) {
      SplitParser.ParseDistinct(val);
    }
  }

  /** The regex copy never raises, so neither does an aggregator that calls it. */
  lemma RegexCopyNeverRaises(qs: seq<Question>, answers: map<int, Answer>)
    ensures Aggregate(RegexCopy, qs, answers).Returned?
  {
    forall i | 0 <= i < |qs| ensures AllReturned(OptionOutcomes(RegexCopy, qs[i].options)) {
      var os := OptionOutcomes(RegexCopy, qs[i].options);
      forall j | 0 <= j < |os| ensures os[j].Returned? {
        assert os[j] == RegexCopy(qs[i].options[j].value);
      }
    }
  }

  /** The sum over questions of the points each adds to scale `k`. */
  function PointsFor(parse: Parser, qs: seq<Question>, answers: map<int, Answer>, k: string): int {
    if qs == [] then 0
    else PointsFor(parse, qs[..|qs| - 1], answers, k) + Get(Contribution(parse, qs[|qs| - 1], answers), k)
  }

  lemma ContributionDistinct(parse: Parser, q: Question, answers: map<int, Answer>)
    requires WellFormed(parse)
    ensures DistinctKeys(Contribution(parse, q, answers))
  {
  }

  /** Every scale total is the sum of what the answered questions' chosen options give it. */
  lemma {:induction false} PerScaleGet(parse: Parser, qs: seq<Question>, answers: map<int, Answer>, k: string)
    requires WellFormed(parse)
    ensures Get(PerScale(parse, qs, answers), k) == PointsFor(parse, qs, answers, k)
  {
    if qs != [] {
      var c := Contribution(parse, qs[|qs| - 1], answers);
      PerScaleGet(parse, qs[..|qs| - 1], answers, k);
      MergeGet(PerScale(parse, qs[..|qs| - 1], answers), c, k);
      ContributionDistinct(parse, qs[|qs| - 1], answers);
      SumForDistinct(c, k);
    }
  }

  /** `raw` is always `per.get("TOTAL", 0)`. */
  lemma {:induction false} RawIsTotal(parse: Parser, qs: seq<Question>, answers: map<int, Answer>)
    requires WellFormed(parse)
    ensures Raw(parse, qs, answers) == Get(PerScale(parse, qs, answers), "TOTAL")
  {
    PerScaleGet(parse, qs, answers, "TOTAL");
    RawIsPoints(parse, qs, answers);
  }

  lemma {:induction false} RawIsPoints(parse: Parser, qs: seq<Question>, answers: map<int, Answer>)
    ensures Raw(parse, qs, answers) == PointsFor(parse, qs, answers, "TOTAL")
  {
    if qs != [] {
      RawIsPoints(parse, qs[..|qs| - 1], answers);
    }
  }

  /** A question without an answer, or whose answer names an option it does not have,
      changes neither `per` nor `raw`. */
  lemma UnansweredAddsNothing(parse: Parser, qs: seq<Question>, q: Question, answers: map<int, Answer>)
    requires q.id !in answers || FindOption(q.options, answers[q.id].optionId).None?
    ensures PerScale(parse, qs + [q], answers) == PerScale(parse, qs, answers)
    ensures Raw(parse, qs + [q], answers) == Raw(parse, qs, answers)
  {
    assert (qs + [q])[..|qs|] == qs;
  }

  /** With no answers at all, `per` is empty and `raw` is 0. */
  lemma {:induction false} NoAnswers(parse: Parser, qs: seq<Question>)
    ensures PerScale(parse, qs, map[]) == []
    ensures Raw(parse, qs, map[]) == 0
  {
    if qs != [] {
      NoAnswers(parse, qs[..|qs| - 1]);
    }
  }

  /** `max_score` and whether the aggregator raises do not depend on the answers. */
  lemma MaxScoreIgnoresAnswers(parse: Parser, qs: seq<Question>, a1: map<int, Answer>, a2: map<int, Answer>)
    ensures Aggregate(parse, qs, a1).Raised? <==> Aggregate(parse, qs, a2).Raised?
    ensures Aggregate(parse, qs, a1).Returned? ==>
      Aggregate(parse, qs, a1).value.maxScore == Aggregate(parse, qs, a2).value.maxScore >= 0
  {
  }

  /** A chosen option's TOTAL never exceeds its question's best. */
  lemma OptionAtMostMax(parse: Parser, opts: seq<OptionRow>, o: OptionRow)
    requires o in opts
    ensures TotalOf(parse, o.value) <= QuestionMax(parse, opts)
  {
    var j :| 0 <= j < |opts| && opts[j] == o;
    assert OptionTotals(parse, opts)[j] == TotalOf(parse, o.value);
  }

  /** `raw` never exceeds `max_score` (it can be negative when options carry negative TOTALs). */
  lemma {:induction false} RawAtMostMax(parse: Parser, qs: seq<Question>, answers: map<int, Answer>)
    ensures Raw(parse, qs, answers) <= MaxScore(parse, qs)
  {
    if qs != [] {
      RawAtMostMax(parse, qs[..|qs| - 1], answers);
      var q := qs[|qs| - 1];
      match Chosen(q, answers) {
        case None =>
        case Some(o) => OptionAtMostMax(parse, q.options, o);
      }
    }
  }

  /** The same bound for `_calc_raw_total`. */
  lemma {:induction false} RawFirstAtMostMax(parse: Parser, qs: seq<Question>, answers: seq<Answer>)
    ensures RawFirst(parse, qs, answers) <= MaxScore(parse, qs)
  {
    if qs != [] {
      RawFirstAtMostMax(parse, qs[..|qs| - 1], answers);
      var q := qs[|qs| - 1];
      match FirstAnswer(answers, q.id) {
        case None =>
        case Some(a) =>
          match FindOption(q.options, a.optionId) {
            case None =>
            case Some(o) => OptionAtMostMax(parse, q.options, o);
          }
      }
    }
  }

  /** When no question has two answers, `_calc_raw_total` (first answer wins) and
      `_calc_scales_and_totals` over `{a.question_id: a}` (last answer wins) agree on `raw`. */
  lemma {:induction false} RawFirstAgrees(parse: Parser, qs: seq<Question>, answers: seq<Answer>)
    requires forall i, j :: 0 <= i < j < |answers| ==> answers[i].questionId != answers[j].questionId
    ensures RawFirst(parse, qs, answers) == Raw(parse, qs, IndexByQuestion(answers))
  {
    if qs != [] {
      RawFirstAgrees(parse, qs[..|qs| - 1], answers);
      var q := qs[|qs| - 1];
      var m := IndexByQuestion(answers);
      match FirstAnswer(answers, q.id) {
        case None =>
        case Some(a) =>
          var i :| 0 <= i < |answers| && answers[i] == a;
          IndexUnique(answers, i);
      }
    }
  }

  /** With distinct question ids, the index maps each answer's question to that answer. */
  lemma {:induction false} IndexUnique(answers: seq<Answer>, i: nat)
    requires i < |answers|
    requires forall i, j :: 0 <= i < j < |answers| ==> answers[i].questionId != answers[j].questionId
    ensures IndexByQuestion(answers)[answers[i].questionId] == answers[i]
  {
    if i < |answers| - 1 {
      var init := answers[..|answers| - 1];
      assert init[i] == answers[i];
      IndexUnique(init, i);
    }
  }

  /** Two answers to one question: `_calc_raw_total` scores the first, `_calc_scales_and_totals`
      the second. */
  lemma DuplicateAnswersDiffer(parse: Parser, q: Question, o1: OptionRow, o2: OptionRow)
    requires q.options == [o1, o2] && o1.id != o2.id
    ensures var answers := [Answer(q.id, Some(o1.id)), Answer(q.id, Some(o2.id))];
      && RawFirst(parse, [q], answers) == TotalOf(parse, o1.value)
      && Raw(parse, [q], IndexByQuestion(answers)) == TotalOf(parse, o2.value)
  {
    var answers := [Answer(q.id, Some(o1.id)), Answer(q.id, Some(o2.id))];
    assert [q][..0] == [];
    assert answers[..1][..0] == [];
    var m := IndexByQuestion(answers);
    assert m[q.id] == answers[1];
    assert q.options[1..] == [o2];
    assert FindOption(q.options, Some(o2.id)) == Some(o2);
    assert Contribution(parse, q, m) == ScalesOf(parse, o2.value);
  }
}
