/** blueprints/tests/__init__.py: the MBTI result page (`_compute_mbti`), the
    navigation decision after an answer, the progress bar and the completion
    score written when an attempt is finished. */
module TestsFlow {
  import opened Text
  import opened Bands
  import opened Dichotomies

  // ---------------------------------------------------------------------------
  // _compute_mbti, part 1: the letters the chosen options name.

  /** The keys of `counts` and `totals`. */
  const LetterKeys: set<char> := {'E', 'I', 'S', 'N', 'T', 'F', 'J', 'P'}

  /** `(v or "").strip().upper()` */
  function Norm(v: Option<string>): string {
    Upper(Strip(if v.Some? then v.value else ""))
  }

  /** The letter a chosen option counts for: its normalised value when that is one of the
      eight `counts` keys. */
  function Named(v: Option<string>): Option<char> {
    var n := Norm(v);
    if |n| == 1 && n[0] in LetterKeys then Some(n[0]) else None
  }

  /** The result page and the interpretation routines read a value as the same letter. */
  lemma NamedIsLetterOf(v: Option<string>)
    ensures Named(v) == LetterOf(Strip(if v.Some? then v.value else ""))
  {
    var n := Norm(v);
    LetterOfUpper(Strip(if v.Some? then v.value else ""));
    if |n| == 1 {
      assert n[0] in LetterKeys <==> n[0] in Letters;
    }
  }

  /** How many chosen options count for `c`. */
  function Occurrences(rows: seq<Option<string>>, c: char): nat {
    if rows == [] then 0
    else Occurrences(rows[..|rows| - 1], c) + (if Named(rows[|rows| - 1]) == Some(c) then 1 else 0)
  }

  /** `counts`: the eight letters, each with the number of chosen options naming it. */
  function Tally(rows: seq<Option<string>>): map<char, int> {
    map c | c in LetterKeys :: Occurrences(rows, c)
  }

  /** How many chosen options name any of the eight letters. */
  function Matched(rows: seq<Option<string>>): nat {
    if rows == [] then 0
    else Matched(rows[..|rows| - 1]) + (if Named(rows[|rows| - 1]).Some? then 1 else 0)
  }

  function LetterSum(m: map<char, int>): int {
    Count(m, 'E') + Count(m, 'I') + Count(m, 'S') + Count(m, 'N')
      + Count(m, 'T') + Count(m, 'F') + Count(m, 'J') + Count(m, 'P')
  }

  lemma TallyCount(rows: seq<Option<string>>, c: char)
    requires c in LetterKeys
    ensures Count(Tally(rows), c) == Occurrences(rows, c)
  {
  }

  function OccurrenceSum(rows: seq<Option<string>>): int {
    Occurrences(rows, 'E') + Occurrences(rows, 'I') + Occurrences(rows, 'S') + Occurrences(rows, 'N')
      + Occurrences(rows, 'T') + Occurrences(rows, 'F') + Occurrences(rows, 'J') + Occurrences(rows, 'P')
  }

  lemma {:induction false} OccurrenceSumMatched(rows: seq<Option<string>>)
    ensures OccurrenceSum(rows) == Matched(rows) <= |rows|
  {
    if rows != [] {
      OccurrenceSumMatched(rows[..|rows| - 1]);
      var n := Named(rows[|rows| - 1]);
      assert n.Some? ==> n.value in LetterKeys;
    }
  }

  /** Every chosen option counts for at most one letter: the counts add up to the number of
      options that name a letter, which is at most the number of answers. */
  lemma TallySum(rows: seq<Option<string>>)
    ensures LetterSum(Tally(rows)) == Matched(rows) <= |rows|
  {
    OccurrenceSumMatched(rows);
    TallyCount(rows, 'E'); TallyCount(rows, 'I'); TallyCount(rows, 'S'); TallyCount(rows, 'N');
    TallyCount(rows, 'T'); TallyCount(rows, 'F'); TallyCount(rows, 'J'); TallyCount(rows, 'P');
  }

  // ---------------------------------------------------------------------------
  // _compute_mbti, part 2: how often each letter is offered.

  /** `[(o.value or "").strip().upper() for o in options]` */
  function NormAll(options: seq<Option<string>>): (vals: seq<string>)
    ensures |vals| == |options| && forall i :: 0 <= i < |options| ==> vals[i] == Norm(options[i])
  {
    seq(|options|, i requires 0 <= i < |options| => Norm(options[i]))
  }

  /** The first pair, from pair `k` on, with a letter among the values. */
  function FirstPairFrom(vals: seq<string>, k: nat): (r: Option<nat>)
    requires k <= |Pairs|
    ensures r.Some? ==> k <= r.value < |Pairs|
    decreases |Pairs| - k
  {
    if k == |Pairs| then None
    else if [Pairs[k].0] in vals || [Pairs[k].1] in vals then Some(k)
    else FirstPairFrom(vals, k + 1)
  }

  function FirstPair(vals: seq<string>): Option<nat> { FirstPairFrom(vals, 0) }

  /** Whether a question with these normalised option values adds one to the total of `c`:
      `c` is one of the values and belongs to the first pair any value belongs to. */
  predicate CreditedBy(vals: seq<string>, c: char) {
    match FirstPair(vals)
      case None => false
      case Some(k) => (c == Pairs[k].0 || c == Pairs[k].1) && [c] in vals
  }

  predicate Credits(options: seq<Option<string>>, c: char) { CreditedBy(NormAll(options), c) }

  function Representation(questions: seq<seq<Option<string>>>, c: char): nat {
    if questions == [] then 0
    else Representation(questions[..|questions| - 1], c) + (if Credits(questions[|questions| - 1], c) then 1 else 0)
  }

  /** `totals`: the eight letters, each with the number of questions crediting it. */
  function Totals(questions: seq<seq<Option<string>>>): map<char, int> {
    map c | c in LetterKeys :: Representation(questions, c)
  }

  /** The first pair is the earliest pair present. */
  lemma {:induction false} FirstPairFromSpec(vals: seq<string>, k: nat, j: nat)
    requires k <= j < |Pairs|
    ensures FirstPairFrom(vals, k) == Some(j) <==>
      && ([Pairs[j].0] in vals || [Pairs[j].1] in vals)
      && forall i :: k <= i < j ==> [Pairs[i].0] !in vals && [Pairs[i].1] !in vals
    decreases j - k
  {
    if k < j && !([Pairs[k].0] in vals || [Pairs[k].1] in vals) {
      FirstPairFromSpec(vals, k + 1, j);
    }
  }

  /** A question credits one pair only: the letters it credits belong to a single pair, and it
      credits some letter exactly when a letter of some pair is among its values. */
  lemma QuestionCreditsOnePair(vals: seq<string>)
    ensures exists k :: 0 <= k < |Pairs| && forall c :: CreditedBy(vals, c) ==> c == Pairs[k].0 || c == Pairs[k].1
    ensures (exists c :: CreditedBy(vals, c)) <==>
      exists j :: 0 <= j < |Pairs| && ([Pairs[j].0] in vals || [Pairs[j].1] in vals)
  {
    match FirstPair(vals)
      case None =>
        if exists j :: 0 <= j < |Pairs| && ([Pairs[j].0] in vals || [Pairs[j].1] in vals) {
          var j :| 0 <= j < |Pairs| && ([Pairs[j].0] in vals || [Pairs[j].1] in vals);
          FirstPairWitness(vals, j);
        }
        assert forall c :: !CreditedBy(vals, c);
        assert forall c :: CreditedBy(vals, c) ==> c == Pairs[0].0 || c == Pairs[0].1;
      case Some(k) =>
        assert forall c :: CreditedBy(vals, c) ==> c == Pairs[k].0 || c == Pairs[k].1;
        if [Pairs[k].0] in vals {
          assert CreditedBy(vals, Pairs[k].0);
        } else {
          assert CreditedBy(vals, Pairs[k].1);
        }
  }

  /** When pair `j` is present some pair is found. */
  lemma FirstPairWitness(vals: seq<string>, j: nat)
    requires j < |Pairs| && ([Pairs[j].0] in vals || [Pairs[j].1] in vals)
    ensures FirstPair(vals).Some?
  {
    var k := 0;
    while k < j && !([Pairs[k].0] in vals || [Pairs[k].1] in vals)
      invariant k <= j
      invariant forall i :: 0 <= i < k ==> [Pairs[i].0] !in vals && [Pairs[i].1] !in vals
    {
      k := k + 1;
    }
    FirstPairFromSpec(vals, 0, k);
  }

  // ---------------------------------------------------------------------------
  // _compute_mbti, part 3: percentages within each pair.

  /** `pct[a], pct[b]`: both 0 when neither letter was chosen, otherwise the rounded share
      of `a` and its complement to 100. */
  function PairPct(counts: map<char, int>, a: char, b: char): (int, int) {
    var total := Count(counts, a) + Count(counts, b);
    if total == 0 then (0, 0)
    else
      var p := RoundPercent(Count(counts, a), total);
      (p, 100 - p)
  }

  /** `pct` after the first `k` pairs. */
  function PercentsUpTo(counts: map<char, int>, k: nat): map<char, int>
    requires k <= |Pairs|
  {
    if k == 0 then map[]
    else
      var (a, b) := Pairs[k - 1];
      var (pa, pb) := PairPct(counts, a, b);
      PercentsUpTo(counts, k - 1)[a := pa][b := pb]
  }

  function Percents(counts: map<char, int>): map<char, int> { PercentsUpTo(counts, |Pairs|) }

  lemma {:induction false} PercentsAt(counts: map<char, int>, k: nat, i: nat)
    requires i < k <= |Pairs|
    ensures Pairs[i].0 in PercentsUpTo(counts, k) && Pairs[i].1 in PercentsUpTo(counts, k)
    ensures PercentsUpTo(counts, k)[Pairs[i].0] == PairPct(counts, Pairs[i].0, Pairs[i].1).0
    ensures PercentsUpTo(counts, k)[Pairs[i].1] == PairPct(counts, Pairs[i].0, Pairs[i].1).1
  {
    if i < k - 1 {
      PercentsAt(counts, k - 1, i);
    }
  }

  /** The two shares of a pair: both 0 without answers, otherwise two percentages adding up
      to 100, the larger count's share at least 50. */
  lemma PairPctShape(counts: map<char, int>, a: char, b: char)
    requires 0 <= Count(counts, a) && 0 <= Count(counts, b)
    ensures var (pa, pb) := PairPct(counts, a, b);
      var (ca, cb) := (Count(counts, a), Count(counts, b));
      && (ca + cb == 0 ==> pa == 0 && pb == 0)
      && (ca + cb != 0 ==> pa + pb == 100 && 0 <= pa <= 100 && 0 <= pb <= 100)
      && (ca + cb != 0 && ca >= cb ==> pa >= 50)
      && (ca + cb != 0 && ca < cb ==> pb >= 50)
  {
    var ca, cb := Count(counts, a), Count(counts, b);
    if ca + cb != 0 {
      RoundPercentBounds(ca, ca + cb);
      RoundPercentHalf(ca, ca + cb);
    }
  }

  /** `pct` holds both letters of every pair; their shares are both 0 when neither was
      chosen, otherwise they add up to 100, and the letter the type code takes from the pair
      has a share of at least 50. */
  lemma PercentsShape(counts: map<char, int>, i: nat)
    requires i < |Pairs|
    requires 0 <= Count(counts, Pairs[i].0) && 0 <= Count(counts, Pairs[i].1)
    ensures var pct := Percents(counts);
      var (a, b) := Pairs[i];
      && a in pct && b in pct
      && (Count(counts, a) + Count(counts, b) == 0 ==> pct[a] == 0 && pct[b] == 0)
      && (Count(counts, a) + Count(counts, b) != 0 ==>
            && pct[a] + pct[b] == 100 && 0 <= pct[a] <= 100 && 0 <= pct[b] <= 100
            && pct[TypeCode(counts)[i]] >= 50)
  {
    var (a, b) := Pairs[i];
    PercentsAt(counts, |Pairs|, i);
    PairPctShape(counts, a, b);
    TypeCodeShape(counts);
  }

  // ---------------------------------------------------------------------------
  // _compute_mbti itself.

  /** `_compute_mbti` over the values of the options the attempt chose and, question by
      question, the values of every option offered. */
  method ComputeMbti(rows: seq<Option<string>>, questions: seq<seq<Option<string>>>)
    returns (counts: map<char, int>, totals: map<char, int>, pct: map<char, int>, code: string)
    ensures counts == Tally(rows)
    ensures totals == Totals(questions)
    ensures pct == Percents(counts)
    ensures code == TypeCode(counts)
  {
    counts := CountChosen(rows);
    totals := CountOffered(questions);
    pct := PairPercents(counts);
    code := [Pick(counts, 'E', 'I'), Pick(counts, 'S', 'N'), Pick(counts, 'T', 'F'), Pick(counts, 'J', 'P')];
  }

  /** Step 1: one per chosen option naming a letter. */
  method CountChosen(rows: seq<Option<string>>) returns (counts: map<char, int>)
    ensures counts == Tally(rows)
  {
    counts := map c | c in LetterKeys :: 0;
    for i := 0 to |rows|
      invariant counts.Keys == LetterKeys
      invariant forall c :: c in LetterKeys ==> counts[c] == Occurrences(rows[..i], c)
    {
      forall c | c in LetterKeys {
        OccurrencesStep(rows, i, c);
      }
      counts := CountOne(counts, rows[i]);
    }
    assert rows[..|rows|] == rows;
    TallyEq(rows, counts);
  }

  /** The body of the first loop: `if v in counts: counts[v] += 1` for the normalised value `v`. */
  method CountOne(counts: map<char, int>, row: Option<string>) returns (next: map<char, int>)
    requires counts.Keys == LetterKeys
    ensures next.Keys == LetterKeys
    ensures forall c :: c in LetterKeys ==> next[c] == counts[c] + (if Named(row) == Some(c) then 1 else 0)
  {
    next := counts;
    match Named(row)
    case Some(l) =>
      next := counts[l := counts[l] + 1];
    case None =>
  }

  /** Step 2: per question, the letters of the first pair present. */
  method CountOffered(questions: seq<seq<Option<string>>>) returns (totals: map<char, int>)
    ensures totals == Totals(questions)
  {
    totals := map c | c in LetterKeys :: 0;
    for qi := 0 to |questions|
      invariant totals == Totals(questions[..qi])
    {
      var vals := NormAll(questions[qi]);
      var t := CreditQuestion(totals, vals);
      TotalsStep(questions, qi, t);
      totals := t;
    }
    assert questions[..|questions|] == questions;
  }

  /** Step 3: the shares within each pair. */
  method PairPercents(counts: map<char, int>) returns (pct: map<char, int>)
    requires LetterKeys <= counts.Keys
    ensures pct == Percents(counts)
  {
    pct := map[];
    for k := 0 to |Pairs|
      invariant pct == PercentsUpTo(counts, k)
    {
      var (a, b) := Pairs[k];
      var pairTotal := counts[a] + counts[b];
      if pairTotal == 0 {
        pct := pct[a := 0][b := 0];
      } else {
        var pa := RoundHalfEven(100 * counts[a], pairTotal);
        pct := pct[a := pa][b := 100 - pa];
      }
    }
  }

  lemma OccurrencesStep(rows: seq<Option<string>>, i: nat, c: char)
    requires i < |rows|
    ensures Occurrences(rows[..i + 1], c) == Occurrences(rows[..i], c) + (if Named(rows[i]) == Some(c) then 1 else 0)
  {
    assert rows[..i + 1][..i] == rows[..i];
  }

  /** A map with the eight letters, each holding its number of occurrences, is `Tally`. */
  lemma TallyEq(rows: seq<Option<string>>, m: map<char, int>)
    requires m.Keys == LetterKeys && forall c :: c in LetterKeys ==> m[c] == Occurrences(rows, c)
    ensures m == Tally(rows)
  {
  }

  /** The pair loop of one question: the first pair with a letter among the values credits
      the letters of it that are present, then the loop stops. */
  method CreditQuestion(totals: map<char, int>, vals: seq<string>) returns (t: map<char, int>)
    requires forall i :: 0 <= i < |Pairs| ==> Pairs[i].0 in totals && Pairs[i].1 in totals
    ensures t.Keys == totals.Keys
    ensures forall c :: c in t ==> t[c] == totals[c] + (if CreditedBy(vals, c) then 1 else 0)
  {
    t := totals;
    var k := 0;
    while k < |Pairs|
      invariant k <= |Pairs| && t == totals
      invariant FirstPairFrom(vals, k) == FirstPair(vals)
    {
      var (a, b) := Pairs[k];
      if [a] in vals || [b] in vals {
        if [a] in vals {
          t := t[a := t[a] + 1];
        }
        if [b] in vals {
          t := t[b := t[b] + 1];
        }
        return;
      }
      k := k + 1;
    }
  }

  lemma TotalsStep(questions: seq<seq<Option<string>>>, qi: nat, t: map<char, int>)
    requires qi < |questions|
    requires t.Keys == Totals(questions[..qi]).Keys
    requires forall c :: c in t ==> t[c] == Totals(questions[..qi])[c] + (if Credits(questions[qi], c) then 1 else 0)
    ensures t == Totals(questions[..qi + 1])
  {
    var next := Totals(questions[..qi + 1]);
    forall c | c in LetterKeys
      ensures t[c] == next[c]
    {
      RepresentationStep(questions, qi, c);
    }
    assert t.Keys == next.Keys;
  }

  lemma RepresentationStep(questions: seq<seq<Option<string>>>, qi: nat, c: char)
    requires qi < |questions|
    ensures Representation(questions[..qi + 1], c)
      == Representation(questions[..qi], c) + (if Credits(questions[qi], c) then 1 else 0)
  {
    assert questions[..qi + 1][..qi] == questions[..qi];
  }

  // ---------------------------------------------------------------------------
  // Navigation, progress and the completion score.

  /** Where `answer` redirects: another question (by its order) or the finish page. */
  datatype Next = TakeQuestion(order: int) | Finish

  /** `nav = (form nav or "next").lower()`, `order = form order or 1`, then: "prev" goes one
      question back (not below 1); "finish" or the last question goes to the finish page;
      anything else goes one question forward (not beyond `total`). */
  function NextStep(nav: Option<string>, order: Option<int>, total: int): Next {
    var n := Lower(if nav.Some? && nav.value != "" then nav.value else "next");
    var o := if order.Some? && order.value != 0 then order.value else 1;
    if n == "prev" then TakeQuestion(if o - 1 > 1 then o - 1 else 1)
    else if n == "finish" || o >= total then Finish
    else TakeQuestion(if total < o + 1 then total else o + 1)
  }

  /** "prev" always stays on a question, at least the first; the finish page is reached
      exactly on "finish" or from the last question onward; any other step goes to the next
      question, whose order never exceeds `total` (so the cap never binds). */
  lemma NextStepCases(nav: Option<string>, order: Option<int>, total: int)
    ensures var n := Lower(if nav.Some? && nav.value != "" then nav.value else "next");
      var o := if order.Some? && order.value != 0 then order.value else 1;
      var r := NextStep(nav, order, total);
      && (n == "prev" ==> r.TakeQuestion? && r.order >= 1 && (o >= 2 ==> r.order == o - 1))
      && (n != "prev" ==> (r == Finish <==> n == "finish" || o >= total))
      && (r.TakeQuestion? && n != "prev" ==> r.order == o + 1 <= total)
  {
  }

  /** The navigation word is read without regard to case, a missing word means "next", and a
      missing order means the first question. */
  lemma NextStepDefaults(total: int)
    ensures NextStep(Some("FINISH"), Some(1), total) == Finish
    ensures NextStep(None, None, total) == NextStep(Some("next"), Some(1), total)
    ensures NextStep(Some("Prev"), Some(0), total) == TakeQuestion(1)
  {
    assert Lower("FINISH") == "finish";
    assert Lower("Prev") == "prev";
  }

  /** `int(100 * answered / total) if total else 0`, the progress bar of `take`. */
  function Progress(answered: int, total: int): int {
    Percent(answered, total)
  }

  /** `round(100 * answered / total_q) if total_q else 0`, the score `finish` computes. It is
      only assigned when the attempt has a `score` attribute, and the `TestAttempt` model
      (models.py) has no such column, so as the repository stands it is never stored. */
  function CompletionScore(answered: int, totalQ: int): int {
    RoundPercent(answered, totalQ)
  }

  /** No questions give 0; otherwise the score is a percentage, and 100 once every question
      is answered. */
  lemma CompletionScoreBounds(answered: int, totalQ: int)
    ensures totalQ == 0 ==> CompletionScore(answered, totalQ) == 0
    ensures 0 <= answered <= totalQ ==> 0 <= CompletionScore(answered, totalQ) <= 100
    ensures 0 < answered == totalQ ==> CompletionScore(answered, totalQ) == 100
  {
    if 0 <= totalQ && answered <= totalQ {
      RoundPercentBounds(answered, totalQ);
    }
    if 0 < answered == totalQ {
      RoundPercentWhole(totalQ);
    }
  }

  /** The completion score rounds the same fraction the progress bar truncates, so for a
      non-negative count it is the progress or one more. */
  lemma ScoreRoundsProgress(answered: int, total: int)
    requires 0 <= answered && 0 < total
    ensures Progress(answered, total) <= CompletionScore(answered, total) <= Progress(answered, total) + 1
  {
    RoundNearTrunc(100 * answered, total);
  }
}
