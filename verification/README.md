# Test scoring and interpretation in oi-orda-kz

oi-orda-kz is a school guidance platform. Students take psychological and career tests
(MBTI, Holland RIASEC, Klimov, KOS-2, Bennett, CDI and a few scale-based tests). Each
answer option carries a text value such as `E`, `3` or `COMM=2; ORG=1`. This project models
in Dafny how the platform turns those values into results:

- how a value is parsed into per-scale points;
- how the chosen options of an attempt add up to `per`, `raw` and `max_score`;
- how each test's totals become a short interpretation (student page, psychologist page,
  one-line digest for the assistant);
- the MBTI result page of the test runner, the navigation decision after each answer, the
  progress bar and the completion score;
- the CDI risk banding and class tally of the psychologist dashboard, the name shown for a
  user, and the file-name check of the admin import.

The repository holds three copies of the option parser. `blueprints/student.py` and
`blueprints/psych.py` share one regex-based text, modelled once (`RegexParser`).
`services/analysis.py` has a split-based copy (`SplitParser`), which reads some values
differently and can raise. `CompareParsers` proves that the two agree on the leading cases
and on every value made of `code = ±digits` entries joined by `;` or `,`, and gives a family
of inputs for each way they differ. The aggregator (`Aggregate`) is one method, parameterised by the
parser copy it calls. A raised exception is a value of `Outcome`, never a precondition.

Interpretations are modelled as structure: which bullets, in which order, with which
numbers and bands. The localised wording is not modelled. Python dicts are association
lists in insertion order (`Scales`). `sorted(..., key=-v)` is a stable insertion sort
(`SortDesc`). `int(a / b)` truncates toward zero (`TruncDiv`), and `round` rounds half to
even (`RoundHalfEven`).

Modules, one per file: `Text` (text.dfy), `Scales` (scales.dfy), `RegexParser`,
`SplitParser`, `CompareParsers`, `Aggregate`, `Dichotomies`, `Bands`, `Rankings`,
`Student`, `Psych`, `Analysis`, `TestsFlow` (tests_flow.dfy) and `Admin`.

## Model

| member | source | states |
|---|---|---|
| Text.Strip | services/analysis.py:12 | `str.strip()`: the result neither starts nor ends with a character Python's `isspace` accepts |
| Text.Upper | blueprints/psych.py:419 | `str.upper()` never shortens; without a ß it keeps the length and upper-cases character by character; no character of the result changes when upper-cased again |
| Text.UpperIdempotent | blueprints/psych.py:419 | upper-casing twice is upper-casing once |
| Text.UpperLatin1Specials | blueprints/psych.py:419 | ß becomes "SS", ÿ becomes Ÿ and µ the Greek capital mu |
| Text.CaseFold | blueprints/student.py:443 | on cased letters, the upper case of the lower case is the upper case, and the other way round |
| Text.Lower | blueprints/student.py:443 | `str.lower()` keeps the length, lower-cases character by character, and leaves nothing a second lowering would change |
| Text.LowerIdempotent | blueprints/student.py:443 | lower-casing twice is lower-casing once |
| Text.SplitSeparators | blueprints/student.py:387 | `re.split(r"[;,]", s)` gives at least one token, and no token contains `;` or `,` |
| Text.SplitJoin | blueprints/student.py:387 | one token more than `s` has separators, and joining the tokens with those separators gives `s` back |
| Text.SplitRejoin | services/analysis.py:24 | separator-free tokens joined by `;` or `,` split back into the same tokens |
| Text.SplitNoSeparator | services/analysis.py:24 | a value without `;` or `,` is a single token |
| Text.PyInt | services/analysis.py:31 | `int(text)` succeeds only when the stripped text is an optional sign or a digit, then digits and `_`, ending in a digit; the value is negative only after a minus and never positive after one |
| Text.PyIntSigned | blueprints/student.py:394 | a sign and a run of digits read as the signed decimal value |
| Text.PyIntPadded | services/analysis.py:31 | spaces before a signed run of digits are ignored |
| Text.PyIntUnderscore | services/analysis.py:31 | an underscore between two runs of digits is ignored |
| Text.PyIntRoundTrip | services/analysis.py:31 | `int(str(n)) == n` for every integer |
| Text.PyIntDigits | blueprints/student.py:385 | `int` reads a run of ASCII digits as its decimal value |
| Scales.Add | blueprints/student.py:395 | `d[k] = d.get(k, 0) + pts`: only `k` changes, by `pts`; an existing key keeps its place, a new key goes last |
| Scales.MergeGet | blueprints/student.py:436-437 | merging a parsed map adds, key by key, the points of every parsed entry |
| Scales.MergeDistinct | blueprints/student.py:436-437 | merging keeps the keys distinct |
| Scales.SortDescSorted | blueprints/student.py:501 | `sorted(per.items(), key=-v)` is non-increasing in value |
| Scales.SortDescStable | blueprints/student.py:501 | the sort is stable: entries with equal values keep their relative order |
| Scales.SortDescPermutation | blueprints/student.py:501 | the sort is a permutation of its input |
| Scales.SortDescHead | services/analysis.py:104-105 | the head of the sorted ranking is the entry `FirstMax` picks: the earliest one holding the largest value |
| Scales.FirstMax | services/analysis.py:105 | an entry of the list that no value exceeds, and no earlier entry reaches its value |
| Scales.FilterKeys | blueprints/student.py:468 | a filtering comprehension keeps exactly the entries whose key passes the filter |
| Scales.Prefix | services/analysis.py:148 | `s[:n]` and `.limit(n)` keep the first `min(n, len(s))` elements |
| RegexParser.ParseValue | blueprints/student.py:376-396 | the loop over tokens builds the map the parser specification gives |
| RegexParser.AccumulateTokens | blueprints/student.py:386-396 | the token loop ends with the map whose sums and well-formedness `ParseSumsTokens` and `ParseWellFormed` state |
| RegexParser.ParseLeadingCases | blueprints/student.py:377-385 | `None` or blank gives `{}`; one MBTI letter in either case gives `{LETTER: 1}`; a whole `-?\d+` gives `{TOTAL: n}` |
| RegexParser.ParseSumsTokens | blueprints/student.py:386-396 | each code's points are the sum over all tokens naming it; tokens that do not match add nothing |
| RegexParser.ParseWellFormed | blueprints/student.py:391-395 | keys are distinct, and each is TOTAL, an MBTI letter or a non-empty upper-cased code |
| RegexParser.MatchToken | blueprints/student.py:391-394 | a matched token yields a code of upper-case letters or `_` |
| RegexParser.ReadPointsParts | blueprints/student.py:391 | after the code, spaces, an optional `=`, spaces, an optional sign and digits read as the signed number |
| RegexParser.MatchTokenComplete | blueprints/student.py:391-394 | every token made of code letters, spaces, an optional `=`, spaces, an optional sign and a maximal run of digits, followed by anything, matches with its upper-cased code and signed number |
| RegexParser.MatchTokenSound | blueprints/student.py:391-394 | every match comes from such a decomposition of the token, with that code and number |
| RegexParser.MatchTokenNone | blueprints/student.py:391-394 | no match exactly when the token has no such decomposition |
| SplitParser.ParseValue | services/analysis.py:9-35 | the split copy, raising exactly where `int()` raises |
| SplitParser.AccumulateTokens | services/analysis.py:24-34 | the token loop builds the map the specification gives |
| SplitParser.FindEq | services/analysis.py:28 | `token.split("=", 1)` cuts at the first `=` |
| SplitParser.RaisesIff | services/analysis.py:20-21 | the split copy raises exactly on two or more dashes followed by digits |
| SplitParser.ParseLeadingCases | services/analysis.py:10-21 | `None` or blank gives `{}`; one MBTI letter gives `{LETTER: 1}`; digits after at most one dash give `{TOTAL: n}` |
| SplitParser.NoEqIgnored | services/analysis.py:27 | a token without `=` never changes the map |
| SplitParser.ParseSumsEqTokens | services/analysis.py:23-35 | each code's points are the sum over the `=` tokens naming it |
| SplitParser.ParseDistinct | services/analysis.py:9-35 | every map returned has distinct keys |
| CompareParsers.LeadingCasesAgree | services/analysis.py:9-21 | on nothing, blank, one letter or an integer with at most one minus, both copies agree |
| CompareParsers.EqTokenOfEntry | services/analysis.py:27-34 | the split copy reads `code = ±digits` as the upper-cased code and the signed number, as the regex copy does |
| CompareParsers.ItemStepsAgree | services/analysis.py:24-34 | on such an entry with spaces around it, both token steps add the same code and points |
| CompareParsers.ItemsAgree | services/analysis.py:9-35 | a value of such entries joined by `;` or `,` (`COMM=2; ORG=1`, `comm = 2, TOTAL=-3`) gives the same map in both copies, repeated codes added up |
| CompareParsers.MissingEqualsDiffers | services/analysis.py:27 | a token without `=` (`CODE N`, `CODE-3`) counts in the regex copy and is ignored by the split copy |
| CompareParsers.DoubleMinusDiffers | services/analysis.py:20-21 | `--5` gives `{}` in the regex copy and raises in the split copy |
| CompareParsers.MissingCodeDiffers | services/analysis.py:28-29 | `=N` is skipped by the regex copy and filed under the empty code by the split copy |
| Aggregate.MaxFromZero | blueprints/student.py:423-426 | `max(0, …)` over option TOTALs: at least 0 and at least every TOTAL, and 0 or one of them |
| Aggregate.MaxScore | blueprints/student.py:427 | `max_score` is never negative |
| Aggregate.FindOption | blueprints/student.py:432 | `next(o for o in opts if o.id == ans.option_id)`: an option of the question with that id, or none when no option has it |
| Aggregate.IndexByQuestion | services/analysis.py:46 | `{a.question_id: a}` has a key for exactly the questions answered |
| Aggregate.ScanOptions | blueprints/student.py:422-427 | the option loop parses every option in order, finds the question's best TOTAL, and raises exactly when a value does |
| Aggregate.MergeInto | blueprints/student.py:436-437 | the merge loop adds the chosen option's points into `per` |
| Aggregate.ChosenScales | blueprints/student.py:429-435 | nothing exactly when the question is unanswered or its option id is not the question's; otherwise the chosen option's parsed map, which is what the question contributes |
| Aggregate.CalcScalesAndTotals | blueprints/student.py:418-439 | the question loop yields `per`, `raw` and `max_score` as the aggregate specification gives |
| Aggregate.FirstAnswer | blueprints/student.py:409 | `next(a for a in answers if a.question_id == q.id)`: an answer to that question, or none |
| Aggregate.FirstChosenTotal | blueprints/student.py:409-414 | the TOTAL of the option the first answer chose, 0 when there is none; `RawFirstAtMostMax` bounds it |
| Aggregate.CalcRawTotal | blueprints/student.py:399-415 | `_calc_raw_total` yields first-answer `raw` and `max_score`, raising exactly when a value does |
| Aggregate.RegexCopyWellFormed | blueprints/student.py:376-396 | the regex copy never raises and always returns distinct keys |
| Aggregate.RegexCopyNeverRaises | blueprints/psych.py:436-464 | an aggregator calling the regex copy never raises |
| Aggregate.ContributionDistinct | blueprints/student.py:435 | a chosen option's parsed map has distinct keys |
| Aggregate.PerScaleGet | blueprints/student.py:429-437 | each scale total is the sum of what the answered questions' chosen options give it |
| Aggregate.RawIsTotal | blueprints/student.py:438 | `raw == per.get("TOTAL", 0)` |
| Aggregate.RawIsPoints | blueprints/student.py:438 | `raw` sums the TOTAL points of the chosen options |
| Aggregate.UnansweredAddsNothing | blueprints/student.py:429-434 | a question with no answer, or with an option id it lacks, changes neither `per` nor `raw` |
| Aggregate.NoAnswers | blueprints/student.py:418-439 | with no answers, `per` is empty and `raw` is 0 |
| Aggregate.MaxScoreIgnoresAnswers | blueprints/student.py:421-427 | `max_score`, and whether the aggregator raises, do not depend on the answers |
| Aggregate.OptionAtMostMax | blueprints/student.py:424-426 | a chosen option's TOTAL never exceeds its question's best |
| Aggregate.RawAtMostMax | blueprints/student.py:418-439 | `raw <= max_score` |
| Aggregate.RawFirstAtMostMax | blueprints/student.py:399-415 | the same bound for `_calc_raw_total` |
| Aggregate.RawFirstAgrees | blueprints/student.py:409-414 | when no question has two answers, first-answer and last-answer `raw` agree |
| Aggregate.IndexUnique | services/analysis.py:46 | with distinct question ids, the index maps each question to its answer |
| Aggregate.DuplicateAnswersDiffer | blueprints/student.py:409 | with two answers to one question, `_calc_raw_total` scores the first and the dict-based aggregator the second |
| Dichotomies.LetterOfUpper | blueprints/student.py:382 | a value names a letter exactly when its whole `upper()` is one of the eight letters (so ß, upper-cased to "SS", names none) |
| Dichotomies.LetterOfCases | blueprints/student.py:382-383 | the values naming a letter are one of the eight letters in either case, and the dotless i and the long s |
| Dichotomies.PairCounts | blueprints/student.py:455 | both letters of every pair are counted as `per.get(letter, 0)` |
| Dichotomies.TypeCodeShape | blueprints/student.py:452-457 | four letters, one per pair, and the first letter exactly when its count is at least the second's |
| Dichotomies.PairLinesShape | blueprints/student.py:454-459 | one line per pair in pair order, with `≈` exactly on equal counts, naming the letter picked |
| Dichotomies.TieExample | blueprints/student.py:456 | with E and I tied, N above S and T, F, J, P absent (0 each), the code is ENTJ: a tie takes the first letter |
| Dichotomies.ResolveDichotomies | blueprints/student.py:452-459 | the pair loop builds the code and lines the specification gives |
| Bands.TruncDiv | blueprints/student.py:505 | `int(n / d)` brackets the rational quotient from the side of zero |
| Bands.RoundHalfEven | blueprints/student.py:270 | `round(n / d)` is within half a unit of the quotient, and even on an exact half |
| Bands.BandedPartition | blueprints/student.py:491 | the three bands partition the integers at the two thresholds |
| Bands.BandedMonotone | blueprints/student.py:506 | a larger score never falls in a lower band |
| Bands.Percent | services/analysis.py:122 | `int(100 * raw / max_score) if max_score else 0`: 0 without a `max_score`; for a positive one, the exact percentage truncated toward zero |
| Bands.PercentBounds | blueprints/student.py:505 | a share of a whole is at most 100%, and at least 0% when not negative |
| Bands.RoundPercent | blueprints/tests/__init__.py:262 | 0 without a whole; for a positive one, within half a point of the exact percentage, and even when it lies exactly halfway |
| Bands.RoundPercentBounds | blueprints/student.py:270 | a rounded share of a whole is at most 100, and a count that is not negative rounds to at least 0 |
| Bands.RoundPercentHalf | blueprints/tests/__init__.py:130 | a count that is at least half of the whole rounds to at least 50, and one below half to at most 50 |
| Bands.RoundPercentWhole | blueprints/tests/__init__.py:262 | the whole rounds to exactly 100 |
| Bands.RoundNearTrunc | blueprints/tests/__init__.py:195 | for a share that is not negative, `round(n / d)` is `int(n / d)` or one more |
| Rankings.SubstringShorter | blueprints/student.py:468 | a key `k in "RIASEC"` is at most six characters long |
| Rankings.RankingOrdered | blueprints/student.py:468 | a filtered ranking lists exactly the kept entries, non-increasing, stable on ties, as a permutation |
| Rankings.SortRenamed | blueprints/student.py:479 | renaming keys (which keeps values and order) before or after sorting gives the same ranking |
| Rankings.TopCodeLetters | blueprints/student.py:469 | the top-three code is the dash for an empty ranking, else the first letters of at most three entries |
| Student.Interpret | blueprints/student.py:442-525 | `_interpret`, with the MBTI pair loop, yields the summary the specification gives |
| Student.InterpretMbti | blueprints/student.py:445-465 | MBTI: a four-letter code with ties to the first letter, three header bullets, one bullet per pair |
| Student.InterpretHolland | blueprints/student.py:467-475 | Holland: the ranking holds exactly the entries whose key occurs in "RIASEC", non-increasing and stable; the code is its top three |
| Student.InterpretKlimov | blueprints/student.py:477-485 | Klimov: the lead is the dash iff no H/T/N/S/A key; else the short name of the earliest largest entry |
| Student.InterpretKos | blueprints/student.py:487-498 | KOS-2: both counts banded high from 8, medium from 4 |
| Student.InterpretScales | blueprints/student.py:500-508 | the leading scales are the first three of a non-increasing permutation of `per`; a second bullet, the Bennett percentage banded at 75 and 40, appears exactly for bennett with a non-zero `max_score` |
| Student.InterpretCdi | blueprints/student.py:510-522 | CDI: the total with its level, high from 19, moderate from 13 |
| Student.InterpretDefault | blueprints/student.py:524-525 | any other slug, a missing one included, only says the results were saved |
| Student.SlugCaseInsensitive | blueprints/student.py:443 | any slug gives the same interpretation as its lower case |
| Student.HollandKeepsRunOfLetters | blueprints/student.py:468 | `{"RI": 2}` gives the code "RI" |
| Student.BennettExamples | blueprints/student.py:505-506 | 30/40 is 75% (high), 15/40 is 37% (low), and -1/3 truncates to -33% |
| Student.FinishScoreBounds | blueprints/student.py:266-272 | the finish score is at most 100 (when `max_score` is 0, provided there are no more answer rows than questions), at least 0 for a non-negative raw, and the answered share when `max_score` is 0 |
| Psych.CdiRiskLevels | blueprints/psych.py:126-154 | no score gives no risk; otherwise the level is high from 19, moderate from 13 to 18, low below, the colour follows the level, and the language is ru exactly when neither en nor kk was asked for |
| Psych.CdiRiskUnknownLang | blueprints/psych.py:135-136 | a language other than ru, en and kk is read as ru |
| Psych.CdiTally | blueprints/psych.py:329-335 | the tally loop counts, per bucket, the students whose latest CDI risk has that level, or none |
| Psych.TallySum | blueprints/psych.py:329-335 | every student lands in exactly one bucket, so the four counts sum to the class size |
| Psych.TruthyParts | blueprints/psych.py:80-82 | no part kept is empty |
| Psych.TruthyPartsOfTwo | blueprints/psych.py:80-82 | of last and first name, exactly the set, non-empty ones are kept, in that order |
| Psych.DisplayName | blueprints/psych.py:77-89 | the loop builds the name the specification gives |
| Psych.JoinSpaceNonEmpty | blueprints/psych.py:89 | joining non-empty parts gives a non-empty name |
| Psych.DisplayNamePrecedence | blueprints/psych.py:79-89 | never empty; last and first name, then `name`, then `email`, then `#id`, which is `#?` without an `id` attribute and `#None` when it is `None` |
| Psych.Interpret | blueprints/psych.py:466-551 | `_interpretation`, with its MBTI loop and header splice, yields the summary the specification gives |
| Psych.InterpretationRaisesIff | blueprints/psych.py:469-473 | `_interpretation` raises exactly for a language outside ru, en and kk |
| Psych.InterpretMbti | blueprints/psych.py:476-499 | the same code as the student page, two headers and four pair bullets, six in all |
| Psych.InterpretHolland | blueprints/psych.py:502-513 | the code is the dash or one to three of R, I, A, S, E, C, and the dash exactly when no key is a single RIASEC letter |
| Psych.HollandCode | blueprints/psych.py:503-504 | the code is the dash exactly when no key is a single RIASEC letter |
| Psych.InterpretKos | blueprints/psych.py:516-532 | the same two banded bullets as the student page |
| Psych.InterpretOthers | blueprints/psych.py:535-551 | one bullet: the percentage for bennett with a non-zero `max_score`, otherwise "saved" |
| Psych.HollandFiltersDiffer | blueprints/psych.py:503 | `{"RI": 2}` gives "RI" on the student page and the dash here |
| Psych.UnknownLangRaises | blueprints/psych.py:469-473 | `?lang=de` makes the result page raise while the CDI risk falls back to ru |
| Psych.AnyLangNeverRaises | blueprints/psych.py:469-473 | the corrected interpretation never raises, agrees with `_interpretation` on ru, en and kk, and reads any other language as ru |
| Analysis.Humanize | services/analysis.py:90-136 | `_humanize`, with the MBTI pair loop, yields the digest the specification gives |
| Analysis.BennettDigestBands | services/analysis.py:121-124 | the Bennett percentage is 0 (low) without `max_score`, banded at 75 and 40, and within 0..100 for a share |
| Analysis.KlimovLead | services/analysis.py:102-107 | the lead is the dash with no Klimov key, else the full name of the earliest largest entry, which the student page shows by its short name |
| Analysis.CodesAgreeWithStudent | services/analysis.py:93-113 | the Holland and MBTI codes equal the student page's codes |
| Analysis.KosDigestBands | services/analysis.py:115-119 | KOS-2 counts banded at 8 and 4 |
| Analysis.CdiRevealsNothing | services/analysis.py:132-134 | the CDI digest is the same whatever the totals |
| Analysis.BuildSummary | services/analysis.py:138-168 | the attempt loop builds the report the specification gives |
| Analysis.AttemptLine | services/analysis.py:156-166 | the line of one attempt: none for a missing test, the placeholder for a confidential one, else the digest, raising when the split copy does |
| Analysis.CollectLines | services/analysis.py:154-166 | the attempt loop collects the lines `LinesPerAttempt` and `LinesRaiseIff` describe, stopping at the first that raises |
| Analysis.LinesRaiseIff | services/analysis.py:155-166 | the line loop raises exactly when some attempt's line raises |
| Analysis.LinesPerAttempt | services/analysis.py:154-166 | one line per attempt whose test exists, a placeholder only for a confidential test |
| Analysis.SummaryShape | services/analysis.py:144-152 | no attempts or a zero limit give the fixed message; otherwise at most `limit` lines |
| Analysis.ConfidentialHidesAnswers | services/analysis.py:160-163 | a confidential test's line is the placeholder whatever the answers |
| Analysis.SummaryRaisesIff | services/analysis.py:155-166 | the summary raises exactly when a listed attempt's test exists, is not confidential, and has an option value the split copy cannot read |
| TestsFlow.NamedIsLetterOf | blueprints/tests/__init__.py:105-107 | the result page reads a value as the same letter as the interpretation routines |
| TestsFlow.TallySum | blueprints/tests/__init__.py:104-107 | the eight counts sum to the rows naming a letter, at most the number of rows |
| TestsFlow.TallyCount | blueprints/tests/__init__.py:104 | each of the eight keys holds its number of rows |
| TestsFlow.FirstPairFrom | blueprints/tests/__init__.py:114-121 | over the question's options, each stripped and upper-cased once, the pair found is within the pairs searched |
| TestsFlow.QuestionCreditsOnePair | blueprints/tests/__init__.py:115-121 | a question credits letters of one pair only, and some letter exactly when a pair letter is present |
| TestsFlow.ComputeMbti | blueprints/tests/__init__.py:89-136 | counts, totals, percentages and the type code as their specifications give |
| TestsFlow.CountChosen | blueprints/tests/__init__.py:103-107 | step 1 builds the eight counts |
| TestsFlow.CountOffered | blueprints/tests/__init__.py:110-121 | step 2 builds the eight totals |
| TestsFlow.CreditQuestion | blueprints/tests/__init__.py:114-121 | one question adds one to each present letter of the first present pair, nothing else |
| TestsFlow.PairPercents | blueprints/tests/__init__.py:123-130 | step 3 builds the pair percentages |
| TestsFlow.PairPctShape | blueprints/tests/__init__.py:125-130 | both 0 without answers; otherwise they sum to 100, and the larger count's share is at least 50 |
| TestsFlow.PercentsShape | blueprints/tests/__init__.py:123-135 | every letter has a share; shares pair up to 100 or are both 0; the type-code letter has at least 50 |
| TestsFlow.NextStepCases | blueprints/tests/__init__.py:237-243 | "prev" stays on a question of order at least 1; finish exactly on "finish" or from the last question; otherwise `order + 1 <= total` |
| TestsFlow.NextStepDefaults | blueprints/tests/__init__.py:226-227 | the navigation word ignores case, defaults to "next", and a missing order means 1 |
| TestsFlow.CompletionScoreBounds | blueprints/tests/__init__.py:260-262 | 0 without questions, within 0..100, and 100 when all are answered |
| TestsFlow.ScoreRoundsProgress | blueprints/tests/__init__.py:194-195 | the completion score is the progress-bar value or one more |
| Admin.AfterLastDot | blueprints/admin.py:37 | `rsplit('.', 1)[1]` is the dot-free text after the last dot |
| Admin.AfterLastDotOf | blueprints/admin.py:37 | the last dot is found whatever precedes it |
| Admin.AllowedFileIff | blueprints/admin.py:36-37 | accepted exactly when the text after the last dot is xlsx or xls in any case |
| Admin.NoDotRefused | blueprints/admin.py:37 | a name without a dot is refused |
| Admin.AcceptedExamples | blueprints/admin.py:16 | for any stem, even an empty one or one with dots, `<stem>.XLSX` and `<stem>.xls` are accepted |
| Admin.RefusedExamples | blueprints/admin.py:16 | for any stem, `<stem>.csv` and `<stem>.xlsx.bak` are refused, and so is a bare `xlsx` |

## Left out

- Flask routes, redirects, `flash`, the session, templates and access guards. The caller's
  language (`?lang=` or the session) is a parameter.
- Database queries and commits. Questions, options, answers, attempts and tests are
  sequences and maps given as inputs, in the order the queries sort them. The selection of
  each student's latest CDI attempt (`_cdi_risks`, blueprints/psych.py:157-200) is an input
  map from student to risk.
- The localised and HTML wording of bullets, titles and digest lines. Labels, reasons and
  pair explanations are structured values.
- Python floats. `int(100 * a / b)` and `round(100 * a / b)` are exact rational
  truncation and half-to-even rounding; floating-point error on very large counts is not
  modelled.
- Unicode beyond ASCII, Latin-1 and the basic Cyrillic block. `upper`, `lower`, `isspace`
  and the regex letter class are listed for those ranges only (plus ÿ, µ, the dotless i, the
  long s and the Kelvin sign, whose case partners lie outside them); Greek letters are not
  lower-cased, so `lower` of `upper("µ")` is not modelled; `\d` and `str.isdigit` are
  ASCII digits (so a superscript digit, which `isdigit` accepts and `int` refuses, is not modelled).
- The psychologist aggregator (blueprints/psych.py:436-464) also returns the question list;
  the model returns only `per`, `raw` and `max_score` (`Aggregate.CalcScalesAndTotals` with
  the regex copy).
- The `limit` argument of the summary is a natural number; SQL's treatment of a negative
  limit is not modelled.
- Timers, `finished_at`, `duration_sec` and the attempt bookkeeping of `finish` and
  `attempt_finish`.
- `config.py` also lists `csv` among allowed extensions, but the admin upload checks its own
  set (blueprints/admin.py:16); config.py is not part of this model.
- The AI assistant, the Excel import and the chart serialiser.
- Rankings.TopCodeLetters: the dash result is stated for an empty ranking only, not as an
  equivalence, because a key equal to the dash character itself also yields the dash.

## Findings

| source | as written | input that shows it | evidently intended | confidence | as-written member | corrected member |
|---|---|---|---|---|---|---|
| blueprints/psych.py:469-473 | `_interpretation` looks up its wording table with `[lang]`, and `_current_lang` passes through any `?lang=` value | `?lang=de` on the attempt view: `KeyError`, so the page fails | an unknown language falls back to ru, as `_cdi_risk_from_raw` does (blueprints/psych.py:135-136) | not executed | Psych.UnknownLangRaises | Psych.AnyLangNeverRaises |
