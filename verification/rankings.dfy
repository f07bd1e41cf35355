/** The pieces the interpretation rules share: rankings of scales by points, the
    RIASEC and Klimov key filters, the top-three code, and the structured shape of
    an interpretation (which bullets, in which order, with which numbers; the
    localised wording is not modelled). */
module Rankings {
  import opened Text
  import opened Scales
  import opened Bands
  import Dichotomies

  /** The em dash the rules show when there is nothing to show. */
  const Dash: string := "\U{2014}"

  // ---------------------------------------------------------------------------
  // Key filters.

  /** Python's `k in s` for two strings: `k` occurs in `s` as a contiguous run
      (the empty string occurs in every string). */
  predicate SubstringOf(k: string, s: string)
    decreases |s|
  {
    k <= s || (s != [] && SubstringOf(k, s[1..]))
  }

  /** An occurrence at position `i` is enough. */
  lemma {:induction false} SubstringAt(k: string, s: string, i: nat)
    requires i + |k| <= |s| && s[i..i + |k|] == k
    ensures SubstringOf(k, s)
  {
    if i > 0 {
      assert s[1..][i - 1..i - 1 + |k|] == s[i..i + |k|];
      SubstringAt(k, s[1..], i - 1);
    }
  }

  /** Every string `SubstringOf` accepts is a run of `s`, so it is at most as long. */
  lemma {:induction false} SubstringShorter(k: string, s: string)
    requires SubstringOf(k, s)
    ensures |k| <= |s|
  {
    if !(k <= s) {
      SubstringShorter(k, s[1..]);
    }
  }

  const Riasec: string := "RIASEC"

  /** `k in "RIASEC"` (blueprints/student.py, services/analysis.py): any run of the six letters. */
  predicate InRiasecText(k: string) { SubstringOf(k, Riasec) }

  /** `k in set("RIASEC")` (blueprints/psych.py): exactly one of the six letters. */
  predicate InRiasecSet(k: string) { |k| == 1 && k[0] in Riasec }

  /** The keys of the Klimov `names` dict. */
  predicate IsKlimovCode(k: string) { k == "H" || k == "T" || k == "N" || k == "S" || k == "A" }

  /** The short Klimov category names of blueprints/student.py. */
  function KlimovShort(k: string): string {
    if k == "H" then "Ч-Ч"
    else if k == "T" then "Ч-Т"
    else if k == "N" then "Ч-Пр"
    else if k == "S" then "Ч-Зн"
    else if k == "A" then "Ч-ХО"
    else k
  }

  /** The full Klimov category names of services/analysis.py. */
  function KlimovLong(k: string): string {
    if k == "H" then "Человек-человек"
    else if k == "T" then "Человек-техника"
    else if k == "N" then "Человек-природа"
    else if k == "S" then "Человек-знаковая система"
    else if k == "A" then "Человек-художественный образ"
    else k
  }

  // ---------------------------------------------------------------------------
  // Rankings.

  /** `sorted([(k, v) for k, v in per.items() if keep(k)], key=lambda x: -x[1])` */
  function Ranking(per: Scales, keep: string -> bool): Scales {
    SortDesc(FilterKeys(per, keep))
  }

  /** A ranking lists exactly the kept entries, largest value first, ties in insertion order. */
  lemma RankingOrdered(per: Scales, keep: string -> bool)
    ensures NonIncreasing(Ranking(per, keep))
    ensures multiset(Ranking(per, keep)) == multiset(FilterKeys(per, keep))
    ensures forall v :: WithValue(Ranking(per, keep), v) == WithValue(FilterKeys(per, keep), v)
    ensures forall x :: x in Ranking(per, keep) <==> x in per && keep(x.0)
  {
    var f := FilterKeys(per, keep);
    SortDescSorted(f);
    SortDescPermutation(f);
    forall v ensures WithValue(SortDesc(f), v) == WithValue(f, v) {
      SortDescStable(f, v);
    }
    forall x ensures x in SortDesc(f) <==> x in f {
      assert x in SortDesc(f) <==> x in multiset(SortDesc(f));
      assert x in f <==> x in multiset(f);
    }
  }

  /** Nothing is kept when no key passes the filter. */
  lemma {:induction false} FilterNone(s: Scales, p: string -> bool)
    requires forall i :: 0 <= i < |s| ==> !p(s[i].0)
    ensures FilterKeys(s, p) == []
  {
    if s != [] {
      FilterNone(s[1..], p);
    }
  }

  /** The entries of `s` with each key renamed by `f`, values untouched. */
  function Renamed(s: Scales, f: string -> string): (r: Scales)
    ensures |r| == |s|
    ensures forall i :: 0 <= i < |s| ==> r[i] == (f(s[i].0), s[i].1)
  {
    seq(|s|, i requires 0 <= i < |s| => (f(s[i].0), s[i].1))
  }

  lemma {:induction false} InsertRenamed(x: (string, int), t: Scales, f: string -> string)
    ensures InsertDesc((f(x.0), x.1), Renamed(t, f)) == Renamed(InsertDesc(x, t), f)
  {
    if t != [] && x.1 < t[0].1 {
      assert Renamed(t, f)[1..] == Renamed(t[1..], f);
      InsertRenamed(x, t[1..], f);
    }
  }

  /** Renaming before the sort or after it gives the same list: the sort only looks at values. */
  lemma {:induction false} SortRenamed(s: Scales, f: string -> string)
    ensures SortDesc(Renamed(s, f)) == Renamed(SortDesc(s), f)
  {
    if s != [] {
      assert Renamed(s, f)[1..] == Renamed(s[1..], f);
      SortRenamed(s[1..], f);
      InsertRenamed(s[0], SortDesc(s[1..]), f);
    }
  }

  // ---------------------------------------------------------------------------
  // Top three.

  /** `"".join([k for k, _ in order])` */
  function JoinKeys(order: Scales): string {
    if order == [] then [] else order[0].0 + JoinKeys(order[1..])
  }

  /** `"".join([k for k, _ in order[:3]]) or "—"` */
  function TopCode(order: Scales): string {
    var j := JoinKeys(Prefix(order, 3));
    if j == [] then Dash else j
  }

  lemma {:induction false} JoinSingleLetters(order: Scales)
    requires forall i :: 0 <= i < |order| ==> |order[i].0| == 1
    ensures |JoinKeys(order)| == |order|
    ensures forall i :: 0 <= i < |order| ==> JoinKeys(order)[i] == order[i].0[0]
  {
    if order != [] {
      JoinSingleLetters(order[1..]);
    }
  }

  /** With one-letter keys the top code is the first letters of at most three ranked
      entries, and the dash when the ranking is empty. */
  lemma TopCodeLetters(order: Scales)
    requires forall i :: 0 <= i < |order| ==> |order[i].0| == 1
    ensures order == [] ==> TopCode(order) == Dash
    ensures order != [] ==> |TopCode(order)| == (if |order| < 3 then |order| else 3)
    ensures order != [] ==> forall i :: 0 <= i < |TopCode(order)| ==> TopCode(order)[i] == order[i].0[0]
  {
    JoinSingleLetters(Prefix(order, 3));
  }

  // ---------------------------------------------------------------------------
  // The shape of an interpretation.

  /** One bullet: what it says and which numbers it shows. */
  datatype Bullet =
    | TypeIs(code: string)            // "your type: CODE"
    | NotADiagnosis                   // "a description of preferences, not a diagnosis"
    | StyleGuide                      // "use the type as a guide for study style and roles"
    | Pair(line: Dichotomies.PairLine)
    | RankingLine(order: Scales)      // "K:V > K:V > …", or "n/a" when empty
    | TopThree(code: string)
    | ChooseByCodes                   // "choose directions where the leading codes fit"
    | LeadType(lead: string)
    | Communication(points: int, level: Band)
    | Organisation(points: int, level: Band)
    | SoftSkills                      // "develop soft skills through debate, projects, tutoring"
    | LeadingScales(top: Scales)      // "K:V, K:V, K:V", or the dash when empty
    | Spatial(pct: int, level: Band)
    | CdiTotal(raw: int, level: Band)
    | ForPsychologist                 // "details are available to the school psychologist"
    | Saved                           // "results saved"

  datatype Title =
    | MbtiTitle(code: string)
    | RiasecTitle(code: string)
    | KlimovTitle(lead: string)
    | KosTitle
    | ScalesTitle
    | CdiTitle
    | SavedTitle

  /** `{"title": …, "bullets": […], "code": …}`; `code` is absent for most tests. */
  datatype Summary = Summary(title: Title, bullets: seq<Bullet>, code: Option<string>)

  /** One bullet per explanation line, in order. */
  function PairBullets(lines: seq<Dichotomies.PairLine>): (r: seq<Bullet>)
    ensures |r| == |lines| && forall i :: 0 <= i < |lines| ==> r[i] == Pair(lines[i])
  {
    seq(|lines|, i requires 0 <= i < |lines| => Pair(lines[i]))
  }
}
