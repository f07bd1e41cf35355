/** The four MBTI dichotomies: the eight letters, how one option value names a
    letter, and how counts per letter resolve into a four-letter type code. The
    same loop appears in blueprints/student.py (`_interpret`), blueprints/psych.py
    (`_interpretation`) and services/analysis.py (`_mbti_code_from_per`), and the
    same first-letter-wins rule in `_compute_mbti` of blueprints/tests/__init__.py. */
module Dichotomies {
  import opened Text
  import opened Scales

  const Letters: string := "EISNTFJP"

  /** The letter pairs, in the order the type code spells them. */
  const Pairs: seq<(char, char)> := [('E', 'I'), ('S', 'N'), ('T', 'F'), ('J', 'P')]

  /** `s.upper()` when that is one of the eight letters (`s` already stripped).
      Python's `upper` never shortens a string, so only one-character strings qualify. */
  function LetterOf(s: string): (r: Option<char>)
    ensures r.Some? ==> |s| == 1 && r.value in Letters && r.value == UpperChar(s[0])
  {
    if |s| == 1 && UpperChar(s[0]) in Letters then Some(UpperChar(s[0])) else None
  }

  /** `LetterOf` is `s.upper() in LETTERS` with the whole of `str.upper()`: a ß, whose upper
      case is "SS", names no letter. */
  lemma LetterOfUpper(s: string)
    ensures LetterOf(s) == if |Upper(s)| == 1 && Upper(s)[0] in Letters then Some(Upper(s)[0]) else None
  {
    if |s| == 1 {
      assert s[1..] == [];
      assert Upper(s) == UpperOf(s[0]);
    }
  }

  /** The values that name a letter: one of the eight letters in either case, or the dotless
      i and the long s, whose upper cases are I and S. */
  lemma LetterOfCases(s: string)
    ensures LetterOf(s).Some? <==> |s| == 1 && s[0] in "EISNTFJPeisntfjp\U{131}\U{17F}"
  {
  }

  /** `counts.get(c, 0)` */
  function Count(m: map<char, int>, c: char): int {
    if c in m then m[c] else 0
  }

  /** The eight letter entries of a per-scale map, each `per.get(letter, 0)`. */
  function LetterCounts(per: Scales): (m: map<char, int>)
    ensures forall c :: c in Letters ==> Count(m, c) == Get(per, [c])
  {
    map c | c in Letters :: Get(per, [c])
  }

  /** `a if va >= vb else b` */
  function Pick(m: map<char, int>, a: char, b: char): char {
    if Count(m, a) >= Count(m, b) then a else b
  }

  /** The four winning letters, concatenated in pair order. */
  function TypeCode(m: map<char, int>): string {
    [Pick(m, 'E', 'I'), Pick(m, 'S', 'N'), Pick(m, 'T', 'F'), Pick(m, 'J', 'P')]
  }

  /** One explanation line: both letters, both counts, `≈` on a tie and `>` otherwise, the pick. */
  datatype PairLine = PairLine(first: char, second: char, firstCount: int, secondCount: int, tie: bool, pick: char)

  function PairLineOf(m: map<char, int>, a: char, b: char): PairLine {
    PairLine(a, b, Count(m, a), Count(m, b), Count(m, a) == Count(m, b), Pick(m, a, b))
  }

  function PairLines(m: map<char, int>): seq<PairLine> {
    [PairLineOf(m, 'E', 'I'), PairLineOf(m, 'S', 'N'), PairLineOf(m, 'T', 'F'), PairLineOf(m, 'J', 'P')]
  }

  /** The type code has four letters; position i holds a letter of pair i, the first
      one exactly when its count is at least the second's (ties go to E, S, T, J). */
  lemma TypeCodeShape(m: map<char, int>)
    ensures |TypeCode(m)| == 4
    ensures forall i :: 0 <= i < 4 ==>
      && (TypeCode(m)[i] == Pairs[i].0 || TypeCode(m)[i] == Pairs[i].1)
      && (TypeCode(m)[i] == Pairs[i].0 <==> Count(m, Pairs[i].0) >= Count(m, Pairs[i].1))
  {
  }

  /** Both letters of every pair are counted from the entry named by that letter alone. */
  lemma PairCounts(per: Scales)
    ensures forall i :: 0 <= i < |Pairs| ==>
      && Count(LetterCounts(per), Pairs[i].0) == Get(per, [Pairs[i].0])
      && Count(LetterCounts(per), Pairs[i].1) == Get(per, [Pairs[i].1])
  {
    forall i | 0 <= i < |Pairs|
      ensures Pairs[i].0 in Letters && Pairs[i].1 in Letters
    {
    }
  }

  /** One line per pair, in pair order; it shows `≈` exactly on equal counts and names the letter the code took. */
  lemma PairLinesShape(m: map<char, int>)
    ensures |PairLines(m)| == 4
    ensures forall i :: 0 <= i < 4 ==>
      && PairLines(m)[i].first == Pairs[i].0 && PairLines(m)[i].second == Pairs[i].1
      && (PairLines(m)[i].tie <==> Count(m, Pairs[i].0) == Count(m, Pairs[i].1))
      && PairLines(m)[i].pick == TypeCode(m)[i]
  {
  }

  /** E and I tie, N beats S, and the absent T, F, J and P count as ties at 0: the code is ENTJ. */
  lemma TieExample()
    ensures TypeCode(map['E' := 3, 'I' := 3, 'S' := 1, 'N' := 5]) == "ENTJ"
  {
    var m := map['E' := 3, 'I' := 3, 'S' := 1, 'N' := 5];
    assert Count(m, 'T') == 0 && Count(m, 'F') == 0 && Count(m, 'J') == 0 && Count(m, 'P') == 0;
  }

  /** The pair loop of the three interpretation routines: for each pair read both counts,
      append the winner to the code and one explanation line. */
  method ResolveDichotomies(per: Scales) returns (code: string, lines: seq<PairLine>)
    ensures code == TypeCode(LetterCounts(per))
    ensures lines == PairLines(LetterCounts(per))
  {
    ghost var m := LetterCounts(per);
    code, lines := "", [];
    for i := 0 to |Pairs|
      invariant code == TypeCode(m)[..i]
      invariant lines == PairLines(m)[..i]
    {
      PairStep(per, i);
      assert TypeCode(m)[..i + 1] == TypeCode(m)[..i] + [TypeCode(m)[i]];
      assert PairLines(m)[..i + 1] == PairLines(m)[..i] + [PairLines(m)[i]];
      var (a, b) := Pairs[i];
      var va, vb := Get(per, [a]), Get(per, [b]);
      var pick := if va >= vb then a else b;
      code := code + [pick];
      lines := lines + [PairLine(a, b, va, vb, va == vb, pick)];
    }
  }

  /** Pair `i` of the code and of the lines, read straight from `per`. */
  lemma PairStep(per: Scales, i: nat)
    requires i < |Pairs|
    ensures var m := LetterCounts(per);
      var (a, b) := Pairs[i];
      var va, vb := Get(per, [a]), Get(per, [b]);
      && |TypeCode(m)| == |PairLines(m)| == |Pairs|
      && TypeCode(m)[i] == (if va >= vb then a else b)
      && PairLines(m)[i] == PairLine(a, b, va, vb, va == vb, if va >= vb then a else b)
  {
    var m := LetterCounts(per);
    var (a, b) := Pairs[i];
    assert a in Letters && b in Letters;
    assert Count(m, a) == Get(per, [a]) && Count(m, b) == Get(per, [b]);
    assert TypeCode(m)[i] == Pick(m, a, b) && PairLines(m)[i] == PairLineOf(m, a, b);
  }
}
