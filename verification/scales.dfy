/** Per-scale point maps. Python dicts keep keys in first-insertion order and the
    rankings depend on that order, so a map is an association list whose keys are
    distinct; `Get` is `d.get(k, 0)` and `Add` is `d[k] = d.get(k, 0) + pts`. */
module Scales {

  type Scales = seq<(string, int)>

  ghost predicate DistinctKeys<K>(m: seq<(K, int)>) {
    forall i, j :: 0 <= i < j < |m| ==> m[i].0 != m[j].0
  }

  predicate HasKey<K(==)>(m: seq<(K, int)>, k: K) {
    exists i :: 0 <= i < |m| && m[i].0 == k
  }

  /** `d.get(k, 0)` */
  function Get(m: Scales, k: string): int {
    if m == [] then 0 else if m[0].0 == k then m[0].1 else Get(m[1..], k)
  }

  lemma {:induction false} GetAbsent(m: Scales, k: string)
    requires forall i :: 0 <= i < |m| ==> m[i].0 != k
    ensures Get(m, k) == 0
  {
    if m != [] {
      GetAbsent(m[1..], k);
    }
  }

  lemma GetAt(m: Scales, i: nat)
    requires DistinctKeys(m) && i < |m|
    ensures Get(m, m[i].0) == m[i].1
  {
    if i > 0 {
      GetAt(m[1..], i - 1);
    }
  }

  /** A key of a non-empty list is its first key or a key of the rest. */
  lemma HasKeyCons(m: Scales)
    requires m != []
    ensures forall j :: HasKey(m, j) <==> j == m[0].0 || HasKey(m[1..], j)
  {
    forall j | HasKey(m, j) && j != m[0].0 ensures HasKey(m[1..], j) {
      var i :| 0 <= i < |m| && m[i].0 == j;
      assert m[1..][i - 1].0 == j;
    }
    forall j | HasKey(m[1..], j) ensures HasKey(m, j) {
      var i :| 0 <= i < |m[1..]| && m[1..][i].0 == j;
      assert m[i + 1].0 == j;
    }
  }

  /** `d[k] = d.get(k, 0) + pts`: an existing key keeps its place, a new key goes last. */
  function Add(m: Scales, k: string, pts: int): (r: Scales)
    ensures forall j :: Get(r, j) == Get(m, j) + (if j == k then pts else 0)
    ensures |r| == if HasKey(m, k) then |m| else |m| + 1
    ensures forall i :: 0 <= i < |m| ==> r[i].0 == m[i].0
    ensures !HasKey(m, k) ==> r[|m|] == (k, pts)
    ensures forall j :: HasKey(r, j) <==> HasKey(m, j) || j == k
  {
    if m == [] then [(k, pts)]
    else if m[0].0 == k then [(k, m[0].1 + pts)] + m[1..]
    else
      var r := [m[0]] + Add(m[1..], k, pts);
      HasKeyCons(m);
      HasKeyCons(r);
      r
  }

  lemma AddDistinct(m: Scales, k: string, pts: int)
    requires DistinctKeys(m)
    ensures DistinctKeys(Add(m, k, pts))
  {
    var r := Add(m, k, pts);
    if !HasKey(m, k) {
      forall i | 0 <= i < |m| ensures r[i].0 != k {
        assert m[i].0 != k;
      }
    }
  }

  /** `for code, pts in parsed.items(): per[code] = per.get(code, 0) + pts` */
  function Merge(per: Scales, parsed: Scales): Scales {
    if parsed == [] then per
    else
      var last := parsed[|parsed| - 1];
      Add(Merge(per, parsed[..|parsed| - 1]), last.0, last.1)
  }

  /** The sum of the points of every entry with key `k` (all of them, not only the first). */
  function SumFor(m: Scales, k: string): int {
    if m == [] then 0
    else SumFor(m[..|m| - 1], k) + (if m[|m| - 1].0 == k then m[|m| - 1].1 else 0)
  }

  lemma {:induction false} SumForDistinct(m: Scales, k: string)
    requires DistinctKeys(m)
    ensures SumFor(m, k) == Get(m, k)
  {
    if m != [] {
      var init := m[..|m| - 1];
      var last := m[|m| - 1];
      assert m == init + [last];
      SumForDistinct(init, k);
      if last.0 == k {
        forall i | 0 <= i < |init| ensures init[i].0 != k {
          assert m[i].0 != m[|m| - 1].0;
        }
        GetAbsent(init, k);
        GetAt(m, |m| - 1);
      } else {
        GetSnoc(init, last, k);
      }
    }
  }

  lemma {:induction false} GetSnoc(m: Scales, x: (string, int), k: string)
    requires x.0 != k
    ensures Get(m + [x], k) == Get(m, k)
  {
    if m != [] {
      assert (m + [x])[1..] == m[1..] + [x];
      GetSnoc(m[1..], x, k);
    }
  }

  /** Merging adds, key by key, the points of every entry of `parsed`. */
  lemma {:induction false} MergeGet(per: Scales, parsed: Scales, k: string)
    ensures Get(Merge(per, parsed), k) == Get(per, k) + SumFor(parsed, k)
  {
    if parsed != [] {
      MergeGet(per, parsed[..|parsed| - 1], k);
    }
  }

  lemma {:induction false} MergeDistinct(per: Scales, parsed: Scales)
    requires DistinctKeys(per)
    ensures DistinctKeys(Merge(per, parsed))
  {
    if parsed != [] {
      var last := parsed[|parsed| - 1];
      MergeDistinct(per, parsed[..|parsed| - 1]);
      AddDistinct(Merge(per, parsed[..|parsed| - 1]), last.0, last.1);
    }
  }

  lemma {:induction false} AddNew(m: Scales, k: string, pts: int)
    requires forall i :: 0 <= i < |m| ==> m[i].0 != k
    ensures Add(m, k, pts) == m + [(k, pts)]
  {
    if m != [] {
      AddNew(m[1..], k, pts);
    }
  }

  lemma {:induction false} MergeEmpty(parsed: Scales)
    requires DistinctKeys(parsed)
    ensures Merge([], parsed) == parsed
  {
    if parsed != [] {
      var init := parsed[..|parsed| - 1];
      var last := parsed[|parsed| - 1];
      MergeEmpty(init);
      forall i | 0 <= i < |init| ensures init[i].0 != last.0 {
        assert parsed[i].0 != parsed[|parsed| - 1].0;
      }
      AddNew(init, last.0, last.1);
    }
  }

  // ---------------------------------------------------------------------------
  // Python's `sorted(items, key=lambda kv: -kv[1])`: a stable descending sort.

  ghost predicate NonIncreasing<K>(s: seq<(K, int)>) {
    forall i, j :: 0 <= i < j < |s| ==> s[i].1 >= s[j].1
  }

  /** The entries of `s` whose value is `v`, in their order in `s`. */
  function WithValue<K>(s: seq<(K, int)>, v: int): seq<(K, int)> {
    if s == [] then []
    else (if s[0].1 == v then [s[0]] else []) + WithValue(s[1..], v)
  }

  /** Puts `x` before the first entry whose value is not larger than its own. */
  function InsertDesc<K>(x: (K, int), t: seq<(K, int)>): (r: seq<(K, int)>)
    ensures |r| == |t| + 1
  {
    if t == [] || x.1 >= t[0].1 then [x] + t
    else [t[0]] + InsertDesc(x, t[1..])
  }

  /** `sorted(s, key=lambda kv: -kv[1])` */
  function SortDesc<K>(s: seq<(K, int)>): (r: seq<(K, int)>)
    ensures |r| == |s|
  {
    if s == [] then [] else InsertDesc(s[0], SortDesc(s[1..]))
  }

  lemma {:induction false} InsertDescSorted<K>(x: (K, int), t: seq<(K, int)>)
    requires NonIncreasing(t)
    ensures NonIncreasing(InsertDesc(x, t))
    ensures InsertDesc(x, t)[0] == x || (t != [] && InsertDesc(x, t)[0] == t[0])
  {
    if t != [] && x.1 < t[0].1 {
      InsertDescSorted(x, t[1..]);
    }
  }

  lemma {:induction false} InsertDescStable<K>(x: (K, int), t: seq<(K, int)>, v: int)
    ensures WithValue(InsertDesc(x, t), v) == (if x.1 == v then [x] else []) + WithValue(t, v)
  {
    if t != [] && x.1 < t[0].1 {
      InsertDescStable(x, t[1..], v);
      assert InsertDesc(x, t)[1..] == InsertDesc(x, t[1..]);
    }
  }

  lemma {:induction false} InsertDescMultiset<K>(x: (K, int), t: seq<(K, int)>)
    ensures multiset(InsertDesc(x, t)) == multiset{x} + multiset(t)
  {
    if t != [] && x.1 < t[0].1 {
      InsertDescMultiset(x, t[1..]);
      assert t == [t[0]] + t[1..];
    }
  }

  /** The ranking is sorted from the largest value down. */
  lemma {:induction false} SortDescSorted<K>(s: seq<(K, int)>)
    ensures NonIncreasing(SortDesc(s))
  {
    if s != [] {
      SortDescSorted(s[1..]);
      InsertDescSorted(s[0], SortDesc(s[1..]));
    }
  }

  /** The ranking is stable: entries with equal values keep their order in `s`. */
  lemma {:induction false} SortDescStable<K>(s: seq<(K, int)>, v: int)
    ensures WithValue(SortDesc(s), v) == WithValue(s, v)
  {
    if s != [] {
      SortDescStable(s[1..], v);
      InsertDescStable(s[0], SortDesc(s[1..]), v);
    }
  }

  /** The ranking is a permutation of `s`. */
  lemma {:induction false} SortDescPermutation<K>(s: seq<(K, int)>)
    ensures multiset(SortDesc(s)) == multiset(s)
  {
    if s != [] {
      SortDescPermutation(s[1..]);
      InsertDescMultiset(s[0], SortDesc(s[1..]));
      assert s == [s[0]] + s[1..];
    }
  }

  /** The first entry of `s` holding the largest value; the head of the ranking. */
  function FirstMax<K>(s: seq<(K, int)>): (r: (K, int))
    requires s != []
    ensures r in s
    ensures forall i :: 0 <= i < |s| ==> s[i].1 <= r.1
    ensures exists i :: 0 <= i < |s| && s[i] == r && forall j :: 0 <= j < i ==> s[j].1 < r.1
  {
    if |s| == 1 then s[0]
    else
      var m := FirstMax(s[1..]);
      if s[0].1 >= m.1 then s[0] else m
  }

  /** The leading entry of a ranking is the earliest entry with the largest value. */
  lemma {:induction false} SortDescHead<K>(s: seq<(K, int)>)
    requires s != []
    ensures SortDesc(s)[0] == FirstMax(s)
  {
    if |s| > 1 {
      SortDescHead(s[1..]);
      var t := SortDesc(s[1..]);
      assert t[0] == FirstMax(s[1..]);
    }
  }

  /** The entries of `s` whose key satisfies `p`, in order (a list comprehension with a filter). */
  function FilterKeys<K>(s: seq<(K, int)>, p: K -> bool): (r: seq<(K, int)>)
    ensures |r| <= |s|
    ensures forall x :: x in r ==> x in s && p(x.0)
    ensures forall x :: x in s && p(x.0) ==> x in r
  {
    if s == [] then []
    else (if p(s[0].0) then [s[0]] else []) + FilterKeys(s[1..], p)
  }

  /** `s[:n]` */
  function Prefix<T>(s: seq<T>, n: nat): (r: seq<T>)
    ensures |r| == if |s| < n then |s| else n
    ensures forall i :: 0 <= i < |r| ==> r[i] == s[i]
  {
    if |s| <= n then s else s[..n]
  }
}
