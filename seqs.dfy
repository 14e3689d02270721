/** Order-preserving filters, first-occurrence lists and frequency tables over
    sequences: the shapes the fleet's list comprehensions, append loops and
    counter dictionaries build. Everything is defined from the back of the
    sequence, the way an append loop grows its result. */
module Seqs {

  /** The elements of `s` that satisfy `p`, in their order in `s`. */
  function Filter<T>(s: seq<T>, p: T -> bool): (r: seq<T>)
    ensures |r| <= |s|
  {
    if s == [] then []
    else Filter(s[..|s| - 1], p) + (if p(s[|s| - 1]) then [s[|s| - 1]] else [])
  }

  /** The filter keeps exactly the elements that satisfy `p`. */
  lemma {:induction false} FilterMembers<T>(s: seq<T>, p: T -> bool)
    ensures forall x :: x in Filter(s, p) <==> x in s && p(x)
  {
    if s != [] {
      var init := s[..|s| - 1];
      assert s == init + [s[|s| - 1]];
      FilterMembers(init, p);
    }
  }

  /** A filter nothing passes is empty. */
  lemma {:induction false} FilterNone<T>(s: seq<T>, p: T -> bool)
    requires forall i :: 0 <= i < |s| ==> !p(s[i])
    ensures Filter(s, p) == []
  {
    if s != [] {
      var init := s[..|s| - 1];
      assert forall i :: 0 <= i < |init| ==> init[i] == s[i];
      FilterNone(init, p);
    }
  }

  lemma FilterAppend<T>(s: seq<T>, x: T, p: T -> bool)
    ensures Filter(s + [x], p) == Filter(s, p) + (if p(x) then [x] else [])
  {
    assert (s + [x])[..|s|] == s;
  }

  /** `a` is `b` with some elements left out, the rest kept in order. */
  ghost predicate IsSubseq<T>(a: seq<T>, b: seq<T>)
    decreases |b|
  {
    a == [] ||
    (b != [] &&
     ((a[|a| - 1] == b[|b| - 1] && IsSubseq(a[..|a| - 1], b[..|b| - 1])) ||
      IsSubseq(a, b[..|b| - 1])))
  }

  lemma {:induction false} FilterIsSubseq<T>(s: seq<T>, p: T -> bool)
    ensures IsSubseq(Filter(s, p), s)
  {
    if s != [] {
      var init := s[..|s| - 1];
      FilterIsSubseq(init, p);
      var a := Filter(s, p);
      if p(s[|s| - 1]) {
        assert a[..|a| - 1] == Filter(init, p);
      } else {
        assert a == Filter(init, p);
      }
    }
  }

  /** A filter keeps the whole sequence exactly when every element passes. */
  lemma {:induction false} FilterAll<T>(s: seq<T>, p: T -> bool)
    requires forall i :: 0 <= i < |s| ==> p(s[i])
    ensures Filter(s, p) == s
  {
    if s != [] {
      var init := s[..|s| - 1];
      assert forall i :: 0 <= i < |init| ==> init[i] == s[i];
      FilterAll(init, p);
      assert s == init + [s[|s| - 1]];
    }
  }

  /** How many times `x` occurs in `s`. */
  function Occurrences<T(==)>(s: seq<T>, x: T): nat
  {
    if s == [] then 0
    else Occurrences(s[..|s| - 1], x) + (if s[|s| - 1] == x then 1 else 0)
  }

  lemma OccurrencesAppend<T>(s: seq<T>, y: T, x: T)
    ensures Occurrences(s + [y], x) == Occurrences(s, x) + (if y == x then 1 else 0)
  {
    assert (s + [y])[..|s|] == s;
  }

  /** A filter keeps every copy of a passing value and no copy of a failing one. */
  lemma {:induction false} FilterOccurrences<T>(s: seq<T>, p: T -> bool, x: T)
    ensures Occurrences(Filter(s, p), x) == if p(x) then Occurrences(s, x) else 0
  {
    if s != [] {
      var init, last := s[..|s| - 1], s[|s| - 1];
      FilterOccurrences(init, p, x);
      if p(last) {
        OccurrencesAppend(Filter(init, p), last, x);
      } else {
        assert Filter(s, p) == Filter(init, p);
      }
    }
  }

  lemma {:induction false} OccurrencesZero<T>(s: seq<T>, x: T)
    ensures Occurrences(s, x) == 0 <==> x !in s
  {
    if s != [] {
      var init := s[..|s| - 1];
      OccurrencesZero(init, x);
      assert s == init + [s[|s| - 1]];
    }
  }

  /** Two different values occur, together, at most as often as there are elements. */
  lemma {:induction false} OccurrencesOfTwo<T>(s: seq<T>, x: T, y: T)
    requires x != y
    ensures Occurrences(s, x) + Occurrences(s, y) <= |s|
  {
    if s != [] {
      OccurrencesOfTwo(s[..|s| - 1], x, y);
    }
  }

  ghost predicate NoDuplicates<T>(s: seq<T>) {
    forall i, j :: 0 <= i < j < |s| ==> s[i] != s[j]
  }

  /** The elements of `s`, each once, in order of first occurrence. */
  function Distinct<T(==,!new)>(s: seq<T>): (r: seq<T>)
    ensures NoDuplicates(r)
    ensures forall x :: x in r <==> x in s
  {
    if s == [] then []
    else
      var d := Distinct(s[..|s| - 1]);
      assert s == s[..|s| - 1] + [s[|s| - 1]];
      if s[|s| - 1] in d then d else d + [s[|s| - 1]]
  }

  lemma DistinctAppend<T(!new)>(s: seq<T>, x: T)
    ensures Distinct(s + [x]) == if x in Distinct(s) then Distinct(s) else Distinct(s) + [x]
  {
    assert (s + [x])[..|s|] == s;
  }

  /** The position of the first occurrence of `x` in `s`. */
  function FirstIndex<T(==)>(s: seq<T>, x: T): (r: nat)
    requires x in s
    ensures r < |s| && s[r] == x
    ensures forall j :: 0 <= j < r ==> s[j] != x
  {
    if s[0] == x then 0 else 1 + FirstIndex(s[1..], x)
  }

  /** A value already in `s` first occurs where it did before `y` was appended. */
  lemma FirstIndexAppend<T>(s: seq<T>, y: T, x: T)
    requires x in s
    ensures FirstIndex(s + [y], x) == FirstIndex(s, x)
  {
    assert (s + [y])[FirstIndex(s, x)] == x;
  }

  /** `Distinct(s)` is a subsequence of `s`. */
  lemma {:induction false} DistinctIsSubseq<T(!new)>(s: seq<T>)
    ensures IsSubseq(Distinct(s), s)
  {
    if s != [] {
      var init, last := s[..|s| - 1], s[|s| - 1];
      DistinctIsSubseq(init);
      var d, e := Distinct(s), Distinct(init);
      if last !in e {
        assert d[..|d| - 1] == e;
      }
    }
  }

  /** An element of `Distinct(s)` before another first occurs in `s` before it. */
  lemma {:induction false} DistinctKeepsOrder<T(!new)>(s: seq<T>, a: nat, b: nat)
    requires a < b < |Distinct(s)|
    ensures FirstIndex(s, Distinct(s)[a]) < FirstIndex(s, Distinct(s)[b])
  {
    var init, last := s[..|s| - 1], s[|s| - 1];
    assert s == init + [last];
    var d, e := Distinct(s), Distinct(init);
    if b < |e| {
      DistinctKeepsOrder(init, a, b);
      assert d[a] == e[a] && d[b] == e[b];
      FirstIndexAppend(init, last, e[a]);
      FirstIndexAppend(init, last, e[b]);
    } else {
      assert d[a] == e[a] && d[b] == last && last !in init;
      FirstIndexAppend(init, last, e[a]);
    }
  }

  /** `Distinct(s)` keeps the order of `s`: it is a subsequence of `s`, and
      one of its elements comes before another exactly when it first occurs
      earlier in `s`. */
  lemma DistinctOrder<T(!new)>(s: seq<T>)
    ensures IsSubseq(Distinct(s), s)
    ensures var d := Distinct(s);
            forall a, b :: 0 <= a < |d| && 0 <= b < |d| ==>
              (a < b <==> FirstIndex(s, d[a]) < FirstIndex(s, d[b]))
  {
    DistinctIsSubseq(s);
    var d := Distinct(s);
    forall a, b | 0 <= a < |d| && 0 <= b < |d|
      ensures a < b <==> FirstIndex(s, d[a]) < FirstIndex(s, d[b])
    {
      if a < b {
        DistinctKeepsOrder(s, a, b);
      } else if b < a {
        DistinctKeepsOrder(s, b, a);
      }
    }
  }

  /** A value of a duplicate-free list occurs in it once. */
  lemma {:induction false} OccurrencesInNoDuplicates<T>(ks: seq<T>, x: T)
    requires NoDuplicates(ks) && x in ks
    ensures Occurrences(ks, x) == 1
  {
    var init := ks[..|ks| - 1];
    assert NoDuplicates(init);
    if ks[|ks| - 1] == x {
      assert x !in init;
      OccurrencesZero(init, x);
    } else {
      assert ks == init + [ks[|ks| - 1]];
      OccurrencesInNoDuplicates(init, x);
    }
  }

  /** `m[k]` summed over the keys `ks`, a key missing from `m` counting 0. */
  function SumOver<T>(ks: seq<T>, m: map<T, nat>): nat
  {
    if ks == [] then 0
    else SumOver(ks[..|ks| - 1], m) + (if ks[|ks| - 1] in m then m[ks[|ks| - 1]] else 0)
  }

  lemma SumOverAppend<T>(ks: seq<T>, k: T, m: map<T, nat>)
    ensures SumOver(ks + [k], m) == SumOver(ks, m) + (if k in m then m[k] else 0)
  {
    assert (ks + [k])[..|ks|] == ks;
  }

  /** `t[x] = t.get(x, 0) + 1`. */
  function Inc<T>(t: map<T, nat>, x: T): map<T, nat> {
    t[x := (if x in t then t[x] else 0) + 1]
  }

  /** The frequency table of `s`, built the way a counting loop builds it:
      `t[x] = t.get(x, 0) + 1` for each element in turn. */
  function Tally<T(==)>(s: seq<T>): map<T, nat>
  {
    if s == [] then map[] else Inc(Tally(s[..|s| - 1]), s[|s| - 1])
  }

  /** What one loop step does to the table. */
  lemma TallyStep<T>(s: seq<T>, x: T)
    ensures Tally(s + [x]) == Inc(Tally(s), x)
  {
    assert (s + [x])[..|s|] == s;
  }

  /** The table holds exactly the values of `s`, each with the number of times it occurs. */
  lemma {:induction false} TallyIsOccurrences<T>(s: seq<T>)
    ensures forall x :: x in Tally(s) <==> x in s
    ensures forall x :: x in Tally(s) ==> Tally(s)[x] == Occurrences(s, x)
  {
    if s != [] {
      var init, y := s[..|s| - 1], s[|s| - 1];
      assert s == init + [y];
      TallyIsOccurrences(init);
      OccurrencesZero(init, y);
    }
  }

  /** Adding one element to `s` adds, to the sum over `ks`, the number of times
      that element occurs in `ks`. */
  lemma {:induction false} SumOverTallyAppend<T>(ks: seq<T>, s: seq<T>, x: T)
    ensures SumOver(ks, Tally(s + [x])) == SumOver(ks, Tally(s)) + Occurrences(ks, x)
  {
    if ks != [] {
      var init, k := ks[..|ks| - 1], ks[|ks| - 1];
      SumOverTallyAppend(init, s, x);
      TallyStep(s, x);
    }
  }

  /** The frequency table's keys are the distinct values. */
  lemma TallyKeys<T(!new)>(s: seq<T>)
    ensures Tally(s).Keys == set x | x in Distinct(s)
  {
    TallyIsOccurrences(s);
  }

  /** The frequency table's counts, summed over its keys, give the length of the sequence. */
  lemma {:induction false} TallySumsToLength<T(!new)>(s: seq<T>)
    ensures SumOver(Distinct(s), Tally(s)) == |s|
  {
    if s != [] {
      var init, x := s[..|s| - 1], s[|s| - 1];
      assert s == init + [x];
      TallySumsToLength(init);
      var d := Distinct(init);
      DistinctAppend(init, x);
      TallyStep(init, x);
      SumOverTallyAppend(d, init, x);
      if x in d {
        OccurrencesInNoDuplicates(d, x);
      } else {
        OccurrencesZero(d, x);
        TallyIsOccurrences(init);
        SumOverAppend(d, x, Tally(s));
      }
    }
  }
}
