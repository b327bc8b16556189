/**
 Reciprocal rank fusion, over exact reals.
 */
module Fusion {

  type DocId = string

  datatype Ranking = Ranking(weight: real, docs: seq<DocId>)

  datatype Scored = Scored(doc: DocId, score: real)

  /** What rank `rank`, counted from zero, is worth. */
  function Worth(weight: real, k: real, rank: nat): real
    requires NoZeroDivisor(k)
  {
    weight / Divisor(k, rank)
  }

  function Divisor(k: real, rank: nat): real {
    k + rank as real + 1.0
  }

  /** No rank makes the formula divide by zero: every `k` but the negative whole numbers. */
  ghost predicate NoZeroDivisor(k: real) {
    forall rank: nat :: Divisor(k, rank) != 0.0
  }

  /** Rank `rank` is worth `minScore`, without dividing. */
  predicate IsWorth(weight: real, k: real, rank: nat, minScore: real) {
    weight >= minScore * (k + rank as real + 1.0)
  }

  /** What the first `n` ranks of one list give a document. */
  function ListScore(list: Ranking, n: nat, k: real, doc: DocId): real
    requires NoZeroDivisor(k) && n <= |list.docs|
  {
    if n == 0 then 0.0
    else ListScore(list, n - 1, k, doc) + if list.docs[n - 1] == doc then Worth(list.weight, k, n - 1) else 0.0
  }

  /** The sum over all occurrences in all lists. */
  function Score(lists: seq<Ranking>, k: real, doc: DocId): real
    requires NoZeroDivisor(k)
  {
    if lists == [] then 0.0
    else
      var last := lists[|lists| - 1];
      Score(lists[..|lists| - 1], k, doc) + ListScore(last, |last.docs|, k, doc)
  }

  predicate Appears(lists: seq<Ranking>, doc: DocId) {
    exists i :: 0 <= i < |lists| && doc in lists[i].docs
  }

  ghost predicate Descending(s: seq<Scored>) {
    forall i, j | 0 <= i < j < |s| :: s[i].score >= s[j].score
  }

  ghost predicate DistinctDocs(s: seq<Scored>) {
    forall i, j | 0 <= i < j < |s| :: s[i].doc != s[j].doc
  }

  /** Every document of the lists that scores enough, once, with its score, best first. */
  ghost predicate IsFusion(fused: seq<Scored>, lists: seq<Ranking>, k: real, minScore: real)
    requires NoZeroDivisor(k)
  {
    && Descending(fused)
    && DistinctDocs(fused)
    && forall x: Scored :: x in fused <==>
        Appears(lists, x.doc) && x.score == Score(lists, k, x.doc) && x.score >= minScore
  }

  // ---------------------------------------------------------------------------------------------
  // The order of the lists does not matter
  // ---------------------------------------------------------------------------------------------

  lemma {:induction false} ScoreConcat(a: seq<Ranking>, b: seq<Ranking>, k: real, doc: DocId)
    requires NoZeroDivisor(k)
    ensures Score(a + b, k, doc) == Score(a, k, doc) + Score(b, k, doc)
  {
    hide ListScore;
    if b == [] {
      assert a + b == a;
    } else {
      ScoreConcat(a, b[..|b| - 1], k, doc);
      assert (a + b)[..|a + b| - 1] == a + b[..|b| - 1];
    }
  }

  lemma ScoreOne(list: Ranking, k: real, doc: DocId)
    requires NoZeroDivisor(k)
    ensures Score([list], k, doc) == ListScore(list, |list.docs|, k, doc)
  {
    assert [list][..0] == [];
  }

  /** What scores are: none without a rank, and one more rank adds the list's weight over `k` plus that rank,
      counted from one, to its document and nothing to the others. */
  lemma RankIsWorth(weight: real, docs: seq<DocId>, next: DocId, k: real, doc: DocId)
    requires NoZeroDivisor(k)
    ensures Score([], k, doc) == 0.0 && Score([Ranking(weight, [])], k, doc) == 0.0
    ensures k + |docs| as real + 1.0 != 0.0
    ensures Score([Ranking(weight, docs + [next])], k, doc) ==
            Score([Ranking(weight, docs)], k, doc) + if doc == next then weight / (k + |docs| as real + 1.0) else 0.0
  {
    assert Divisor(k, |docs|) != 0.0;
    ScoreOne(Ranking(weight, []), k, doc);
    ScoreOne(Ranking(weight, docs), k, doc);
    ScoreOne(Ranking(weight, docs + [next]), k, doc);
    ScoreOfPrefix(weight, docs, next, |docs|, k, doc);
  }

  lemma {:induction false} ScoreOfPrefix(weight: real, docs: seq<DocId>, next: DocId, n: nat, k: real, doc: DocId)
    requires NoZeroDivisor(k) && n <= |docs|
    ensures ListScore(Ranking(weight, docs + [next]), n, k, doc) == ListScore(Ranking(weight, docs), n, k, doc)
  {
    hide Worth;
    if n > 0 {
      ScoreOfPrefix(weight, docs, next, n - 1, k, doc);
    }
  }

  /** Taking a list out takes out what it gave. */
  lemma ScoreWithout(lists: seq<Ranking>, i: nat, k: real, doc: DocId)
    requires NoZeroDivisor(k) && i < |lists|
    ensures Score(lists, k, doc) == Score(lists[..i] + lists[i + 1..], k, doc) + Score([lists[i]], k, doc)
  {
    hide Score;
    assert lists == lists[..i] + ([lists[i]] + lists[i + 1..]);
    ScoreConcat(lists[..i], [lists[i]] + lists[i + 1..], k, doc);
    ScoreConcat([lists[i]], lists[i + 1..], k, doc);
    ScoreConcat(lists[..i], lists[i + 1..], k, doc);
  }

  lemma {:induction false} ScoreIgnoresOrder(a: seq<Ranking>, b: seq<Ranking>, k: real, doc: DocId)
    requires NoZeroDivisor(k) && multiset(a) == multiset(b)
    ensures Score(a, k, doc) == Score(b, k, doc)
    decreases |a|
  {
    hide Score;
    if a == [] {
      assert |multiset(b)| == 0;
    } else {
      var n := |a| - 1;
      assert a[n] in multiset(b);
      var i: nat :| i < |b| && b[i] == a[n];
      SameRest(a, b, i);
      ScoreIgnoresOrder(a[..n], b[..i] + b[i + 1..], k, doc);
      ScoreWithout(b, i, k, doc);
      assert a == a[..n] + [a[n]];
      ScoreConcat(a[..n], [a[n]], k, doc);
    }
  }

  lemma SameRest(a: seq<Ranking>, b: seq<Ranking>, i: nat)
    requires multiset(a) == multiset(b) && a != [] && i < |b| && b[i] == a[|a| - 1]
    ensures multiset(a[..|a| - 1]) == multiset(b[..i] + b[i + 1..])
  {
    MultisetWithout(a, |a| - 1);
    MultisetWithout(b, i);
    assert a[..|a| - 1] + a[|a|..] == a[..|a| - 1];
  }

  lemma MultisetWithout(s: seq<Ranking>, i: nat)
    requires i < |s|
    ensures multiset(s[..i] + s[i + 1..]) == multiset(s) - multiset{s[i]}
  {
    assert s == s[..i] + ([s[i]] + s[i + 1..]);
  }

  /** Fusing the same lists in another order keeps the same documents with the same scores. */
  lemma FusionIgnoresOrder(a: seq<Ranking>, b: seq<Ranking>, k: real, minScore: real, x: seq<Scored>, y: seq<Scored>)
    requires NoZeroDivisor(k) && multiset(a) == multiset(b)
    requires IsFusion(x, a, k, minScore) && IsFusion(y, b, k, minScore)
    ensures forall s: Scored :: s in x <==> s in y
  {
    hide Score, Appears, Descending, DistinctDocs;
    forall s: Scored ensures s in x <==> s in y {
      ScoreIgnoresOrder(a, b, k, s.doc);
      AppearsIgnoresOrder(a, b, s.doc);
      AppearsIgnoresOrder(b, a, s.doc);
    }
  }

  lemma AppearsIgnoresOrder(a: seq<Ranking>, b: seq<Ranking>, doc: DocId)
    requires multiset(a) == multiset(b)
    ensures Appears(a, doc) ==> Appears(b, doc)
  {
    if Appears(a, doc) {
      var i :| 0 <= i < |a| && doc in a[i].docs;
      assert a[i] in multiset(a);
      assert a[i] in b;
    }
  }

  // ---------------------------------------------------------------------------------------------
  // One list
  // ---------------------------------------------------------------------------------------------

  lemma {:induction false} NotInPrefix(list: Ranking, n: nat, k: real, doc: DocId)
    requires NoZeroDivisor(k) && n <= |list.docs| && doc !in list.docs[..n]
    ensures ListScore(list, n, k, doc) == 0.0
  {
    if n > 0 {
      assert list.docs[..n][n - 1] == list.docs[n - 1];
      assert doc !in list.docs[..n - 1] by {
        assert forall j | 0 <= j < n - 1 :: list.docs[..n - 1][j] == list.docs[..n][j];
      }
      NotInPrefix(list, n - 1, k, doc);
    }
  }

  ghost predicate NoneTwice(docs: seq<DocId>) {
    forall i, j | 0 <= i < j < |docs| :: docs[i] != docs[j]
  }

  lemma {:induction false} ScoreInOneList(list: Ranking, n: nat, k: real, r: nat)
    requires NoZeroDivisor(k) && NoneTwice(list.docs) && r < n <= |list.docs|
    ensures ListScore(list, n, k, list.docs[r]) == Worth(list.weight, k, r)
    decreases n
  {
    hide Worth;
    if r == n - 1 {
      NotInPrefix(list, n - 1, k, list.docs[r]);
    } else {
      ScoreInOneList(list, n - 1, k, r);
    }
  }

  lemma WorthFalls(weight: real, k: real, i: nat, j: nat)
    requires NoZeroDivisor(k) && k > -1.0 && weight > 0.0 && i < j
    ensures Worth(weight, k, i) > Worth(weight, k, j) > 0.0
  {
    var x, y := Divisor(k, i), Divisor(k, j);
    assert x < y;
    Quotient(weight, x);
    Quotient(weight, y);
    QuotientFalls(weight / x, x, weight / y, y);
  }

  lemma Quotient(w: real, x: real)
    requires x > 0.0
    ensures (w / x) * x == w
  {
  }

  lemma QuotientFalls(a: real, x: real, b: real, y: real)
    requires a * x == b * y > 0.0 && 0.0 < x < y
    ensures a > b > 0.0
  {
    TimesPositive(b, 0.0, y);
    TimesPositive(y, x, b);
    TimesPositive(a, b, x);
  }

  lemma WorthAtLeast(weight: real, k: real, r: nat, minScore: real)
    requires NoZeroDivisor(k) && Divisor(k, r) > 0.0
    ensures Worth(weight, k, r) >= minScore <==> IsWorth(weight, k, r, minScore)
  {
    var x := Divisor(k, r);
    assert x == k + r as real + 1.0;
    hide Divisor;
    Quotient(weight, x);
    TimesPositive(weight / x, minScore, x);
  }

  lemma TimesPositive(a: real, b: real, x: real)
    requires x > 0.0
    ensures a >= b <==> a * x >= b * x
  {
    assert (a - b) * x == a * x - b * x;
  }

  ghost predicate Falling(s: seq<Scored>) {
    forall i, j | 0 <= i < j < |s| :: s[i].score > s[j].score
  }

  lemma SamePrefix(x: seq<Scored>, y: seq<Scored>, n: nat)
    requires n <= |x| && n <= |y| && x[..n] == y[..n]
    ensures forall i | 0 <= i < n :: x[i] == y[i]
  {
    assert forall i | 0 <= i < n :: x[..n][i] == y[..n][i];
  }

  lemma {:induction false} FallingAgrees(x: seq<Scored>, y: seq<Scored>, n: nat)
    requires Falling(x) && Falling(y) && n <= |x| && forall s: Scored :: s in x <==> s in y
    ensures n <= |y| && x[..n] == y[..n]
  {
    if n > 0 {
      FallingAgrees(x, y, n - 1);
      SamePrefix(x, y, n - 1);
      assert x[n - 1] in y;
      var i: nat :| i < |y| && y[i] == x[n - 1];
      assert i >= n - 1;
      assert y[n - 1] in x;
      var j: nat :| j < |x| && x[j] == y[n - 1];
      assert j >= n - 1;
      assert x[..n] == x[..n - 1] + [x[n - 1]] && y[..n] == y[..n - 1] + [y[n - 1]];
    }
  }

  /** How many ranks are worth at least `minScore`. */
  function Enough(weight: real, k: real, n: nat, minScore: real): (m: nat)
    requires NoZeroDivisor(k)
    ensures m <= n && (m > 0 ==> Worth(weight, k, m - 1) >= minScore)
    ensures forall r: nat | m <= r < n :: Worth(weight, k, r) < minScore
  {
    if n == 0 || Worth(weight, k, n - 1) >= minScore then n else Enough(weight, k, n - 1, minScore)
  }

  function Expected(list: Ranking, k: real, m: nat): (e: seq<Scored>)
    requires NoZeroDivisor(k) && m <= |list.docs|
    ensures |e| == m && forall r | 0 <= r < m :: e[r] == Scored(list.docs[r], Worth(list.weight, k, r))
  {
    seq(m, r requires 0 <= r < m => Scored(list.docs[r], Worth(list.weight, k, r)))
  }

  lemma ExpectedFalls(list: Ranking, k: real, m: nat)
    requires NoZeroDivisor(k) && k > -1.0 && m <= |list.docs| && list.weight > 0.0
    ensures Falling(Expected(list, k, m))
  {
    hide Worth;
    forall i, j | 0 <= i < j < m ensures Worth(list.weight, k, i) > Worth(list.weight, k, j) {
      WorthFalls(list.weight, k, i, j);
    }
  }

  /** `x` is the document of rank `r`, with what that rank is worth, and that is enough. */
  ghost predicate KeptAt(list: Ranking, k: real, minScore: real, r: nat, x: Scored)
    requires NoZeroDivisor(k)
  {
    && r < |list.docs|
    && k + r as real + 1.0 != 0.0
    && x == Scored(list.docs[r], list.weight / (k + r as real + 1.0))
    && x.score >= minScore
  }

  lemma KeptIsWorth(list: Ranking, k: real, minScore: real, r: nat, x: Scored)
    requires NoZeroDivisor(k)
    ensures KeptAt(list, k, minScore, r, x) <==>
              r < |list.docs| && x == Scored(list.docs[r], Worth(list.weight, k, r)) && x.score >= minScore
  {
    assert Divisor(k, r) != 0.0;
  }

  /** One list without repetitions, whatever the weight: exactly the ranks worth the minimum are kept. */
  lemma OneListKeepsWorthy(list: Ranking, k: real, minScore: real, fused: seq<Scored>, x: Scored)
    requires NoZeroDivisor(k) && NoneTwice(list.docs) && IsFusion(fused, [list], k, minScore)
    ensures x in fused <==> exists r: nat :: KeptAt(list, k, minScore, r, x)
  {
    hide Worth, Score, ListScore, Descending, DistinctDocs, NoneTwice, KeptAt;
    forall r: nat ensures KeptAt(list, k, minScore, r, x) <==>
      r < |list.docs| && x == Scored(list.docs[r], Worth(list.weight, k, r)) && x.score >= minScore
    {
      KeptIsWorth(list, k, minScore, r, x);
    }
    ScoreOne(list, k, x.doc);
    assert Appears([list], x.doc) <==> x.doc in list.docs by {
      assert [list][0] == list;
    }
    if x in fused {
      var r: nat :| r < |list.docs| && list.docs[r] == x.doc;
      ScoreInOneList(list, |list.docs|, k, r);
      assert KeptAt(list, k, minScore, r, x);
    }
    if r: nat :| KeptAt(list, k, minScore, r, x) {
      ScoreInOneList(list, |list.docs|, k, r);
    }
  }

  lemma ExpectedIsKept(list: Ranking, k: real, minScore: real, fused: seq<Scored>, x: Scored)
    requires NoZeroDivisor(k) && k > -1.0 && list.weight > 0.0
    requires NoneTwice(list.docs) && IsFusion(fused, [list], k, minScore)
    ensures x in fused <==> x in Expected(list, k, Enough(list.weight, k, |list.docs|, minScore))
  {
    hide Worth, IsFusion, NoneTwice, KeptAt;
    var m := Enough(list.weight, k, |list.docs|, minScore);
    var e := Expected(list, k, m);
    OneListKeepsWorthy(list, k, minScore, fused, x);
    forall r: nat ensures KeptAt(list, k, minScore, r, x) <==>
      r < |list.docs| && x == Scored(list.docs[r], Worth(list.weight, k, r)) && x.score >= minScore
    {
      KeptIsWorth(list, k, minScore, r, x);
    }
    if x in e {
      var r: nat :| r < m && e[r] == x;
      if r + 1 < m {
        WorthFalls(list.weight, k, r, m - 1);
      }
      assert KeptAt(list, k, minScore, r, x);
    }
    if r: nat :| KeptAt(list, k, minScore, r, x) {
      assert e[r] == x;
    }
  }

  lemma FusionFalls(list: Ranking, k: real, minScore: real, fused: seq<Scored>)
    requires NoZeroDivisor(k) && k > -1.0 && list.weight > 0.0 && NoneTwice(list.docs) &&
            IsFusion(fused, [list], k, minScore)
    ensures Falling(fused)
  {
    hide Worth, Score, ListScore, NoneTwice;
    forall i, j | 0 <= i < j < |fused| ensures fused[i].score > fused[j].score {
      var a := RankOf(list, k, minScore, fused, i);
      var b := RankOf(list, k, minScore, fused, j);
      assert fused[i].doc != fused[j].doc && fused[i].score >= fused[j].score;
      if b < a {
        WorthFalls(list.weight, k, b, a);
      } else {
        WorthFalls(list.weight, k, a, b);
      }
    }
  }

  lemma RankOf(list: Ranking, k: real, minScore: real, fused: seq<Scored>, i: nat) returns (r: nat)
    requires NoZeroDivisor(k) && NoneTwice(list.docs) && IsFusion(fused, [list], k, minScore) && i < |fused|
    ensures r < |list.docs| && fused[i] == Scored(list.docs[r], Worth(list.weight, k, r))
  {
    hide Worth, Score, ListScore, Descending, DistinctDocs, NoneTwice;
    var x := fused[i];
    assert x in fused;
    ScoreOne(list, k, x.doc);
    assert x.doc in list.docs;
    r :| 0 <= r < |list.docs| && list.docs[r] == x.doc;
    ScoreInOneList(list, |list.docs|, k, r);
  }

  /** The documents kept are the first of the list, in its order. */
  ghost predicate IsPrefixOf(fused: seq<Scored>, list: Ranking) {
    |fused| <= |list.docs| && forall r: nat | r < |fused| :: fused[r].doc == list.docs[r]
  }

  /** One list without repetitions and with positive divisors: fusing keeps its first ranks, in order, as long as
      they are worth the minimum. */
  lemma OneListKeepsPrefix(list: Ranking, k: real, minScore: real, fused: seq<Scored>)
    requires NoZeroDivisor(k) && list.weight > 0.0 && NoneTwice(list.docs) && IsFusion(fused, [list], k, minScore)
    ensures k > -1.0 ==> IsPrefixOf(fused, list)
    ensures k > -1.0 ==> forall r: nat | r < |list.docs| :: r < |fused| <==> IsWorth(list.weight, k, r, minScore)
  {
    hide Worth, IsFusion, NoneTwice;
    if k > -1.0 {
      var m := Enough(list.weight, k, |list.docs|, minScore);
      var e := Expected(list, k, m);
      ExpectedFalls(list, k, m);
      FusionFalls(list, k, minScore, fused);
      forall x: Scored ensures x in fused <==> x in e {
        ExpectedIsKept(list, k, minScore, fused, x);
      }
      FallingAgrees(fused, e, |fused|);
      FallingAgrees(e, fused, |e|);
      assert fused == fused[..|fused|] == e[..|fused|] == e;
      forall r: nat | r < |list.docs| ensures r < |fused| <==> IsWorth(list.weight, k, r, minScore) {
        WorthAtLeast(list.weight, k, r, minScore);
        if r + 1 < m {
          WorthFalls(list.weight, k, r, m - 1);
        }
      }
    }
  }

  /** Fusing any one list keeps a prefix of it. */
  ghost predicate AlwaysPrefix(k: real)
    requires NoZeroDivisor(k)
  {
    forall list: Ranking, minScore: real, fused: seq<Scored> |
      list.weight > 0.0 && minScore > 0.0 && NoneTwice(list.docs) && IsFusion(fused, [list], k, minScore) ::
      IsPrefixOf(fused, list)
  }

  /** A single list is cut to a prefix for every list and threshold exactly when `k` is above -1: below, the first
      ranks count negatively and a later one can be the best. */
  lemma AlwaysPrefixIff(k: real)
    requires NoZeroDivisor(k)
    ensures AlwaysPrefix(k) <==> k > -1.0
  {
    hide IsFusion, IsPrefixOf;
    if k > -1.0 {
      forall list: Ranking, minScore: real, fused: seq<Scored> |
        list.weight > 0.0 && minScore > 0.0 && NoneTwice(list.docs) && IsFusion(fused, [list], k, minScore)
        ensures IsPrefixOf(fused, list)
      {
        OneListKeepsPrefix(list, k, minScore, fused);
      }
    } else {
      var list, minScore, fused := LateRankWins(k);
    }
  }

  /** So many different documents. */
  function Numbered(n: nat): (docs: seq<DocId>)
    ensures |docs| == n && NoneTwice(docs)
  {
    var docs := seq(n, i requires 0 <= i < n => seq(i, _ => 'a'));
    assert forall i, j | 0 <= i < j < n :: |docs[i]| != |docs[j]|;
    docs
  }

  /** A list of which only the last rank has a positive divisor, and reaches the threshold. */
  lemma LateRankWins(k: real) returns (list: Ranking, minScore: real, fused: seq<Scored>)
    requires NoZeroDivisor(k) && k <= -1.0
    ensures list.weight > 0.0 && minScore > 0.0 && NoneTwice(list.docs) && IsFusion(fused, [list], k, minScore)
    ensures !IsPrefixOf(fused, list)
  {
    assert Divisor(k, 0) != 0.0;
    var n: nat := (-(k + 1.0)).Floor + 1;
    list := Ranking(1.0, Numbered(n + 1));
    minScore := Worth(1.0, k, n);
    fused := [Scored(list.docs[n], minScore)];
    SignOfWorth(k, n);
    forall r: nat | r < n ensures Worth(1.0, k, r) < 0.0 {
      assert Divisor(k, r) != 0.0;
      SignOfWorth(k, r);
    }
    hide Worth, Divisor, NoZeroDivisor;
    forall x: Scored
      ensures x in fused <==> Appears([list], x.doc) && x.score == Score([list], k, x.doc) && x.score >= minScore
    {
      ScoreOne(list, k, x.doc);
      assert Appears([list], x.doc) <==> x.doc in list.docs by {
        assert [list][0] == list;
      }
      if x.doc in list.docs {
        var r: nat :| r < |list.docs| && list.docs[r] == x.doc;
        ScoreInOneList(list, n + 1, k, r);
      }
    }
  }

  lemma SignOfWorth(k: real, r: nat)
    requires NoZeroDivisor(k)
    ensures Worth(1.0, k, r) > 0.0 <==> Divisor(k, r) > 0.0
    ensures Worth(1.0, k, r) != 0.0
  {
    assert Divisor(k, r) != 0.0;
    hide Divisor;
    InverseSign(Divisor(k, r));
  }

  lemma InverseSign(d: real)
    requires d != 0.0
    ensures 1.0 / d != 0.0 && (1.0 / d > 0.0 <==> d > 0.0)
  {
    assert (1.0 / d) * d == 1.0;
  }

  // ---------------------------------------------------------------------------------------------
  // The loops
  // ---------------------------------------------------------------------------------------------

  function Insert(s: seq<Scored>, x: Scored): seq<Scored> {
    if s == [] then [x]
    else if s[0].score >= x.score then [s[0]] + Insert(s[1..], x)
    else [x] + s
  }

  /** A stable sort, best first. */
  function SortDescending(s: seq<Scored>): seq<Scored> {
    if s == [] then [] else Insert(SortDescending(s[..|s| - 1]), s[|s| - 1])
  }

  lemma {:induction false} InsertKeeps(s: seq<Scored>, x: Scored)
    ensures multiset(Insert(s, x)) == multiset(s) + multiset{x}
  {
    if s != [] {
      assert s == [s[0]] + s[1..];
      if s[0].score >= x.score {
        InsertKeeps(s[1..], x);
      }
    }
  }

  lemma {:induction false} InsertSorts(s: seq<Scored>, x: Scored)
    requires Descending(s)
    ensures Descending(Insert(s, x))
    ensures Insert(s, x) != [] && (Insert(s, x)[0] == x || (s != [] && Insert(s, x)[0] == s[0]))
  {
    if s != [] && s[0].score >= x.score {
      InsertSorts(s[1..], x);
      PutFirst(s[0], Insert(s[1..], x));
    } else if s != [] {
      PutFirst(x, s);
    }
  }

  lemma PutFirst(x: Scored, s: seq<Scored>)
    requires Descending(s) && (s != [] ==> x.score >= s[0].score)
    ensures Descending([x] + s)
  {
  }

  lemma {:induction false} SortKeeps(s: seq<Scored>)
    ensures multiset(SortDescending(s)) == multiset(s) && Descending(SortDescending(s))
  {
    hide Insert;
    if s != [] {
      var front, last := s[..|s| - 1], s[|s| - 1];
      SortKeeps(front);
      InsertKeeps(SortDescending(front), last);
      InsertSorts(SortDescending(front), last);
      hide Descending;
      assert s == front + [last];
    }
  }

  function Retained(s: seq<Scored>, minScore: real): seq<Scored> {
    if s == [] then []
    else Retained(s[..|s| - 1], minScore) + if s[|s| - 1].score >= minScore then [s[|s| - 1]] else []
  }

  lemma {:induction false} RetainedHas(s: seq<Scored>, minScore: real, x: Scored)
    ensures x in Retained(s, minScore) <==> x in s && x.score >= minScore
  {
    if s != [] {
      RetainedHas(s[..|s| - 1], minScore, x);
      assert s == s[..|s| - 1] + [s[|s| - 1]];
    }
  }

  lemma {:induction false} RetainedKeeps(s: seq<Scored>, minScore: real)
    requires Descending(s) && DistinctDocs(s)
    ensures Descending(Retained(s, minScore)) && DistinctDocs(Retained(s, minScore))
  {
    if s != [] {
      var n := |s| - 1;
      RetainedKeeps(s[..n], minScore);
      var front := Retained(s[..n], minScore);
      forall i | 0 <= i < |front| ensures front[i].score >= s[n].score && front[i].doc != s[n].doc {
        RetainedHas(s[..n], minScore, front[i]);
        var j :| 0 <= j < n && s[j] == front[i];
      }
    }
  }

  // Scores so far: all lists before one, and the first ranks of that one.

  lemma {:induction false} NoShowNoScore(lists: seq<Ranking>, k: real, doc: DocId)
    requires NoZeroDivisor(k) && !Appears(lists, doc)
    ensures Score(lists, k, doc) == 0.0
  {
    if lists != [] {
      var n := |lists| - 1;
      assert forall i | 0 <= i < n :: lists[..n][i] == lists[i];
      NoShowNoScore(lists[..n], k, doc);
      assert doc !in lists[n].docs && lists[n].docs[..|lists[n].docs|] == lists[n].docs;
      NotInPrefix(lists[n], |lists[n].docs|, k, doc);
    }
  }

  ghost predicate ScoredSoFar(scores: map<DocId, real>, lists: seq<Ranking>, list: Ranking, n: nat, k: real)
    requires NoZeroDivisor(k) && n <= |list.docs|
  {
    forall doc: DocId ::
      && (doc in scores <==> Appears(lists, doc) || doc in list.docs[..n])
      && (doc in scores ==> scores[doc] == Score(lists, k, doc) + ListScore(list, n, k, doc))
  }

  ghost predicate ScoredAll(scores: map<DocId, real>, lists: seq<Ranking>, k: real)
    requires NoZeroDivisor(k)
  {
    forall doc: DocId ::
      && (doc in scores <==> Appears(lists, doc))
      && (doc in scores ==> scores[doc] == Score(lists, k, doc))
  }

  lemma ScoredStarts(scores: map<DocId, real>, lists: seq<Ranking>, list: Ranking, k: real)
    requires NoZeroDivisor(k) && ScoredAll(scores, lists, k)
    ensures ScoredSoFar(scores, lists, list, 0, k)
  {
    hide Score, Appears;
  }

  lemma RankAdds(scores: map<DocId, real>, lists: seq<Ranking>, list: Ranking, n: nat, k: real)
    requires NoZeroDivisor(k) && n < |list.docs| && ScoredSoFar(scores, lists, list, n, k)
    ensures var doc := list.docs[n];
            var was := if doc in scores then scores[doc] else 0.0;
            ScoredSoFar(scores[doc := was + Worth(list.weight, k, n)], lists, list, n + 1, k)
  {
    hide Score, Worth, Appears;
    var doc := list.docs[n];
    assert list.docs[..n + 1] == list.docs[..n] + [doc];
    if doc !in scores {
      NoShowNoScore(lists, k, doc);
      NotInPrefix(list, n, k, doc);
    }
  }

  lemma ListIsDone(scores: map<DocId, real>, lists: seq<Ranking>, i: nat, k: real)
    requires NoZeroDivisor(k) && i < |lists| && ScoredSoFar(scores, lists[..i], lists[i], |lists[i].docs|, k)
    ensures ScoredAll(scores, lists[..i + 1], k)
  {
    hide ListScore;
    var list := lists[i];
    assert lists[..i + 1][..i] == lists[..i] && list.docs[..|list.docs|] == list.docs;
    forall doc: DocId ensures Appears(lists[..i + 1], doc) <==> Appears(lists[..i], doc) || doc in list.docs {
      AppearsNext(lists, i, doc);
    }
  }

  lemma AppearsNext(lists: seq<Ranking>, i: nat, doc: DocId)
    requires i < |lists|
    ensures Appears(lists[..i + 1], doc) <==> Appears(lists[..i], doc) || doc in lists[i].docs
  {
    if Appears(lists[..i + 1], doc) {
      var j :| 0 <= j <= i && doc in lists[..i + 1][j].docs;
      assert j < i ==> lists[..i][j] == lists[j];
    }
    if Appears(lists[..i], doc) {
      var j :| 0 <= j < i && doc in lists[..i][j].docs;
      assert lists[..i + 1][j] == lists[j];
    }
    assert lists[..i + 1][i] == lists[i];
  }

  /** The map's entries, in no particular order. */
  method Entries(scores: map<DocId, real>) returns (s: seq<Scored>)
    ensures DistinctDocs(s) && forall x: Scored :: x in s <==> x.doc in scores && scores[x.doc] == x.score
  {
    s := [];
    var left := scores.Keys;
    while left != {}
      invariant left <= scores.Keys && DistinctDocs(s)
      invariant forall x: Scored :: x in s <==> x.doc in scores && x.doc !in left && scores[x.doc] == x.score
      decreases left
    {
      var doc :| doc in left;
      assert forall i | 0 <= i < |s| :: s[i] in s && s[i].doc != doc;
      s := s + [Scored(doc, scores[doc])];
      left := left - {doc};
    }
  }

  lemma SortedIsDistinct(s: seq<Scored>, t: seq<Scored>)
    requires DistinctDocs(s) && multiset(s) == multiset(t)
    ensures DistinctDocs(t) && forall x: Scored :: x in t <==> x in s
  {
    forall x: Scored ensures x in t <==> x in s {
      assert x in t <==> x in multiset(t);
      assert x in s <==> x in multiset(s);
    }
    forall i, j | 0 <= i < j < |t| ensures t[i].doc != t[j].doc {
      assert t[i] in s && t[j] in s;
      if t[i].doc == t[j].doc {
        var a: nat :| a < |s| && s[a] == t[i];
        var b: nat :| b < |s| && s[b] == t[j];
        assert t[i] == t[j];
        TwiceInTwice(t, i, j);
        OnceInOnce(s, a);
      }
    }
  }

  lemma TwiceInTwice(t: seq<Scored>, i: nat, j: nat)
    requires i < j < |t| && t[i] == t[j]
    ensures multiset(t)[t[i]] >= 2
  {
    assert t == t[..j] + [t[j]] + t[j + 1..];
    assert t[..j][i] == t[i] && t[i] in multiset(t[..j]);
  }

  lemma OnceInOnce(s: seq<Scored>, a: nat)
    requires DistinctDocs(s) && a < |s|
    ensures multiset(s)[s[a]] == 1
  {
    assert s == s[..a] + [s[a]] + s[a + 1..];
    assert s[a] !in s[..a] && s[a] !in s[a + 1..];
    assert multiset(s) == multiset(s[..a]) + multiset{s[a]} + multiset(s[a + 1..]);
  }

  /** Fuse ranked lists. */
  method RrfFuse(lists: seq<Ranking>, k: real, minScore: real) returns (fused: seq<Scored>)
    requires NoZeroDivisor(k)
    ensures IsFusion(fused, lists, k, minScore)
  {
    hide ScoredAll, ScoredSoFar, Worth, SortDescending, Retained;
    var scores: map<DocId, real> := map[];
    NothingScored(k);
    assert lists[..0] == [];
    for i := 0 to |lists|
      invariant ScoredAll(scores, lists[..i], k)
    {
      var list := lists[i];
      ScoredStarts(scores, lists[..i], list, k);
      for rank := 0 to |list.docs|
        invariant ScoredSoFar(scores, lists[..i], list, rank, k)
      {
        var doc := list.docs[rank];
        RankAdds(scores, lists[..i], list, rank, k);
        scores := scores[doc := (if doc in scores then scores[doc] else 0.0) + Worth(list.weight, k, rank)];
      }
      ListIsDone(scores, lists, i, k);
    }
    assert lists[..|lists|] == lists;
    var entries := Entries(scores);
    var sorted := SortDescending(entries);
    SortKeeps(entries);
    SortedIsDistinct(entries, sorted);
    fused := Retained(sorted, minScore);
    RetainedIsFusion(scores, sorted, lists, k, minScore);
  }

  lemma NothingScored(k: real)
    requires NoZeroDivisor(k)
    ensures ScoredAll(map[], [], k)
  {
  }

  lemma RetainedIsFusion(scores: map<DocId, real>, sorted: seq<Scored>, lists: seq<Ranking>, k: real, minScore: real)
    requires NoZeroDivisor(k) && ScoredAll(scores, lists, k) && Descending(sorted) && DistinctDocs(sorted)
    requires forall x: Scored :: x in sorted <==> x.doc in scores && scores[x.doc] == x.score
    ensures IsFusion(Retained(sorted, minScore), lists, k, minScore)
  {
    hide Score, Appears, Descending, DistinctDocs, Retained;
    RetainedKeeps(sorted, minScore);
    forall x: Scored
      ensures x in Retained(sorted, minScore) <==>
              Appears(lists, x.doc) && x.score == Score(lists, k, x.doc) && x.score >= minScore
    {
      RetainedHas(sorted, minScore, x);
    }
  }
}
