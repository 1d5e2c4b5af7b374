/** The retrieval metrics evaluator of modules/information_retrieval_metrics.py.
    One ranked list of retrieved documents (duplicates kept, index 0 = top rank) is scored
    against a set of relevant documents. Every metric is computed in exact real arithmetic;
    the rank discount of nDCG (1 / log2(i + 2) in the source) is a parameter. */
module IrMetrics {

  /** No document occurs twice in the ranking. */
  ghost predicate NoDuplicates<T>(s: seq<T>)
  {
    forall i, j :: 0 <= i < j < |s| ==> s[i] != s[j]
  }

  /** The documents of a ranking, as a set. */
  ghost function Elems<T>(s: seq<T>): set<T>
  {
    set x | x in s
  }

  /** A rank discount that never grows with the rank, as 1 / log2(i + 2) does. */
  ghost predicate NonIncreasing(discount: nat -> real)
  {
    forall i: nat, j: nat :: i <= j ==> discount(j) <= discount(i)
  }

  /** A rank discount whose every value is positive, as 1 / log2(i + 2) is. */
  ghost predicate Positive(discount: nat -> real)
  {
    forall i: nat :: 0.0 < discount(i)
  }

  /** The list comprehension that precision and recall share: one entry for every ranked
      position whose document is relevant, in rank order (duplicates counted per position). */
  function RetrievedRelevant<T(==)>(retrieved: seq<T>, relevant: set<T>): (hits: seq<T>)
    ensures |hits| <= |retrieved|
    ensures forall i :: 0 <= i < |hits| ==> hits[i] in retrieved && hits[i] in relevant
    ensures forall i :: 0 <= i < |retrieved| && retrieved[i] in relevant ==> retrieved[i] in hits
    ensures |hits| == 0 <==> forall i :: 0 <= i < |retrieved| ==> retrieved[i] !in relevant
    ensures |hits| == |retrieved| <==> forall i :: 0 <= i < |retrieved| ==> retrieved[i] in relevant
  {
    if retrieved == [] then []
    else
      var front := retrieved[..|retrieved| - 1];
      var last := retrieved[|retrieved| - 1];
      assert retrieved == front + [last];
      var rest := RetrievedRelevant(front, relevant);
      if last in relevant then rest + [last] else rest
  }

  /** The hits count positions: a relevant document occurs in the hit list as often as it
      occurs in the ranking, and an irrelevant one not at all. */
  lemma {:induction false} RetrievedRelevantCounts<T>(retrieved: seq<T>, relevant: set<T>)
    ensures forall i :: 0 <= i < |retrieved| ==>
              multiset(RetrievedRelevant(retrieved, relevant))[retrieved[i]]
              == if retrieved[i] in relevant then multiset(retrieved)[retrieved[i]] else 0
  {
    if retrieved != [] {
      var front := retrieved[..|retrieved| - 1];
      var last := retrieved[|retrieved| - 1];
      assert retrieved == front + [last];
      assert multiset(retrieved) == multiset(front) + multiset{last};
      RetrievedRelevantCounts(front, relevant);
      forall i | 0 <= i < |retrieved|
        ensures multiset(RetrievedRelevant(retrieved, relevant))[retrieved[i]]
                == if retrieved[i] in relevant then multiset(retrieved)[retrieved[i]] else 0
      {
        var x := retrieved[i];
        if x !in front {
          assert multiset(front)[x] == 0;
          assert multiset(RetrievedRelevant(front, relevant))[x] == 0;
        } else {
          var j :| 0 <= j < |front| && front[j] == x;
        }
      }
    }
  }

  /** Harmonic mean of a precision and a recall, 0 when both are 0. */
  function F1(prec: real, rec: real): (f: real)
    ensures prec == 0.0 || rec == 0.0 ==> f == 0.0
    ensures 0.0 <= prec && 0.0 <= rec ==> 0.0 <= f
    ensures 0.0 < prec && 0.0 < rec ==> 0.0 < f
    ensures 0.0 <= prec <= 1.0 && 0.0 <= rec <= 1.0 ==> f <= 1.0
  {
    if prec + rec == 0.0 then 0.0
    else
      F1Bounds(prec, rec);
      2.0 * (prec * rec) / (prec + rec)
  }

  lemma F1Bounds(prec: real, rec: real)
    requires prec + rec != 0.0
    ensures prec == 0.0 || rec == 0.0 ==> 2.0 * (prec * rec) / (prec + rec) == 0.0
    ensures 0.0 <= prec && 0.0 <= rec ==> 0.0 <= 2.0 * (prec * rec) / (prec + rec)
    ensures 0.0 < prec && 0.0 < rec ==> 0.0 < 2.0 * (prec * rec) / (prec + rec)
    ensures 0.0 <= prec <= 1.0 && 0.0 <= rec <= 1.0 ==> 2.0 * (prec * rec) / (prec + rec) <= 1.0
  {
    var pr := prec * rec;
    if prec == 0.0 || rec == 0.0 {
      assert pr == 0.0;
    }
    if 0.0 <= prec && 0.0 <= rec {
      MulNonNegative(prec, rec);
      DivNonNegative(2.0 * pr, prec + rec);
    }
    if 0.0 < prec && 0.0 < rec {
      MulPositive(prec, rec);
      DivPositive(2.0 * pr, prec + rec);
    }
    if 0.0 <= prec <= 1.0 && 0.0 <= rec <= 1.0 {
      MulAtMost(prec, rec);
      MulAtMost(rec, prec);
      assert rec * prec == pr;
      assert pr <= prec && pr <= rec;
      assert 2.0 * pr <= prec + rec;
      assert 0.0 < prec + rec;
      DivAtMostOne(2.0 * pr, prec + rec);
    }
  }

  /** F1 does not depend on which of its arguments is the precision. */
  lemma F1Symmetric(prec: real, rec: real)
    ensures F1(prec, rec) == F1(rec, prec)
  {
    assert prec * rec == rec * prec;
  }

  /** The 0-based index of the first relevant document, or |retrieved| when there is none. */
  function FirstHit<T(==)>(retrieved: seq<T>, relevant: set<T>): (i: nat)
    ensures i <= |retrieved|
    ensures forall j :: 0 <= j < i ==> retrieved[j] !in relevant
    ensures i < |retrieved| ==> retrieved[i] in relevant
  {
    if retrieved == [] then 0
    else if retrieved[0] in relevant then 0
    else 1 + FirstHit(retrieved[1..], relevant)
  }

  /** Reciprocal rank of the first relevant document; 0 when no document is relevant. */
  function ReciprocalRank<T(==)>(retrieved: seq<T>, relevant: set<T>): (rr: real)
    ensures rr == 0.0 <==> forall i :: 0 <= i < |retrieved| ==> retrieved[i] !in relevant
    ensures 0.0 <= rr <= 1.0
    ensures rr == 1.0 <==> |retrieved| > 0 && retrieved[0] in relevant
    ensures forall i :: 0 <= i < |retrieved| && retrieved[i] in relevant
                        && (forall j :: 0 <= j < i ==> retrieved[j] !in relevant)
                        ==> rr == 1.0 / (i + 1) as real
  {
    var i := FirstHit(retrieved, relevant);
    if i < |retrieved| then 1.0 / (i + 1) as real else 0.0
  }

  /** Sum of discount(j) for j < n: the ideal DCG of n relevant documents. */
  function DiscountSum(discount: nat -> real, n: nat): real
  {
    if n == 0 then 0.0 else DiscountSum(discount, n - 1) + discount(n - 1)
  }

  /** Discounted cumulative gain with binary gain: discount(i) summed over the positions i
      whose document is relevant. */
  function Dcg<T(==)>(retrieved: seq<T>, relevant: set<T>, discount: nat -> real): real
  {
    if retrieved == [] then 0.0
    else
      Dcg(retrieved[..|retrieved| - 1], relevant, discount)
      + (if retrieved[|retrieved| - 1] in relevant then discount(|retrieved| - 1) else 0.0)
  }

  /** DCG normalised by the ideal DCG of |relevant| documents; 0 when the ideal DCG is 0. */
  function NdcgOf<T(==)>(retrieved: seq<T>, relevant: set<T>, discount: nat -> real): (score: real)
    ensures relevant == {} ==> score == 0.0
  {
    var idcg := DiscountSum(discount, |relevant|);
    if idcg == 0.0 then 0.0 else Dcg(retrieved, relevant, discount) / idcg
  }

  /** The running hit counter of the average-precision loop: the number of ranked positions
      whose document is relevant. */
  function HitCount<T(==)>(retrieved: seq<T>, relevant: set<T>): (n: nat)
    ensures n <= |retrieved|
  {
    if retrieved == [] then 0
    else
      HitCount(retrieved[..|retrieved| - 1], relevant)
      + if retrieved[|retrieved| - 1] in relevant then 1 else 0
  }

  /** The counter agrees with the hit list that precision and recall build. */
  lemma {:induction false} HitCountIsHits<T>(retrieved: seq<T>, relevant: set<T>)
    ensures HitCount(retrieved, relevant) == |RetrievedRelevant(retrieved, relevant)|
  {
    if retrieved != [] {
      HitCountIsHits(retrieved[..|retrieved| - 1], relevant);
    }
  }

  /** Running precision summed over the hit positions: at a hit at index i the number of
      hits so far divided by i + 1. */
  function ApSum<T(==)>(retrieved: seq<T>, relevant: set<T>): real
  {
    if retrieved == [] then 0.0
    else
      ApSum(retrieved[..|retrieved| - 1], relevant)
      + (if retrieved[|retrieved| - 1] in relevant
         then HitCount(retrieved, relevant) as real / |retrieved| as real
         else 0.0)
  }

  /** One more ranked position: the hit count of the longer prefix, in terms of the shorter
      one. */
  lemma HitsPrefixStep<T>(retrieved: seq<T>, relevant: set<T>, i: nat)
    requires i < |retrieved|
    ensures HitCount(retrieved[..i + 1], relevant)
            == HitCount(retrieved[..i], relevant) + if retrieved[i] in relevant then 1 else 0
  {
    var p := retrieved[..i + 1];
    assert p[..|p| - 1] == retrieved[..i];
    assert p[|p| - 1] == retrieved[i];
  }

  /** One more ranked position: the cumulative precision of the longer prefix, in terms of the
      shorter one. */
  lemma ApSumPrefixStep<T>(retrieved: seq<T>, relevant: set<T>, i: nat)
    requires i < |retrieved|
    ensures ApSum(retrieved[..i + 1], relevant)
            == ApSum(retrieved[..i], relevant)
               + if retrieved[i] in relevant
                 then HitCount(retrieved[..i + 1], relevant) as real / (i + 1) as real
                 else 0.0
  {
    var p := retrieved[..i + 1];
    assert p[..|p| - 1] == retrieved[..i];
    assert p[|p| - 1] == retrieved[i];
  }

  /** Average precision: ApSum divided by the size of the whole relevant set, 0 without a
      hit. A hit puts a document in relevant, so the division is never by zero. */
  function AveragePrecisionOf<T(==)>(retrieved: seq<T>, relevant: set<T>): (ap: real)
    ensures 0.0 <= ap
    ensures ap == 0.0 <==> forall i :: 0 <= i < |retrieved| ==> retrieved[i] !in relevant
  {
    HitCountIsHits(retrieved, relevant);
    if HitCount(retrieved, relevant) == 0 then 0.0
    else
      assert RetrievedRelevant(retrieved, relevant)[0] in relevant;
      ApSumSign(retrieved, relevant);
      ApSum(retrieved, relevant) / |relevant| as real
  }

  /** What one iteration of the average-precision loop does to its hit counter and its sum. */
  lemma AveragePrecisionLoopStep<T>(retrieved: seq<T>, relevant: set<T>, i: nat, count: nat, sum: real)
    requires i < |retrieved|
    requires count == HitCount(retrieved[..i], relevant) && sum == ApSum(retrieved[..i], relevant)
    ensures retrieved[i] in relevant ==>
              count + 1 == HitCount(retrieved[..i + 1], relevant)
              && sum + (count + 1) as real / (i + 1) as real == ApSum(retrieved[..i + 1], relevant)
    ensures retrieved[i] !in relevant ==>
              count == HitCount(retrieved[..i + 1], relevant)
              && sum == ApSum(retrieved[..i + 1], relevant)
  {
    HitsPrefixStep(retrieved, relevant, i);
    ApSumPrefixStep(retrieved, relevant, i);
  }

  /** Average precision in terms of the two sums the loop keeps. */
  lemma AveragePrecisionFromSums<T>(retrieved: seq<T>, relevant: set<T>)
    ensures HitCount(retrieved, relevant) == 0 ==> AveragePrecisionOf(retrieved, relevant) == 0.0
    ensures HitCount(retrieved, relevant) != 0 ==>
              0 < |relevant|
              && AveragePrecisionOf(retrieved, relevant) == ApSum(retrieved, relevant) / |relevant| as real
  {
    HitCountIsHits(retrieved, relevant);
    if HitCount(retrieved, relevant) != 0 {
      assert RetrievedRelevant(retrieved, relevant)[0] in relevant;
    }
  }

  /** The evaluator: both inputs are fixed at construction and never changed. */
  class InformationRetrievalMetrics<T(==)> {
    const retrieved: seq<T>
    const relevant: set<T>

    /** The relevant documents may be given as any collection; only their set is kept. */
    constructor (retrieved: seq<T>, relevant: seq<T>)
      ensures this.retrieved == retrieved
      ensures this.relevant == set x | x in relevant
    {
      this.retrieved := retrieved;
      this.relevant := set x | x in relevant;
    }

    /** Fraction of ranked positions whose document is relevant; 0 for an empty ranking. */
    function Precision(): (p: real)
      ensures retrieved == [] ==> p == 0.0
      ensures 0.0 <= p <= 1.0
      ensures p == 0.0 <==> forall i :: 0 <= i < |retrieved| ==> retrieved[i] !in relevant
      ensures p == 1.0 <==> retrieved != [] && forall i :: 0 <= i < |retrieved| ==> retrieved[i] in relevant
    {
      var retrievedRelevant := RetrievedRelevant(retrieved, relevant);
      if retrieved == [] then 0.0
      else
        CountRatio(|retrievedRelevant|, |retrieved|);
        |retrievedRelevant| as real / |retrieved| as real
    }

    /** Relevant positions of the ranking per relevant document; 0 for an empty relevant set. */
    function Recall(): (r: real)
      ensures relevant == {} ==> r == 0.0
      ensures 0.0 <= r
      ensures r == 0.0 <==> forall i :: 0 <= i < |retrieved| ==> retrieved[i] !in relevant
    {
      var retrievedRelevant := RetrievedRelevant(retrieved, relevant);
      if relevant == {} then 0.0
      else
        DivNonNegative(|retrievedRelevant| as real, |relevant| as real);
        if |retrievedRelevant| > 0 then
          DivPositive(|retrievedRelevant| as real, |relevant| as real);
          |retrievedRelevant| as real / |relevant| as real
        else
          |retrievedRelevant| as real / |relevant| as real
    }

    /** F1 of this evaluator's precision and recall. */
    function F1Score(): (f: real)
      ensures 0.0 <= f
      ensures f == 0.0 <==> forall i :: 0 <= i < |retrieved| ==> retrieved[i] !in relevant
    {
      F1(Precision(), Recall())
    }

    /** Scans the ranking and returns 1 / (index + 1) at the first relevant document. */
    method MeanReciprocalRank() returns (mrr: real)
      ensures mrr == ReciprocalRank(retrieved, relevant)
    {
      var index := 0;
      while index < |retrieved|
        invariant 0 <= index <= |retrieved|
        invariant forall j :: 0 <= j < index ==> retrieved[j] !in relevant
      {
        if retrieved[index] in relevant {
          return 1.0 / (index + 1) as real;
        }
        index := index + 1;
      }
      return 0.0;
    }

    /** Accumulates the DCG position by position, then normalises by the ideal DCG. */
    method Ndcg(discount: nat -> real) returns (score: real)
      ensures score == NdcgOf(retrieved, relevant, discount)
    {
      var dcg := 0.0;
      var i := 0;
      while i < |retrieved|
        invariant 0 <= i <= |retrieved|
        invariant dcg == Dcg(retrieved[..i], relevant, discount)
      {
        assert retrieved[..i + 1][..i] == retrieved[..i];
        if retrieved[i] in relevant {
          dcg := dcg + discount(i);
        }
        i := i + 1;
      }
      assert retrieved[..|retrieved|] == retrieved;
      var idcg := DiscountSum(discount, |relevant|);
      if idcg == 0.0 {
        return 0.0;
      }
      return dcg / idcg;
    }

    /** Accumulates the running precision at each hit, then divides by |relevant|. */
    method AveragePrecision() returns (ap: real)
      ensures ap == AveragePrecisionOf(retrieved, relevant)
    {
      var cumPrec := 0.0;
      var relevantRetrieved := 0;
      var i := 0;
      while i < |retrieved|
        invariant 0 <= i <= |retrieved|
        invariant relevantRetrieved == HitCount(retrieved[..i], relevant)
        invariant cumPrec == ApSum(retrieved[..i], relevant)
      {
        AveragePrecisionLoopStep(retrieved, relevant, i, relevantRetrieved, cumPrec);
        if retrieved[i] in relevant {
          relevantRetrieved := relevantRetrieved + 1;
          cumPrec := cumPrec + relevantRetrieved as real / (i + 1) as real;
        }
        i := i + 1;
      }
      assert retrieved[..|retrieved|] == retrieved;
      AveragePrecisionFromSums(retrieved, relevant);
      if relevantRetrieved == 0 {
        return 0.0;
      }
      return cumPrec / |relevant| as real;
    }
  }

  // ---------------------------------------------------------------------------------------
  // Lemmas about the metrics

  /** ApSum is never negative, and it is positive as soon as one position is a hit. */
  lemma {:induction false} ApSumSign<T>(retrieved: seq<T>, relevant: set<T>)
    ensures 0.0 <= ApSum(retrieved, relevant)
    ensures HitCount(retrieved, relevant) > 0 ==> 0.0 < ApSum(retrieved, relevant)
  {
    if retrieved != [] {
      var front := retrieved[..|retrieved| - 1];
      assert retrieved == front + [retrieved[|retrieved| - 1]];
      ApSumSign(front, relevant);
      var h := HitCount(retrieved, relevant);
      if retrieved[|retrieved| - 1] in relevant {
        DivPositive(h as real, |retrieved| as real);
      }
    }
  }

  /** Each summand of ApSum is at most 1, so ApSum is at most the number of hits. */
  lemma {:induction false} ApSumAtMostHits<T>(retrieved: seq<T>, relevant: set<T>)
    ensures ApSum(retrieved, relevant) <= HitCount(retrieved, relevant) as real
  {
    if retrieved != [] {
      var front := retrieved[..|retrieved| - 1];
      assert retrieved == front + [retrieved[|retrieved| - 1]];
      ApSumAtMostHits(front, relevant);
      var h := HitCount(retrieved, relevant);
      CountRatio(h, |retrieved|);
    }
  }

  /** In a ranking without duplicates, the hit positions hold distinct relevant documents. */
  lemma {:induction false} HitsCardinality<T>(retrieved: seq<T>, relevant: set<T>)
    requires NoDuplicates(retrieved)
    ensures |RetrievedRelevant(retrieved, relevant)| == |Elems(retrieved) * relevant|
  {
    if retrieved == [] {
      assert Elems(retrieved) * relevant == {};
    } else {
      var front := retrieved[..|retrieved| - 1];
      var last := retrieved[|retrieved| - 1];
      assert retrieved == front + [last];
      assert NoDuplicates(front);
      HitsCardinality(front, relevant);
      assert last !in Elems(front);
      assert Elems(retrieved) == Elems(front) + {last};
      if last in relevant {
        assert Elems(retrieved) * relevant == (Elems(front) * relevant) + {last};
      } else {
        assert Elems(retrieved) * relevant == Elems(front) * relevant;
      }
    }
  }

  lemma SubsetCardinality<T>(a: set<T>, b: set<T>)
    requires a <= b
    ensures |a| <= |b|
  {
    assert b == a + (b - a);
    assert a * (b - a) == {};
  }

  /** Without duplicates there are at most |relevant| hits. */
  lemma HitsAtMostRelevant<T>(retrieved: seq<T>, relevant: set<T>)
    requires NoDuplicates(retrieved)
    ensures |RetrievedRelevant(retrieved, relevant)| <= |relevant|
  {
    HitsCardinality(retrieved, relevant);
    SubsetCardinality(Elems(retrieved) * relevant, relevant);
  }

  /** Recall is at most 1 when the ranking has no duplicates. */
  lemma RecallAtMostOne<T>(m: InformationRetrievalMetrics<T>)
    requires NoDuplicates(m.retrieved)
    ensures m.Recall() <= 1.0
  {
    HitsAtMostRelevant(m.retrieved, m.relevant);
    if m.relevant != {} {
      CountRatio(|RetrievedRelevant(m.retrieved, m.relevant)|, |m.relevant|);
    }
  }

  /** With duplicates recall exceeds 1: every position of a repeated hit is counted. */
  lemma RecallCanExceedOne(m: InformationRetrievalMetrics<string>)
    requires m.retrieved == ["doc1", "doc1"] && m.relevant == {"doc1"}
    ensures m.Recall() == 2.0
  {
    assert RetrievedRelevant(m.retrieved, m.relevant) == ["doc1", "doc1"];
  }

  /** A ranking without duplicates that contains every relevant document has recall 1. */
  lemma RecallOneWhenAllRetrieved<T>(m: InformationRetrievalMetrics<T>)
    requires NoDuplicates(m.retrieved)
    requires m.relevant != {} && m.relevant <= Elems(m.retrieved)
    ensures m.Recall() == 1.0
  {
    HitsCardinality(m.retrieved, m.relevant);
    assert Elems(m.retrieved) * m.relevant == m.relevant;
    CountRatio(|m.relevant|, |m.relevant|);
  }

  /** F1 lies in [0, 1] when the ranking has no duplicates. */
  lemma F1ScoreAtMostOne<T>(m: InformationRetrievalMetrics<T>)
    requires NoDuplicates(m.retrieved)
    ensures 0.0 <= m.F1Score() <= 1.0
  {
    RecallAtMostOne(m);
  }

  /** Without hits the DCG is 0. */
  lemma {:induction false} DcgNoHits<T>(retrieved: seq<T>, relevant: set<T>, discount: nat -> real)
    requires forall i :: 0 <= i < |retrieved| ==> retrieved[i] !in relevant
    ensures Dcg(retrieved, relevant, discount) == 0.0
  {
    if retrieved != [] {
      DcgNoHits(retrieved[..|retrieved| - 1], relevant, discount);
    }
  }

  /** The ideal DCG is 0 exactly when the relevant set is empty, given a positive discount. */
  lemma {:induction false} DiscountSumPositive(discount: nat -> real, n: nat)
    requires Positive(discount)
    ensures DiscountSum(discount, n) == 0.0 <==> n == 0
    ensures 0.0 <= DiscountSum(discount, n)
  {
    if n > 0 {
      DiscountSumPositive(discount, n - 1);
      assert 0.0 < discount(n - 1);
    }
  }

  /** For a positive discount, the sum over more ranks is not smaller. */
  lemma {:induction false} DiscountSumMonotone(discount: nat -> real, a: nat, b: nat)
    requires Positive(discount)
    requires a <= b
    ensures DiscountSum(discount, a) <= DiscountSum(discount, b)
  {
    if a < b {
      DiscountSumMonotone(discount, a, b - 1);
      assert 0.0 < discount(b - 1);
    }
  }

  /** The DCG of a ranking is at most the ideal DCG of as many documents as it has hits,
      provided the discount never grows with the rank. */
  lemma {:induction false} DcgAtMostIdeal<T>(retrieved: seq<T>, relevant: set<T>, discount: nat -> real)
    requires NonIncreasing(discount)
    ensures Dcg(retrieved, relevant, discount)
            <= DiscountSum(discount, |RetrievedRelevant(retrieved, relevant)|)
  {
    if retrieved != [] {
      var front := retrieved[..|retrieved| - 1];
      var last := retrieved[|retrieved| - 1];
      assert retrieved == front + [last];
      DcgAtMostIdeal(front, relevant, discount);
      var h := |RetrievedRelevant(front, relevant)|;
      if last in relevant {
        assert h <= |front|;
        assert discount(|front|) <= discount(h);
      }
    }
  }

  /** The DCG is never negative for a positive discount. */
  lemma {:induction false} DcgNonNegative<T>(retrieved: seq<T>, relevant: set<T>, discount: nat -> real)
    requires Positive(discount)
    ensures 0.0 <= Dcg(retrieved, relevant, discount)
  {
    if retrieved != [] {
      DcgNonNegative(retrieved[..|retrieved| - 1], relevant, discount);
      assert 0.0 < discount(|retrieved| - 1);
    }
  }

  /** nDCG lies in [0, 1] for a ranking without duplicates and a positive discount that
      never grows with the rank. */
  lemma NdcgInUnitInterval<T>(retrieved: seq<T>, relevant: set<T>, discount: nat -> real)
    requires NoDuplicates(retrieved)
    requires Positive(discount) && NonIncreasing(discount)
    ensures 0.0 <= NdcgOf(retrieved, relevant, discount) <= 1.0
  {
    var hits := |RetrievedRelevant(retrieved, relevant)|;
    DcgAtMostIdeal(retrieved, relevant, discount);
    DcgNonNegative(retrieved, relevant, discount);
    HitsAtMostRelevant(retrieved, relevant);
    DiscountSumMonotone(discount, hits, |relevant|);
    DiscountSumPositive(discount, |relevant|);
    if relevant != {} {
      var idcg := DiscountSum(discount, |relevant|);
      DivNonNegative(Dcg(retrieved, relevant, discount), idcg);
      DivAtMostOne(Dcg(retrieved, relevant, discount), idcg);
    }
  }

  /** nDCG is the plain DCG ratio whenever the relevant set is not empty. */
  lemma NdcgIsRatio<T>(retrieved: seq<T>, relevant: set<T>, discount: nat -> real)
    requires Positive(discount)
    requires relevant != {}
    ensures DiscountSum(discount, |relevant|) > 0.0
    ensures NdcgOf(retrieved, relevant, discount)
            == Dcg(retrieved, relevant, discount) / DiscountSum(discount, |relevant|)
  {
    DiscountSumPositive(discount, |relevant|);
  }

  /** When the relevant documents sit exactly on the first k ranks, the DCG is the ideal DCG
      of min(k, |retrieved|) documents. */
  lemma {:induction false} DcgTopRanks<T>(retrieved: seq<T>, relevant: set<T>, discount: nat -> real, k: nat)
    requires forall i :: 0 <= i < |retrieved| ==> (retrieved[i] in relevant <==> i < k)
    ensures Dcg(retrieved, relevant, discount)
            == DiscountSum(discount, if k < |retrieved| then k else |retrieved|)
  {
    if retrieved != [] {
      var front := retrieved[..|retrieved| - 1];
      DcgTopRanks(front, relevant, discount, k);
    }
  }

  /** nDCG is 1 when the relevant documents occupy exactly the top |relevant| ranks, in any
      order among themselves. */
  lemma NdcgPerfectRanking<T>(retrieved: seq<T>, relevant: set<T>, discount: nat -> real)
    requires Positive(discount)
    requires relevant != {} && |relevant| <= |retrieved|
    requires forall i :: 0 <= i < |retrieved| ==> (retrieved[i] in relevant <==> i < |relevant|)
    ensures NdcgOf(retrieved, relevant, discount) == 1.0
  {
    DcgTopRanks(retrieved, relevant, discount, |relevant|);
    DiscountSumPositive(discount, |relevant|);
    DivSelf(DiscountSum(discount, |relevant|));
  }

  /** With a repeated relevant document nDCG exceeds 1. */
  lemma NdcgCanExceedOne(discount: nat -> real)
    requires Positive(discount)
    ensures NdcgOf(["doc1", "doc1"], {"doc1"}, discount) > 1.0
  {
    var s := ["doc1", "doc1"];
    assert s[..1] == ["doc1"] && s[..1][..0] == [];
    assert Dcg(s, {"doc1"}, discount) == discount(0) + discount(1);
    assert DiscountSum(discount, 1) == discount(0);
    assert 0.0 < discount(0) && 0.0 < discount(1);
    DivAboveOne(discount(0) + discount(1), discount(0));
  }

  /** Average precision is at most 1 when the ranking has no duplicates. */
  lemma AveragePrecisionAtMostOne<T>(retrieved: seq<T>, relevant: set<T>)
    requires NoDuplicates(retrieved)
    ensures AveragePrecisionOf(retrieved, relevant) <= 1.0
  {
    var hits := |RetrievedRelevant(retrieved, relevant)|;
    HitCountIsHits(retrieved, relevant);
    if hits > 0 {
      ApSumAtMostHits(retrieved, relevant);
      HitsAtMostRelevant(retrieved, relevant);
      assert RetrievedRelevant(retrieved, relevant)[0] in relevant;
      assert ApSum(retrieved, relevant) <= |relevant| as real;
      DivAtMostOne(ApSum(retrieved, relevant), |relevant| as real);
    }
  }

  /** A ranking that shares no document with the relevant set scores 0 on every metric. */
  lemma DisjointScoresZero<T>(m: InformationRetrievalMetrics<T>, discount: nat -> real)
    requires Elems(m.retrieved) !! m.relevant
    ensures m.Precision() == 0.0 && m.Recall() == 0.0 && m.F1Score() == 0.0
    ensures ReciprocalRank(m.retrieved, m.relevant) == 0.0
    ensures NdcgOf(m.retrieved, m.relevant, discount) == 0.0
    ensures AveragePrecisionOf(m.retrieved, m.relevant) == 0.0
  {
    assert forall i :: 0 <= i < |m.retrieved| ==> m.retrieved[i] !in m.relevant by {
      forall i | 0 <= i < |m.retrieved| ensures m.retrieved[i] !in m.relevant {
        assert m.retrieved[i] in Elems(m.retrieved);
      }
    }
    DcgNoHits(m.retrieved, m.relevant, discount);
  }

  /** The ranking and relevant set of the example run at the end of the source module. */
  const ExampleRetrieved: seq<string> := ["doc1", "doc2", "doc3", "doc4", "doc5"]
  const ExampleRelevant: set<string> := {"doc1", "doc3", "doc6", "doc7"}

  lemma ExampleHits()
    ensures RetrievedRelevant(ExampleRetrieved, ExampleRelevant) == ["doc1", "doc3"]
    ensures |RetrievedRelevant(ExampleRetrieved[..3], ExampleRelevant)| == 2
  {
    var rel := ExampleRelevant;
    var s1: seq<string> := ["doc1"];
    var s2: seq<string> := ["doc1", "doc2"];
    var s3: seq<string> := ["doc1", "doc2", "doc3"];
    var s4: seq<string> := ["doc1", "doc2", "doc3", "doc4"];
    assert s1[..0] == [];
    assert RetrievedRelevant(s1, rel) == ["doc1"];
    assert s2[..1] == s1;
    assert RetrievedRelevant(s2, rel) == ["doc1"];
    assert s3[..2] == s2;
    assert RetrievedRelevant(s3, rel) == ["doc1", "doc3"];
    assert s4[..3] == s3;
    assert RetrievedRelevant(s4, rel) == ["doc1", "doc3"];
    assert ExampleRetrieved[..4] == s4;
    assert ExampleRetrieved[..3] == s3;
  }

  lemma ExampleApSum()
    ensures ApSum(ExampleRetrieved, ExampleRelevant) == 1.0 + 2.0 / 3.0
  {
    var rel := ExampleRelevant;
    var s1: seq<string> := ["doc1"];
    var s2: seq<string> := ["doc1", "doc2"];
    var s3: seq<string> := ["doc1", "doc2", "doc3"];
    var s4: seq<string> := ["doc1", "doc2", "doc3", "doc4"];
    assert s1[..0] == [];
    assert HitCount(s1, rel) == 1;
    assert ApSum(s1, rel) == 1.0;
    assert s2[..1] == s1;
    assert ApSum(s2, rel) == 1.0;
    assert s3[..2] == s2;
    assert HitCount(s2, rel) == 1;
    assert HitCount(s3, rel) == 2;
    assert ApSum(s3, rel) == 1.0 + 2.0 / 3.0;
    assert s4[..3] == s3;
    assert ApSum(s4, rel) == 1.0 + 2.0 / 3.0;
    assert ExampleRetrieved[..4] == s4;
  }

  lemma ExampleDcg(discount: nat -> real)
    ensures Dcg(ExampleRetrieved, ExampleRelevant, discount) == discount(0) + discount(2)
  {
    var rel := ExampleRelevant;
    var s1: seq<string> := ["doc1"];
    var s2: seq<string> := ["doc1", "doc2"];
    var s3: seq<string> := ["doc1", "doc2", "doc3"];
    var s4: seq<string> := ["doc1", "doc2", "doc3", "doc4"];
    assert s1[..0] == [];
    assert Dcg(s1, rel, discount) == discount(0);
    assert s2[..1] == s1;
    assert Dcg(s2, rel, discount) == discount(0);
    assert s3[..2] == s2;
    assert Dcg(s3, rel, discount) == discount(0) + discount(2);
    assert s4[..3] == s3;
    assert Dcg(s4, rel, discount) == discount(0) + discount(2);
    assert ExampleRetrieved[..4] == s4;
  }

  lemma ExampleRelevantSize()
    ensures |ExampleRelevant| == 4
    ensures ExampleRetrieved[0] in ExampleRelevant
  {
  }

  /** The example run at the end of the source module: precision 2/5, recall 2/4 and
      F1 4/9. */
  lemma ModuleExampleSetScores(m: InformationRetrievalMetrics<string>)
    requires m.retrieved == ExampleRetrieved && m.relevant == ExampleRelevant
    ensures m.Precision() == 0.4
    ensures m.Recall() == 0.5
    ensures m.F1Score() == 4.0 / 9.0
  {
    ExampleHits();
    ExampleRelevantSize();
    assert m.Precision() == 2.0 / 5.0;
    assert m.Recall() == 2.0 / 4.0;
    assert F1(0.4, 0.5) == 4.0 / 9.0;
  }

  /** The same example under the rank-aware metrics: the top document is relevant, average
      precision is (1 + 2/3) / 4, and the DCG collects the discounts of ranks 0 and 2. */
  lemma ModuleExampleRankScores(m: InformationRetrievalMetrics<string>, discount: nat -> real)
    requires m.retrieved == ExampleRetrieved && m.relevant == ExampleRelevant
    ensures ReciprocalRank(m.retrieved, m.relevant) == 1.0
    ensures AveragePrecisionOf(m.retrieved, m.relevant) == 5.0 / 12.0
    ensures Positive(discount) ==>
      NdcgOf(m.retrieved, m.relevant, discount)
      == (discount(0) + discount(2)) / (discount(0) + discount(1) + discount(2) + discount(3))
  {
    assert ReciprocalRank(m.retrieved, m.relevant) == 1.0 by {
      ExampleRelevantSize();
    }
    assert AveragePrecisionOf(m.retrieved, m.relevant) == 5.0 / 12.0 by {
      ExampleHits();
      HitCountIsHits(m.retrieved, m.relevant);
      ExampleApSum();
      ExampleRelevantSize();
      assert AveragePrecisionOf(m.retrieved, m.relevant) == (1.0 + 2.0 / 3.0) / 4.0;
    }
    if Positive(discount) {
      ExampleDcg(discount);
      ExampleRelevantSize();
      assert DiscountSum(discount, 4) == discount(0) + discount(1) + discount(2) + discount(3);
      DiscountSumPositive(discount, 4);
    }
  }

  // ---------------------------------------------------------------------------------------
  // Small facts of real arithmetic, kept apart so that each is proved in a small context

  lemma MulNonNegative(a: real, b: real)
    requires 0.0 <= a && 0.0 <= b
    ensures 0.0 <= a * b
  {
    if a != 0.0 && b != 0.0 {
      MulPositive(a, b);
    }
  }

  lemma MulPositive(a: real, b: real)
    requires 0.0 < a && 0.0 < b
    ensures 0.0 < a * b
  {
  }

  lemma MulAtMost(a: real, b: real)
    requires 0.0 <= a && b <= 1.0
    ensures a * b <= a
  {
    assert a * b <= a * 1.0;
  }

  lemma DivNonNegative(a: real, b: real)
    requires 0.0 <= a && 0.0 < b
    ensures 0.0 <= a / b
  {
  }

  lemma DivPositive(a: real, b: real)
    requires 0.0 < a && 0.0 < b
    ensures 0.0 < a / b
  {
  }

  lemma DivAtMostOne(a: real, b: real)
    requires a <= b && 0.0 < b
    ensures a / b <= 1.0
  {
  }

  lemma DivSelf(a: real)
    requires a != 0.0
    ensures a / a == 1.0
  {
  }

  lemma DivAboveOne(a: real, b: real)
    requires b < a && 0.0 < b
    ensures 1.0 < a / b
  {
  }

  /** h / n for counts h <= n: in [0, 1], 0 exactly for h = 0 and 1 exactly for h = n. */
  lemma CountRatio(h: nat, n: nat)
    requires h <= n && 0 < n
    ensures 0.0 <= h as real / n as real <= 1.0
    ensures h as real / n as real == 0.0 <==> h == 0
    ensures h as real / n as real == 1.0 <==> h == n
  {
  }
}
