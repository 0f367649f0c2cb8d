/**
 The bound on the number of topics, for the similarity the code uses. Cosines rule
 out what `Grouping` has to allow for: once there are two topics, no outcome can be
 opposite to both, so only a limit of one can be exceeded.
 */
module CosineBound {
  import opened Vectors
  import opened Grouping

  /**
   `_cosine_similarity` on vectors of equal length: zero if either has no length,
   otherwise the product divided by the two lengths, written without the division.
   */
  ghost predicate IsCosine(similarity: Similarity, sqrt: real -> real) {
    && IsSquareRoot(sqrt)
    && forall a: Embedding, b: Embedding :: |a| == |b| ==> CosineOf(a, b, similarity(a, b), sqrt)
  }

  ghost predicate CosineOf(a: Embedding, b: Embedding, value: real, sqrt: real -> real) {
    if Dot(a, a) <= 0.0 || Dot(b, b) <= 0.0 then value == 0.0
    else Times(value, Times(Length(a, sqrt), Length(b, sqrt))) == Dot(a, b)
  }

  /** Not of the same direction; a vector without length has none. */
  ghost predicate Apart(a: Embedding, b: Embedding, sqrt: real -> real) {
    || Dot(a, a) <= 0.0 || Dot(b, b) <= 0.0
    || Dot(a, b) < Times(Length(a, sqrt), Length(b, sqrt))
  }

  /** Exactly opposite directions, in terms that a caller can compute. */
  predicate Opposed(a: Embedding, b: Embedding) {
    Dot(a, b) < 0.0 && Times(Dot(a, b), Dot(a, b)) >= Times(Dot(a, a), Dot(b, b))
  }

  lemma {:induction false} ApartCommutes(a: Embedding, b: Embedding, sqrt: real -> real)
    ensures Apart(a, b, sqrt) == Apart(b, a, sqrt)
  {
    DotCommutes(a, b);
    TimesCommutes(Length(a, sqrt), Length(b, sqrt));
  }

  /** What a cosine says, for vectors that have a length. */
  lemma {:induction false} CosineBounds(a: Embedding, b: Embedding, value: real, sqrt: real -> real)
    requires IsSquareRoot(sqrt) && CosineOf(a, b, value, sqrt) && Dot(a, a) > 0.0 && Dot(b, b) > 0.0
    ensures var lengths := Times(Length(a, sqrt), Length(b, sqrt));
            && lengths > 0.0
            && (value < 1.0 <==> Dot(a, b) < lengths)
            && (value <= -1.0 <==> Dot(a, b) <= -lengths)
            && (value <= 0.0 <==> Dot(a, b) <= 0.0)
  {
    LengthSquared(a, sqrt);
    LengthSquared(b, sqrt);
    TimesPositive(Length(a, sqrt), Length(b, sqrt));
    var lengths := Times(Length(a, sqrt), Length(b, sqrt));
    TimesCancels(value, 1.0, lengths);
    TimesCancels(-1.0, value, lengths);
    TimesCancels(0.0, value, lengths);
    TimesCommutes(1.0, lengths);
    TimesCommutes(-1.0, lengths);
    TimesCommutes(0.0, lengths);
    TimesDistributes(lengths, 1.0, 0.0);
  }

  lemma {:induction false} Regroup(q: real, v: real, l: real, p: real)
    ensures Times(q, Times(v, Times(l, p))) == Times(v, Times(l, Times(p, q)))
  {
    TimesCommutes(q, Times(v, Times(l, p)));
    TimesAssociates(v, Times(l, p), q);
    TimesAssociates(l, p, q);
  }

  /** Being at least as similar, without the length of the vector that is compared. */
  lemma {:induction false} MoreSimilar(
    e: Embedding, a: Embedding, b: Embedding, toA: real, toB: real, sqrt: real -> real)
    requires IsSquareRoot(sqrt) && CosineOf(e, a, toA, sqrt) && CosineOf(e, b, toB, sqrt) && toA >= toB
    requires Dot(e, e) > 0.0 && Dot(a, a) > 0.0 && Dot(b, b) > 0.0
    ensures Times(Length(b, sqrt), Dot(e, a)) >= Times(Length(a, sqrt), Dot(e, b))
  {
    var l, p, q := Length(e, sqrt), Length(a, sqrt), Length(b, sqrt);
    LengthSquared(e, sqrt);
    LengthSquared(a, sqrt);
    LengthSquared(b, sqrt);
    TimesPositive(p, q);
    TimesPositive(l, Times(p, q));
    var all := Times(l, Times(p, q));
    Regroup(q, toA, l, p);
    Regroup(p, toB, l, q);
    TimesCommutes(p, q);
    TimesCancels(toB, toA, all);
  }

  /** What a topic becomes when `e` joins it stays apart from the topics it resembles less. */
  lemma {:induction false} JoinedStaysApart(
    e: Embedding, a: Embedding, b: Embedding, toA: real, toB: real, sqrt: real -> real)
    requires IsSquareRoot(sqrt) && |e| == |a| == |b| && Apart(a, b, sqrt)
    requires CosineOf(e, a, toA, sqrt) && CosineOf(e, b, toB, sqrt) && toA >= toB
    ensures Apart(Combine(1.0, a, 1.0, e), b, sqrt)
  {
    NormIsNotNegative(e);
    NormIsNotNegative(a);
    var sum := Combine(1.0, a, 1.0, e);
    if Dot(sum, sum) > 0.0 && Dot(b, b) > 0.0 {
      if Dot(e, e) == 0.0 {
        NothingJoins(e, a, b, sqrt);
      } else if Dot(a, a) == 0.0 {
        CosineBounds(e, b, toB, sqrt);
        FirstJoins(e, a, b, sqrt);
      } else {
        MoreSimilar(e, a, b, toA, toB, sqrt);
        SumStaysApart(e, a, b, sum, sqrt);
      }
    }
  }

  lemma {:induction false} NothingJoins(e: Embedding, a: Embedding, b: Embedding, sqrt: real -> real)
    requires |e| == |a| == |b| && Dot(e, e) == 0.0 && Apart(a, b, sqrt)
    ensures Apart(Combine(1.0, a, 1.0, e), b, sqrt)
  {
    var sum := Combine(1.0, a, 1.0, e);
    SumProducts(a, e, b);
    SumNorm(a, e);
    ZeroIsOrthogonal(e, b);
    ZeroIsOrthogonal(e, a);
    DotCommutes(a, e);
    assert Dot(sum, b) == Dot(a, b) && Dot(sum, sum) == Dot(a, a);
  }

  lemma {:induction false} FirstJoins(e: Embedding, a: Embedding, b: Embedding, sqrt: real -> real)
    requires IsSquareRoot(sqrt) && |e| == |a| == |b| && Dot(a, a) == 0.0 && Dot(e, b) <= 0.0
    ensures Apart(Combine(1.0, a, 1.0, e), b, sqrt)
  {
    var sum := Combine(1.0, a, 1.0, e);
    SumProducts(a, e, b);
    ZeroIsOrthogonal(a, b);
    LengthSquared(sum, sqrt);
    LengthSquared(b, sqrt);
    if Dot(sum, sum) > 0.0 && Dot(b, b) > 0.0 {
      TimesPositive(Length(sum, sqrt), Length(b, sqrt));
    }
  }

  lemma {:induction false} SumProducts(a: Embedding, e: Embedding, x: Embedding)
    requires |a| == |e| == |x|
    ensures Dot(Combine(1.0, a, 1.0, e), x) == Dot(a, x) + Dot(e, x)
  {
    DotOfCombine(1.0, a, 1.0, e, x);
    TimesCommutes(1.0, Dot(a, x));
    TimesCommutes(1.0, Dot(e, x));
    TimesDistributes(Dot(a, x), 0.0, 0.0);
    TimesDistributes(Dot(e, x), 0.0, 0.0);
  }

  lemma {:induction false} SumNorm(a: Embedding, e: Embedding)
    requires |a| == |e|
    ensures var sum := Combine(1.0, a, 1.0, e);
            Dot(sum, sum) == Dot(a, a) + Dot(a, e) + (Dot(e, a) + Dot(e, e))
  {
    var sum := Combine(1.0, a, 1.0, e);
    SumProducts(a, e, sum);
    DotCommutes(a, sum);
    DotCommutes(e, sum);
    SumProducts(a, e, a);
    SumProducts(a, e, e);
  }

  /**
   `q * (x . a) - p * (x . b)` separates a topic from another one: it is positive for
   `a` and for what joins `a`, so their sum cannot have the direction of `b`.
   */
  lemma {:induction false} SumStaysApart(e: Embedding, a: Embedding, b: Embedding, sum: Embedding, sqrt: real -> real)
    requires IsSquareRoot(sqrt) && |e| == |a| == |b| && sum == Combine(1.0, a, 1.0, e)
    requires Dot(a, a) > 0.0 && Dot(b, b) > 0.0 && Dot(a, b) < Times(Length(a, sqrt), Length(b, sqrt))
    requires Times(Length(b, sqrt), Dot(e, a)) >= Times(Length(a, sqrt), Dot(e, b))
    requires Dot(sum, sum) > 0.0
    ensures Dot(sum, b) < Times(Length(sum, sqrt), Length(b, sqrt))
  {
    var p, q, r := Length(a, sqrt), Length(b, sqrt), Length(sum, sqrt);
    LengthSquared(a, sqrt);
    LengthSquared(b, sqrt);
    LengthSquared(sum, sqrt);
    SumProducts(a, e, a);
    SumProducts(a, e, b);
    Separates(p, q, Dot(a, b), Dot(e, a), Dot(e, b));
    if Dot(sum, b) >= Times(r, q) {
      SameDirection(sum, b, a, sqrt);
      SameDirection(sum, b, b, sqrt);
      DotCommutes(b, a);
      OnTheOtherSide(p, q, r, Dot(a, b), Dot(sum, b));
    }
  }

  lemma {:induction false} Separates(p: real, q: real, ab: real, ea: real, eb: real)
    requires p > 0.0 && q > 0.0 && ab < Times(p, q) && Times(q, ea) >= Times(p, eb)
    ensures Times(q, Times(p, p) + ea) > Times(p, ab + eb)
  {
    TimesDistributes(q, Times(p, p), ea);
    TimesDistributes(p, ab, eb);
    TimesCommutes(q, Times(p, p));
    TimesAssociates(p, p, q);
    TimesCancels(ab, Times(p, q), p);
    TimesCommutes(p, ab);
    TimesCommutes(p, Times(p, q));
  }

  lemma {:induction false} OnTheOtherSide(p: real, q: real, r: real, ab: real, sb: real)
    requires p > 0.0 && q > 0.0 && r > 0.0 && ab < Times(p, q)
    requires Times(q, sb) == Times(r, Times(q, q))
    ensures Times(r, ab) < Times(p, sb)
  {
    TimesCommutes(q, sb);
    TimesAssociates(r, q, q);
    TimesCancels(sb, Times(r, q), q);
    TimesCancels(ab, Times(p, q), r);
    TimesCommutes(r, ab);
    TimesAssociates(p, r, q);
    TimesCommutes(p, r);
    TimesAssociates(p, q, r);
    TimesCommutes(q, r);
  }

  lemma {:induction false} SumIsMultipleOfMean(sum: Embedding, n: nat)
    requires n >= 1
    ensures Combine(n as real, Mean(sum, n), 0.0, Mean(sum, n)) == sum
  {
    var mean := Mean(sum, n);
    forall i | 0 <= i < |sum| ensures Combine(n as real, mean, 0.0, mean)[i] == sum[i] {
      assert mean[i] == sum[i] / n as real;
      assert Times(n as real, mean[i]) == sum[i];
      assert Times(0.0, mean[i]) == 0.0;
    }
  }

  /** The cosine with a centroid is the cosine with the running sum. */
  lemma {:induction false} CosineOfMean(e: Embedding, sum: Embedding, n: nat, value: real, sqrt: real -> real)
    requires IsSquareRoot(sqrt) && n >= 1 && |e| == |sum| && CosineOf(e, Mean(sum, n), value, sqrt)
    ensures CosineOf(e, sum, value, sqrt)
  {
    var mean, times := Mean(sum, n), n as real;
    var l, k := Length(e, sqrt), Length(mean, sqrt);
    SumIsMultipleOfMean(sum, n);
    LengthOfMultiple(times, mean, sqrt);
    DotOfMultiple(times, mean, e);
    DotCommutes(mean, e);
    DotCommutes(sum, e);
    NormIsNotNegative(mean);
    if Dot(mean, mean) > 0.0 {
      TimesPositive(times, Dot(mean, mean));
      TimesPositive(times, Times(times, Dot(mean, mean)));
      Regroup(times, value, l, k);
      TimesCommutes(k, times);
    } else {
      TimesDistributes(times, 0.0, 0.0);
    }
  }

  /** An embedding that opens a topic is apart from the topics it did not resemble. */
  lemma {:induction false} OpenedIsApart(e: Embedding, b: Embedding, toB: real, sqrt: real -> real)
    requires IsSquareRoot(sqrt) && CosineOf(e, b, toB, sqrt) && toB < 1.0
    ensures Apart(e, b, sqrt)
  {
    if Dot(e, e) > 0.0 && Dot(b, b) > 0.0 {
      CosineBounds(e, b, toB, sqrt);
    }
  }

  /** Nothing is opposite to two topics that are apart. */
  lemma {:induction false} NeverOppositeToBoth(
    e: Embedding, a: Embedding, b: Embedding, toA: real, toB: real, sqrt: real -> real)
    requires IsSquareRoot(sqrt) && |e| == |a| == |b| && Apart(a, b, sqrt)
    requires CosineOf(e, a, toA, sqrt) && CosineOf(e, b, toB, sqrt)
    ensures toA > -1.0 || toB > -1.0
  {
    if toA <= -1.0 && toB <= -1.0 {
      var l, p, q := Length(e, sqrt), Length(a, sqrt), Length(b, sqrt);
      LengthSquared(e, sqrt);
      LengthSquared(a, sqrt);
      LengthSquared(b, sqrt);
      CosineBounds(e, a, toA, sqrt);
      CosineBounds(e, b, toB, sqrt);
      OppositeDirection(e, a, b, sqrt);
      BetweenOpposites(l, p, q, Dot(e, b), Dot(a, b));
    }
  }

  lemma {:induction false} BetweenOpposites(l: real, p: real, q: real, eb: real, ab: real)
    requires l > 0.0 && p > 0.0 && eb <= -Times(l, q) && Times(p, eb) == -Times(l, ab)
    ensures ab >= Times(p, q)
  {
    TimesCancels(-Times(l, q), eb, p);
    TimesCommutes(p, eb);
    TimesDistributes(p, Times(l, q), 0.0);
    TimesCommutes(p, -Times(l, q));
    TimesCommutes(p, Times(l, q));
    TimesAssociates(l, q, p);
    TimesCommutes(q, p);
    TimesCancels(ab, Times(p, q), l);
    TimesCommutes(l, ab);
    TimesCommutes(l, Times(p, q));
  }

  // The topics of a run

  function TopicSum(embeddings: seq<Embedding>, labels: seq<nat>, topic: nat): Embedding
    requires |embeddings| == |labels|
  {
    SumOf(Pick(embeddings, labels, topic))
  }

  ghost predicate AllOfLength(embeddings: seq<Embedding>, dimension: nat) {
    forall e :: e in embeddings ==> |e| == dimension
  }

  ghost predicate AllApart(embeddings: seq<Embedding>, labels: seq<nat>, sqrt: real -> real)
    requires |embeddings| == |labels|
  {
    forall c: nat, d: nat :: c < d < LabelCount(labels) ==>
      Apart(TopicSum(embeddings, labels, c), TopicSum(embeddings, labels, d), sqrt)
  }

  lemma {:induction false} PickMembers(embeddings: seq<Embedding>, labels: seq<nat>, topic: nat, e: Embedding)
    requires |embeddings| == |labels| && e in Pick(embeddings, labels, topic)
    ensures e in embeddings
  {
    var n := |embeddings| - 1;
    if e in Pick(embeddings[..n], labels[..n], topic) {
      PickMembers(embeddings[..n], labels[..n], topic, e);
    }
  }

  lemma {:induction false} TopicSumLength(
    embeddings: seq<Embedding>, dimension: nat, maxTopics: int, similarity: Similarity, topic: nat)
    requires AllOfLength(embeddings, dimension)
    requires topic < LabelCount(Labels(embeddings, maxTopics, similarity))
    ensures var labels := Labels(embeddings, maxTopics, similarity);
            Pick(embeddings, labels, topic) != [] && |TopicSum(embeddings, labels, topic)| == dimension
  {
    var labels := Labels(embeddings, maxTopics, similarity);
    NoTopicIsEmpty(embeddings, maxTopics, similarity, topic);
    PickUsed(embeddings, labels, topic);
    var members := Pick(embeddings, labels, topic);
    forall e | e in members ensures |e| == dimension {
      PickMembers(embeddings, labels, topic, e);
    }
    EqualLengthsFit(members, dimension);
  }

  /** What the last outcome finds is its cosine with each running sum. */
  lemma {:induction false} ArrivalIsCosine(
    embeddings: seq<Embedding>, dimension: nat, maxTopics: int, similarity: Similarity, sqrt: real -> real, topic: nat)
    requires embeddings != [] && AllOfLength(embeddings, dimension) && IsCosine(similarity, sqrt)
    requires var before := embeddings[..|embeddings| - 1];
      topic < LabelCount(Labels(before, maxTopics, similarity))
    ensures var before := embeddings[..|embeddings| - 1];
            var labels := Labels(before, maxTopics, similarity);
            && |TopicSum(before, labels, topic)| == |embeddings[|embeddings| - 1]|
            && CosineOf(embeddings[|embeddings| - 1], TopicSum(before, labels, topic),
                        Arrival(embeddings, maxTopics, similarity)[topic], sqrt)
  {
    var before, e := embeddings[..|embeddings| - 1], embeddings[|embeddings| - 1];
    var labels := Labels(before, maxTopics, similarity);
    var members := Pick(before, labels, topic);
    assert e in embeddings;
    TopicSumLength(before, dimension, maxTopics, similarity, topic);
    var value := Arrival(embeddings, maxTopics, similarity)[topic];
    assert value == similarity(e, Mean(SumOf(members), |members|));
    assert CosineOf(e, Mean(SumOf(members), |members|), value, sqrt);
    CosineOfMean(e, SumOf(members), |members|, value, sqrt);
  }

  lemma {:induction false} PlusIsCombine(sum: Embedding, e: Embedding)
    requires |sum| == |e|
    ensures Plus(sum, e) == Combine(1.0, sum, 1.0, e)
  {
    forall i | 0 <= i < |sum| ensures Plus(sum, e)[i] == Combine(1.0, sum, 1.0, e)[i] {
      assert Times(1.0, sum[i]) == sum[i] && Times(1.0, e[i]) == e[i];
    }
  }

  /** The running sums after the last outcome. */
  lemma {:induction false} TopicSumNext(embeddings: seq<Embedding>, labels: seq<nat>, next: nat, topic: nat)
    requires |embeddings| == |labels| + 1
    ensures var before := embeddings[..|labels|];
            TopicSum(embeddings, labels + [next], topic) ==
              if next == topic then Plus(TopicSum(before, labels, topic), embeddings[|labels|])
              else TopicSum(before, labels, topic)
  {
    var n := |labels|;
    assert embeddings[..n + 1] == embeddings;
    PickNext(embeddings, n, labels, next, topic);
    SumNext(Pick(embeddings[..n], labels, topic), embeddings[n]);
  }

  /** An outcome that joins resembles its topic most; one that opens a topic resembles none fully. */
  lemma {:induction false} ChoiceIsClosest(found: seq<real>, maxTopics: int, c: nat)
    requires c < |found|
    ensures var next := Choice(found, maxTopics);
            if next < |found| then found[next] >= found[c] else found[c] < 1.0
  {
    assert IsBest(found, Best(found));
  }

  /** Of two topics that were apart, or one that is opened, neither takes the direction of the other. */
  lemma {:induction false} PairStaysApart(
    embeddings: seq<Embedding>, dimension: nat, maxTopics: int, similarity: Similarity, sqrt: real -> real,
    c: nat, d: nat)
    requires embeddings != [] && AllOfLength(embeddings, dimension) && IsCosine(similarity, sqrt)
    requires var before := embeddings[..|embeddings| - 1];
      var labels := Labels(before, maxTopics, similarity);
      && c < LabelCount(labels) && c != d
      && (if d < LabelCount(labels) then Apart(TopicSum(before, labels, c), TopicSum(before, labels, d), sqrt)
          else d == Choice(Arrival(embeddings, maxTopics, similarity), maxTopics))
    ensures var labels := Labels(embeddings, maxTopics, similarity);
            Apart(TopicSum(embeddings, labels, c), TopicSum(embeddings, labels, d), sqrt)
  {
    var n := |embeddings| - 1;
    var before, e := embeddings[..n], embeddings[n];
    var labels, found := Labels(before, maxTopics, similarity), Arrival(embeddings, maxTopics, similarity);
    var next := Choice(found, maxTopics);
    TopicSumNext(embeddings, labels, next, c);
    TopicSumNext(embeddings, labels, next, d);
    var a, b := TopicSum(before, labels, c), TopicSum(before, labels, d);
    ArrivalIsCosine(embeddings, dimension, maxTopics, similarity, sqrt, c);
    ChoiceIsClosest(found, maxTopics, c);
    if d == LabelCount(labels) {
      PickUnused(before, labels, d);
      OpenedIsApart(e, a, found[c], sqrt);
      ApartCommutes(e, a, sqrt);
    } else {
      ArrivalIsCosine(embeddings, dimension, maxTopics, similarity, sqrt, d);
      ChoiceIsClosest(found, maxTopics, d);
      if next == c {
        PlusIsCombine(a, e);
        JoinedStaysApart(e, a, b, found[c], found[d], sqrt);
      } else if next == d {
        PlusIsCombine(b, e);
        ApartCommutes(a, b, sqrt);
        JoinedStaysApart(e, b, a, found[d], found[c], sqrt);
        ApartCommutes(Combine(1.0, b, 1.0, e), a, sqrt);
      }
    }
  }

  /** In every run of the greedy pass no two topics ever have the same direction. */
  lemma {:induction false} TopicsStayApart(
    embeddings: seq<Embedding>, dimension: nat, maxTopics: int, similarity: Similarity, sqrt: real -> real)
    requires AllOfLength(embeddings, dimension) && IsCosine(similarity, sqrt)
    ensures AllApart(embeddings, Labels(embeddings, maxTopics, similarity), sqrt)
  {
    if embeddings != [] {
      var n := |embeddings| - 1;
      var labels := Labels(embeddings[..n], maxTopics, similarity);
      TopicsStayApart(embeddings[..n], dimension, maxTopics, similarity, sqrt);
      CountNext(labels, Choice(Arrival(embeddings, maxTopics, similarity), maxTopics));
      forall c: nat, d: nat | c < d < LabelCount(Labels(embeddings, maxTopics, similarity))
        ensures Apart(TopicSum(embeddings, Labels(embeddings, maxTopics, similarity), c),
                      TopicSum(embeddings, Labels(embeddings, maxTopics, similarity), d), sqrt)
      {
        PairStaysApart(embeddings, dimension, maxTopics, similarity, sqrt, c, d);
      }
    }
  }

  /** An outcome that finds two topics is never opposite to all. */
  lemma {:induction false} TwoTopicsHouseAll(
    embeddings: seq<Embedding>, dimension: nat, maxTopics: int, similarity: Similarity, sqrt: real -> real)
    requires embeddings != [] && AllOfLength(embeddings, dimension) && IsCosine(similarity, sqrt)
    requires LabelCount(Labels(embeddings[..|embeddings| - 1], maxTopics, similarity)) >= 2
    ensures !AllOpposite(Arrival(embeddings, maxTopics, similarity))
  {
    var before, e := embeddings[..|embeddings| - 1], embeddings[|embeddings| - 1];
    var labels, found := Labels(before, maxTopics, similarity), Arrival(embeddings, maxTopics, similarity);
    TopicsStayApart(before, dimension, maxTopics, similarity, sqrt);
    ArrivalIsCosine(embeddings, dimension, maxTopics, similarity, sqrt, 0);
    ArrivalIsCosine(embeddings, dimension, maxTopics, similarity, sqrt, 1);
    NeverOppositeToBoth(
      e, TopicSum(before, labels, 0), TopicSum(before, labels, 1), found[0], found[1], sqrt);
    assert found[0] > -1.0 || found[1] > -1.0;
  }

  lemma {:induction false} SquaresCompare(x: real, y: real)
    requires x > 0.0 && y > 0.0
    ensures Times(x, x) >= Times(y, y) <==> x >= y
  {
    TimesCancels(x, y, x);
    TimesCancels(x, y, y);
    TimesCommutes(x, y);
  }

  lemma {:induction false} SquareOfLengths(l: real, q: real)
    ensures Times(Times(l, q), Times(l, q)) == Times(Times(l, l), Times(q, q))
  {
    TimesAssociates(l, q, Times(l, q));
    TimesCommutes(q, Times(l, q));
    TimesAssociates(l, q, q);
    TimesAssociates(l, l, Times(q, q));
  }

  /** A cosine is -1 exactly for opposite directions. */
  lemma {:induction false} OpposedIsMinusOne(a: Embedding, b: Embedding, value: real, sqrt: real -> real)
    requires IsSquareRoot(sqrt) && |a| == |b| && CosineOf(a, b, value, sqrt)
    ensures Opposed(a, b) <==> value <= -1.0
  {
    NormIsNotNegative(a);
    NormIsNotNegative(b);
    if Dot(a, a) == 0.0 {
      ZeroIsOrthogonal(a, b);
    } else if Dot(b, b) == 0.0 {
      ZeroIsOrthogonal(b, a);
      DotCommutes(a, b);
    } else {
      var l, q, d := Length(a, sqrt), Length(b, sqrt), Dot(a, b);
      CosineBounds(a, b, value, sqrt);
      LengthSquared(a, sqrt);
      LengthSquared(b, sqrt);
      SquareOfLengths(l, q);
      if d < 0.0 {
        SquaresCompare(-d, Times(l, q));
        TimesDistributes(d, d, 0.0);
        TimesDistributes(-d, d, 0.0);
      }
    }
  }

  lemma {:induction false} OneTopicHoldsAll<T>(items: seq<T>, labels: seq<nat>)
    requires |items| == |labels| && LabelCount(labels) <= 1
    ensures Pick(items, labels, 0) == items
  {
    if items != [] {
      var n := |items| - 1;
      CountPrefix(labels, n);
      OneTopicHoldsAll(items[..n], labels[..n]);
      assert labels[n] == 0 && items == items[..n] + [items[n]];
    }
  }

  lemma {:induction false} PrefixOfLength(embeddings: seq<Embedding>, k: nat, dimension: nat)
    requires AllOfLength(embeddings, dimension) && k <= |embeddings|
    ensures AllOfLength(embeddings[..k], dimension)
  {
  }

  /** With one topic so far, the last outcome finds its cosine with the sum of all before it, and nothing else. */
  lemma {:induction false} FindsOneCosine(
    embeddings: seq<Embedding>, dimension: nat, maxTopics: int, similarity: Similarity, sqrt: real -> real)
    requires embeddings != [] && AllOfLength(embeddings, dimension) && IsCosine(similarity, sqrt)
    requires LabelCount(Labels(embeddings[..|embeddings| - 1], maxTopics, similarity)) == 1
    ensures var n, found := |embeddings| - 1, Arrival(embeddings, maxTopics, similarity);
            && |found| == 1 && |SumOf(embeddings[..n])| == |embeddings[n]|
            && CosineOf(embeddings[n], SumOf(embeddings[..n]), found[0], sqrt)
  {
    var before := embeddings[..|embeddings| - 1];
    OneTopicHoldsAll(before, Labels(before, maxTopics, similarity));
    ArrivalIsCosine(embeddings, dimension, maxTopics, similarity, sqrt, 0);
  }

  lemma {:induction false} OnlyOpposite(found: seq<real>)
    requires |found| == 1
    ensures AllOpposite(found) <==> found[0] <= -1.0
  {
  }

  /** So it finds no place exactly if it is opposite to that sum. */
  lemma {:induction false} LastIsOpposed(
    embeddings: seq<Embedding>, before: seq<Embedding>, last: Embedding,
    dimension: nat, maxTopics: int, similarity: Similarity, sqrt: real -> real)
    requires embeddings == before + [last] && AllOfLength(embeddings, dimension) && IsCosine(similarity, sqrt)
    requires LabelCount(Labels(before, maxTopics, similarity)) == 1
    ensures AllOpposite(Arrival(embeddings, maxTopics, similarity)) <==> Opposed(last, SumOf(before))
  {
    var found := Arrival(embeddings, maxTopics, similarity);
    assert embeddings[..|embeddings| - 1] == before;
    FindsOneCosine(embeddings, dimension, maxTopics, similarity, sqrt);
    OpposedIsMinusOne(last, SumOf(before), found[0], sqrt);
    OnlyOpposite(found);
  }

  lemma {:induction false} OneMoreOutcome(embeddings: seq<Embedding>, k: nat)
    requires k < |embeddings|
    ensures embeddings[..k + 1] == embeddings[..k] + [embeddings[k]]
  {
  }

  lemma {:induction false} HomelessIsOpposed(
    embeddings: seq<Embedding>, dimension: nat, k: nat, maxTopics: int, similarity: Similarity, sqrt: real -> real)
    requires AllOfLength(embeddings, dimension) && IsCosine(similarity, sqrt) && 0 < k < |embeddings|
    requires LabelCount(Labels(embeddings[..k], maxTopics, similarity)) == 1
    ensures AllOpposite(Arrival(embeddings[..k + 1], maxTopics, similarity))
            <==> Opposed(embeddings[k], SumOf(embeddings[..k]))
  {
    var upTo := embeddings[..k + 1];
    OneMoreOutcome(embeddings, k);
    PrefixOfLength(embeddings, k + 1, dimension);
    LastIsOpposed(upTo, embeddings[..k], embeddings[k], dimension, maxTopics, similarity, sqrt);
  }

  lemma {:induction false} HomelessMeansOneTopic(
    embeddings: seq<Embedding>, dimension: nat, k: nat, maxTopics: int, similarity: Similarity, sqrt: real -> real)
    requires AllOfLength(embeddings, dimension) && IsCosine(similarity, sqrt) && k < |embeddings|
    requires Homeless(embeddings, k, maxTopics, similarity)
    ensures k > 0 && maxTopics < 2 && LabelCount(Labels(embeddings[..k], maxTopics, similarity)) == 1
  {
    var upTo := embeddings[..k + 1];
    assert upTo[..k] == embeddings[..k];
    if LabelCount(Labels(embeddings[..k], maxTopics, similarity)) >= 2 {
      PrefixOfLength(embeddings, k + 1, dimension);
      TwoTopicsHouseAll(upTo, dimension, maxTopics, similarity, sqrt);
    }
  }

  /** No outcome is exactly opposite to the sum of all before it. */
  predicate NoneOpposed(embeddings: seq<Embedding>) {
    forall k :: 0 < k < |embeddings| ==> !Opposed(embeddings[k], SumOf(embeddings[..k]))
  }

  /**
   The number of topics stays within the limit exactly if the limit is two or more, or
   no outcome is exactly opposite to the sum of all before it.
   */
  lemma {:induction false} LimitHoldsExactly(
    embeddings: seq<Embedding>, dimension: nat, maxTopics: int, similarity: Similarity, sqrt: real -> real)
    requires AllOfLength(embeddings, dimension) && IsCosine(similarity, sqrt)
    ensures LabelCount(Labels(embeddings, maxTopics, similarity)) <= Limit(maxTopics)
            <==> maxTopics >= 2 || NoneOpposed(embeddings)
  {
    WithinLimitUnlessHomeless(embeddings, maxTopics, similarity);
    forall k | 0 <= k < |embeddings| && Homeless(embeddings, k, maxTopics, similarity)
      ensures maxTopics < 2 && !NoneOpposed(embeddings)
    {
      HomelessMeansOneTopic(embeddings, dimension, k, maxTopics, similarity, sqrt);
      HomelessIsOpposed(embeddings, dimension, k, maxTopics, similarity, sqrt);
    }
    if maxTopics < 2 && LabelCount(Labels(embeddings, maxTopics, similarity)) <= 1 {
      forall k | 0 < k < |embeddings| ensures !Opposed(embeddings[k], SumOf(embeddings[..k])) {
        StillOneTopic(embeddings, k, maxTopics, similarity);
        HomelessIsOpposed(embeddings, dimension, k, maxTopics, similarity, sqrt);
        assert !Homeless(embeddings, k, maxTopics, similarity);
      }
    }
  }

  lemma {:induction false} StillOneTopic(embeddings: seq<Embedding>, k: nat, maxTopics: int, similarity: Similarity)
    requires 0 < k <= |embeddings| && LabelCount(Labels(embeddings, maxTopics, similarity)) <= 1
    ensures LabelCount(Labels(embeddings[..k], maxTopics, similarity)) == 1
  {
    LabelsGrow(embeddings, k, maxTopics, similarity);
    CountPrefix(Labels(embeddings, maxTopics, similarity), k);
    var labels := Labels(embeddings[..k], maxTopics, similarity);
    assert labels[0] < LabelCount(labels);
  }

  /** Two opposite questions make two topics although one is allowed. */
  lemma {:induction false} OppositeQuestionsBreakTheLimit(similarity: Similarity, sqrt: real -> real)
    requires IsCosine(similarity, sqrt)
    ensures LabelCount(Labels([[1.0], [-1.0]], 1, similarity)) > 1
  {
    var two: seq<Embedding> := [[1.0], [-1.0]];
    assert two[..1] == [[1.0]] && two[..1][..0] == [];
    assert SumOf(two[..1]) == [1.0];
    OppositeUnits();
    assert Opposed(two[1], SumOf(two[..1]));
    LimitHoldsExactly(two, 1, 1, similarity, sqrt);
  }

  lemma {:induction false} OppositeUnits()
    ensures Opposed([-1.0], [1.0])
  {
    var a: Embedding, b: Embedding := [-1.0], [1.0];
    assert a[1..] == [] && b[1..] == [];
    assert Dot(a, b) == -1.0 && Dot(a, a) == 1.0 && Dot(b, b) == 1.0;
  }
}
