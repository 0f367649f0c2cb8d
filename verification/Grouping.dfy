/**
 Greedy grouping by similarity, on values: which topic each outcome is given, what
 that says about the topics, and when their number stays within the limit.
 */
module Grouping {
  type Embedding = seq<real>
  /** How similar two vectors are. Which function it is matters only in `CosineBound`. */
  type Similarity = (Embedding, Embedding) -> real

  const SIMILARITY_THRESHOLD := 0.75

  /** The items with a given label, in order. */
  function Pick<T>(items: seq<T>, labels: seq<nat>, topic: nat): (picked: seq<T>)
    requires |items| == |labels|
    ensures |picked| <= |items|
  {
    if items == [] then []
    else
      var n := |items| - 1;
      Pick(items[..n], labels[..n], topic) + if labels[n] == topic then [items[n]] else []
  }

  /** How many labels 0, 1, 2, ... cover all those used. */
  function LabelCount(labels: seq<nat>): (count: nat)
    ensures forall k :: 0 <= k < |labels| ==> labels[k] < count
  {
    if labels == [] then 0
    else
      var before, last := LabelCount(labels[..|labels| - 1]), labels[|labels| - 1];
      if last < before then before else last + 1
  }

  /** A running sum after one more embedding that is no longer than it. */
  function Plus(sum: Embedding, e: Embedding): (r: Embedding)
    ensures |r| == if sum == [] then |e| else |sum|
  {
    if sum == [] then e
    else seq(|sum|, i requires 0 <= i < |sum| => sum[i] + if i < |e| then e[i] else 0.0)
  }

  function SumOf(members: seq<Embedding>): Embedding {
    if members == [] then [] else Plus(SumOf(members[..|members| - 1]), members[|members| - 1])
  }

  /** No embedding is longer than the sum it is added to, unless that is still empty. */
  ghost predicate Fit(members: seq<Embedding>) {
    members == []
    || var before := members[..|members| - 1];
       Fit(before) && (SumOf(before) == [] || |members[|members| - 1]| <= |SumOf(before)|)
  }

  lemma {:induction false} SumNext(members: seq<Embedding>, e: Embedding)
    ensures SumOf(members + [e]) == Plus(SumOf(members), e)
    ensures Fit(members + [e]) <==> Fit(members) && (SumOf(members) == [] || |e| <= |SumOf(members)|)
  {
    assert (members + [e])[..|members|] == members;
  }

  /** One component of all members, absent ones counting as zero. */
  function Component(members: seq<Embedding>, i: nat): real {
    if members == [] then 0.0
    else
      var last := members[|members| - 1];
      Component(members[..|members| - 1], i) + if i < |last| then last[i] else 0.0
  }

  /** The running sum is the componentwise sum of the members, and no component is lost. */
  lemma {:induction false} SumIsComponentwise(members: seq<Embedding>, i: nat)
    requires Fit(members)
    ensures Component(members, i) == if i < |SumOf(members)| then SumOf(members)[i] else 0.0
  {
    if members != [] {
      SumIsComponentwise(members[..|members| - 1], i);
    }
  }

  /** Embeddings of one dimension always fit. */
  lemma {:induction false} EqualLengthsFit(members: seq<Embedding>, dimension: nat)
    requires forall e :: e in members ==> |e| == dimension
    ensures Fit(members)
    ensures |SumOf(members)| == if members == [] then 0 else dimension
  {
    if members != [] {
      var before := members[..|members| - 1];
      EqualLengthsFit(before, dimension);
      assert members[|members| - 1] in members;
    }
  }

  /** A running sum divided by the number of members. */
  function Mean(sum: Embedding, size: nat): Embedding {
    if size == 0 then sum else seq(|sum|, i requires 0 <= i < |sum| => sum[i] / size as real)
  }

  function Centroid(members: seq<Embedding>): Embedding {
    Mean(SumOf(members), |members|)
  }

  /** The centroids of the first `count` topics. */
  function Centroids(embeddings: seq<Embedding>, labels: seq<nat>, count: nat): seq<Embedding>
    requires |embeddings| == |labels|
  {
    seq(count, c requires 0 <= c < count => Centroid(Pick(embeddings, labels, c)))
  }

  /** How similar an embedding is to each of some centroids. */
  function Similarities(e: Embedding, centroids: seq<Embedding>, similarity: Similarity): (r: seq<real>)
    ensures |r| == |centroids|
  {
    seq(|centroids|, c requires 0 <= c < |centroids| => similarity(e, centroids[c]))
  }

  /** The first of the greatest similarities above -1, or -1 if there is none. */
  ghost predicate IsBest(similarities: seq<real>, best: int) {
    && -1 <= best < |similarities|
    && (best == -1 ==> forall c :: 0 <= c < |similarities| ==> similarities[c] <= -1.0)
    && (best >= 0 ==>
          && similarities[best] > -1.0
          && (forall c :: 0 <= c < |similarities| ==> similarities[c] <= similarities[best])
          && (forall c :: 0 <= c < best ==> similarities[c] < similarities[best]))
  }

  function Best(similarities: seq<real>): (best: int)
    ensures IsBest(similarities, best)
  {
    if similarities == [] then -1
    else
      var n := |similarities| - 1;
      var before := Best(similarities[..n]);
      if similarities[n] > if before >= 0 then similarities[before] else -1.0 then n else before
  }

  /** Looking at one more similarity. */
  lemma {:induction false} BestStep(similarities: seq<real>, k: nat, best: int)
    requires k < |similarities| && IsBest(similarities[..k], best)
    ensures var bound := if best >= 0 then similarities[best] else -1.0;
            IsBest(similarities[..k + 1], if similarities[k] > bound then k else best)
  {
    assert forall c :: 0 <= c < k ==> similarities[..k][c] == similarities[c];
  }

  lemma {:induction false} BestIsUnique(similarities: seq<real>, a: int, b: int)
    requires IsBest(similarities, a) && IsBest(similarities, b)
    ensures a == b
  {
  }

  /** The topic an outcome goes to when there are `|similarities|` of them: the last label is a new one. */
  function Choice(similarities: seq<real>, maxTopics: int): (topic: nat)
    ensures topic <= |similarities|
  {
    var best := Best(similarities);
    if best >= 0 && (similarities[best] >= SIMILARITY_THRESHOLD || |similarities| >= maxTopics) then best
    else |similarities|
  }

  /** The label of every embedding, in the order they come. */
  function Labels(embeddings: seq<Embedding>, maxTopics: int, similarity: Similarity): (labels: seq<nat>)
    ensures |labels| == |embeddings|
    decreases |embeddings|, 1
  {
    if embeddings == [] then []
    else
      var before := embeddings[..|embeddings| - 1];
      var labels := Labels(before, maxTopics, similarity);
      labels + [Choice(Arrival(embeddings, maxTopics, similarity), maxTopics)]
  }

  /** The similarities the last embedding finds. */
  function Arrival(embeddings: seq<Embedding>, maxTopics: int, similarity: Similarity): seq<real>
    requires embeddings != []
    decreases |embeddings|, 0
  {
    var before := embeddings[..|embeddings| - 1];
    var labels := Labels(before, maxTopics, similarity);
    Similarities(embeddings[|embeddings| - 1], Centroids(before, labels, LabelCount(labels)), similarity)
  }

  lemma {:induction false} LabelsGrow(embeddings: seq<Embedding>, k: nat, maxTopics: int, similarity: Similarity)
    requires k <= |embeddings|
    ensures Labels(embeddings[..k], maxTopics, similarity) == Labels(embeddings, maxTopics, similarity)[..k]
  {
    if k == |embeddings| {
      assert embeddings[..k] == embeddings;
    } else {
      var before := embeddings[..|embeddings| - 1];
      LabelsGrow(before, k, maxTopics, similarity);
      assert before[..k] == embeddings[..k];
      OneMoreLabel(
        Labels(before, maxTopics, similarity), Choice(Arrival(embeddings, maxTopics, similarity), maxTopics), k);
    }
  }

  lemma {:induction false} OneMoreLabel(labels: seq<nat>, next: nat, k: nat)
    requires k <= |labels|
    ensures (labels + [next])[..k] == labels[..k]
  {
  }

  /**
   The rule of the greedy pass, given the similarities to the topics so far. An outcome joins
   the first of the most similar topics, if that is above -1, and either at least 0.75 or no
   more topics may be opened. Otherwise it opens the next topic.
   */
  ghost predicate Greedy(found: seq<real>, maxTopics: int, chosen: nat) {
    if chosen < |found| then
      && (forall c :: 0 <= c < |found| ==> found[c] <= found[chosen])
      && (forall c :: 0 <= c < chosen ==> found[c] < found[chosen])
      && found[chosen] > -1.0 && (found[chosen] >= 0.75 || |found| >= maxTopics)
    else
      && chosen == |found|
      && (forall c :: 0 <= c < |found| ==> found[c] < 0.75)
      && (|found| < maxTopics || forall c :: 0 <= c < |found| ==> found[c] <= -1.0)
  }

  lemma {:induction false} ChoiceIsGreedy(found: seq<real>, maxTopics: int)
    ensures Greedy(found, maxTopics, Choice(found, maxTopics))
  {
  }

  /** How similar outcome `k` is to each topic, as the outcomes before it have made them. */
  ghost predicate FoundBy(
    embeddings: seq<Embedding>, labels: seq<nat>, k: nat, similarity: Similarity, found: seq<real>)
    requires k < |embeddings| == |labels|
  {
    && |found| == LabelCount(labels[..k])
    && forall c :: 0 <= c < |found| ==>
         found[c] == similarity(embeddings[k], Centroid(Pick(embeddings[..k], labels[..k], c)))
  }

  /** Every outcome is given its topic by that rule. */
  lemma {:induction false} LabelsAreGreedy(
    embeddings: seq<Embedding>, maxTopics: int, similarity: Similarity, k: nat, found: seq<real>)
    requires k < |embeddings| && FoundBy(embeddings, Labels(embeddings, maxTopics, similarity), k, similarity, found)
    ensures Greedy(found, maxTopics, Labels(embeddings, maxTopics, similarity)[k])
  {
    var labels := Labels(embeddings, maxTopics, similarity);
    LabelsGrow(embeddings, k, maxTopics, similarity);
    LabelsGrow(embeddings, k + 1, maxTopics, similarity);
    LabelsNext(embeddings, k, maxTopics, similarity);
    var centroids := Centroids(embeddings[..k], labels[..k], LabelCount(labels[..k]));
    SameSimilarities(embeddings, labels, k, similarity, found, Similarities(embeddings[k], centroids, similarity));
    assert labels[k] == labels[..k + 1][k];
    ChoiceIsGreedy(found, maxTopics);
  }

  lemma {:induction false} SameSimilarities(
    embeddings: seq<Embedding>, labels: seq<nat>, k: nat, similarity: Similarity, found: seq<real>, other: seq<real>)
    requires k < |embeddings| == |labels| && FoundBy(embeddings, labels, k, similarity, found)
    requires other == Similarities(
      embeddings[k], Centroids(embeddings[..k], labels[..k], LabelCount(labels[..k])), similarity)
    ensures found == other
  {
  }

  /** Every topic that is counted has an outcome: none is empty, and labels leave no gap. */
  lemma {:induction false} NoTopicIsEmpty(
    embeddings: seq<Embedding>, maxTopics: int, similarity: Similarity, topic: nat)
    requires topic < LabelCount(Labels(embeddings, maxTopics, similarity))
    ensures topic in Labels(embeddings, maxTopics, similarity)
  {
    var before := embeddings[..|embeddings| - 1];
    var labels := Labels(before, maxTopics, similarity);
    var next := Choice(Arrival(embeddings, maxTopics, similarity), maxTopics);
    assert Labels(embeddings, maxTopics, similarity) == labels + [next];
    CountNext(labels, next);
    if topic < LabelCount(labels) {
      NoTopicIsEmpty(before, maxTopics, similarity, topic);
    } else {
      assert topic == next == (labels + [next])[|labels|];
    }
  }

  /** How many items the first `count` labels have between them. */
  function Sizes<T>(items: seq<T>, labels: seq<nat>, count: nat): nat
    requires |items| == |labels|
  {
    if count == 0 then 0 else Sizes(items, labels, count - 1) + |Pick(items, labels, count - 1)|
  }

  lemma {:induction false} SizesGrow<T>(items: seq<T>, labels: seq<nat>, count: nat)
    requires |items| == |labels| && items != []
    ensures var n := |items| - 1;
            Sizes(items, labels, count) == Sizes(items[..n], labels[..n], count) + if labels[n] < count then 1 else 0
  {
    if count > 0 {
      SizesGrow(items, labels, count - 1);
    }
  }

  /** No item is lost and none is counted twice. */
  lemma {:induction false} SizesAddUp<T>(items: seq<T>, labels: seq<nat>, count: nat)
    requires |items| == |labels| && forall k :: 0 <= k < |labels| ==> labels[k] < count
    ensures Sizes(items, labels, count) == |items|
  {
    if items == [] {
      NothingToCount(items, labels, count);
    } else {
      SizesGrow(items, labels, count);
      SizesAddUp(items[..|items| - 1], labels[..|labels| - 1], count);
    }
  }

  lemma {:induction false} NothingToCount<T>(items: seq<T>, labels: seq<nat>, count: nat)
    requires |items| == |labels| == 0
    ensures Sizes(items, labels, count) == 0
  {
    if count > 0 {
      NothingToCount(items, labels, count - 1);
    }
  }

  /** The limit in force: one topic is always opened. */
  function Limit(maxTopics: int): nat {
    if maxTopics < 1 then 1 else maxTopics
  }

  ghost predicate AllOpposite(similarities: seq<real>) {
    forall c :: 0 <= c < |similarities| ==> similarities[c] <= -1.0
  }

  /** An outcome that finds all places taken and is opposite to every topic. */
  ghost predicate Homeless(embeddings: seq<Embedding>, k: nat, maxTopics: int, similarity: Similarity)
    requires k < |embeddings|
  {
    && LabelCount(Labels(embeddings[..k], maxTopics, similarity)) >= Limit(maxTopics)
    && AllOpposite(Arrival(embeddings[..k + 1], maxTopics, similarity))
  }

  /** A topic is opened below the limit at most, or for a homeless outcome. */
  lemma {:induction false} LastChoice(embeddings: seq<Embedding>, maxTopics: int, similarity: Similarity)
    requires embeddings != []
    ensures var before := LabelCount(Labels(embeddings[..|embeddings| - 1], maxTopics, similarity));
            var after := LabelCount(Labels(embeddings, maxTopics, similarity));
            && before <= after <= before + 1
            && (before >= Limit(maxTopics) ==>
                  (after == before + 1 <==> AllOpposite(Arrival(embeddings, maxTopics, similarity))))
  {
    var labels := Labels(embeddings[..|embeddings| - 1], maxTopics, similarity);
    var last := Choice(Arrival(embeddings, maxTopics, similarity), maxTopics);
    assert (labels + [last])[..|labels|] == labels;
  }

  lemma {:induction false} HomelessInPrefix(
    embeddings: seq<Embedding>, n: nat, k: nat, maxTopics: int, similarity: Similarity)
    requires k < n <= |embeddings|
    ensures Homeless(embeddings[..n], k, maxTopics, similarity) == Homeless(embeddings, k, maxTopics, similarity)
  {
    assert embeddings[..n][..k] == embeddings[..k] && embeddings[..n][..k + 1] == embeddings[..k + 1];
  }

  /** The number of topics exceeds the limit exactly when some outcome is homeless. */
  lemma {:induction false} WithinLimitUnlessHomeless(embeddings: seq<Embedding>, maxTopics: int, similarity: Similarity)
    ensures LabelCount(Labels(embeddings, maxTopics, similarity)) <= Limit(maxTopics)
            <==> forall k :: 0 <= k < |embeddings| ==> !Homeless(embeddings, k, maxTopics, similarity)
  {
    if embeddings != [] {
      var n := |embeddings| - 1;
      WithinLimitUnlessHomeless(embeddings[..n], maxTopics, similarity);
      LastChoice(embeddings, maxTopics, similarity);
      assert embeddings[..n + 1] == embeddings;
      forall k | 0 <= k < n
        ensures Homeless(embeddings, k, maxTopics, similarity) == Homeless(embeddings[..n], k, maxTopics, similarity)
      {
        HomelessInPrefix(embeddings, n, k, maxTopics, similarity);
      }
      assert (forall k :: 0 <= k < n ==> !Homeless(embeddings[..n], k, maxTopics, similarity))
        <==> (forall k :: 0 <= k < n ==> !Homeless(embeddings, k, maxTopics, similarity));
      assert Homeless(embeddings, n, maxTopics, similarity) <==>
        && LabelCount(Labels(embeddings[..n], maxTopics, similarity)) >= Limit(maxTopics)
        && AllOpposite(Arrival(embeddings, maxTopics, similarity));
    }
  }

  /** Outcome `k` is the first, or finds some similarity above -1. */
  ghost predicate FindsPlace(embeddings: seq<Embedding>, k: nat, maxTopics: int, similarity: Similarity)
    requires k < |embeddings|
  {
    var found := Arrival(embeddings[..k + 1], maxTopics, similarity);
    found == [] || exists c :: 0 <= c < |found| && found[c] > -1.0
  }

  /** Outcomes that each find some similarity above -1 keep the number of topics within the limit. */
  lemma {:induction false} AboveOppositeIsWithinLimit(
    embeddings: seq<Embedding>, maxTopics: int, similarity: Similarity)
    requires forall k :: 0 <= k < |embeddings| ==> FindsPlace(embeddings, k, maxTopics, similarity)
    ensures LabelCount(Labels(embeddings, maxTopics, similarity)) <= Limit(maxTopics)
  {
    forall k | 0 <= k < |embeddings| ensures !Homeless(embeddings, k, maxTopics, similarity) {
      var upTo := embeddings[..k + 1];
      assert upTo[..k] == embeddings[..k];
      assert FindsPlace(embeddings, k, maxTopics, similarity);
    }
    WithinLimitUnlessHomeless(embeddings, maxTopics, similarity);
  }

  /** One more item joins the topic it is labelled with, at the end. */
  lemma {:induction false} PickNext<T>(items: seq<T>, k: nat, labels: seq<nat>, next: nat, topic: nat)
    requires k < |items| && |labels| == k
    ensures Pick(items[..k + 1], labels + [next], topic) ==
            if next == topic then Pick(items[..k], labels, topic) + [items[k]] else Pick(items[..k], labels, topic)
  {
    assert items[..k + 1][..k] == items[..k] && (labels + [next])[..k] == labels;
  }

  lemma {:induction false} PickUnused<T>(items: seq<T>, labels: seq<nat>, topic: nat)
    requires |items| == |labels| && LabelCount(labels) <= topic
    ensures Pick(items, labels, topic) == []
  {
    if items != [] {
      PickUnused(items[..|items| - 1], labels[..|labels| - 1], topic);
    }
  }

  lemma {:induction false} PickUsed<T>(items: seq<T>, labels: seq<nat>, topic: nat)
    requires |items| == |labels| && topic in labels
    ensures Pick(items, labels, topic) != []
  {
    var n := |items| - 1;
    if labels[n] != topic {
      PickUsed(items[..n], labels[..n], topic);
    }
  }

  lemma {:induction false} CountNext(labels: seq<nat>, next: nat)
    ensures LabelCount(labels + [next]) == if next < LabelCount(labels) then LabelCount(labels) else next + 1
  {
    assert (labels + [next])[..|labels|] == labels;
  }

  lemma {:induction false} LabelsNext(embeddings: seq<Embedding>, k: nat, maxTopics: int, similarity: Similarity)
    requires k < |embeddings|
    ensures var labels := Labels(embeddings[..k], maxTopics, similarity);
            var centroids := Centroids(embeddings[..k], labels, LabelCount(labels));
            var found := Similarities(embeddings[k], centroids, similarity);
            Labels(embeddings[..k + 1], maxTopics, similarity) == labels + [Choice(found, maxTopics)]
  {
    assert embeddings[..k + 1][..k] == embeddings[..k];
  }

  /** All topics can be summed up. */
  ghost predicate AllFit(embeddings: seq<Embedding>, labels: seq<nat>)
    requires |embeddings| == |labels|
  {
    forall c: nat :: c < LabelCount(labels) ==> Fit(Pick(embeddings, labels, c))
  }

  lemma {:induction false} FitPrefix(members: seq<Embedding>, more: seq<Embedding>)
    requires Fit(members + more)
    ensures Fit(members)
  {
    if more == [] {
      assert members + more == members;
    } else {
      assert (members + more)[..|members + more| - 1] == members + more[..|more| - 1];
      FitPrefix(members, more[..|more| - 1]);
    }
  }

  lemma {:induction false} PickPrefix<T>(items: seq<T>, labels: seq<nat>, k: nat, topic: nat) returns (rest: seq<T>)
    requires k <= |items| == |labels|
    ensures Pick(items, labels, topic) == Pick(items[..k], labels[..k], topic) + rest
  {
    if k == |items| {
      rest := [];
      assert items[..k] == items && labels[..k] == labels;
    } else {
      var n := |items| - 1;
      rest := PickPrefix(items[..n], labels[..n], k, topic);
      assert items[..n][..k] == items[..k] && labels[..n][..k] == labels[..k];
      rest := rest + if labels[n] == topic then [items[n]] else [];
    }
  }

  lemma {:induction false} CountPrefix(labels: seq<nat>, k: nat)
    requires k <= |labels|
    ensures LabelCount(labels[..k]) <= LabelCount(labels)
  {
    if k < |labels| {
      var n := |labels| - 1;
      CountPrefix(labels[..n], k);
      assert labels[..n][..k] == labels[..k];
    } else {
      assert labels[..k] == labels;
    }
  }

  /** What does not fit at some point never fits. */
  lemma {:induction false} MisfitStays(
    embeddings: seq<Embedding>, k: nat, topic: nat, maxTopics: int, similarity: Similarity)
    requires k <= |embeddings|
    requires var labels := Labels(embeddings[..k], maxTopics, similarity);
      topic < LabelCount(labels) && !Fit(Pick(embeddings[..k], labels, topic))
    ensures !AllFit(embeddings, Labels(embeddings, maxTopics, similarity))
  {
    var labels := Labels(embeddings, maxTopics, similarity);
    LabelsGrow(embeddings, k, maxTopics, similarity);
    CountPrefix(labels, k);
    var rest := PickPrefix(embeddings, labels, k, topic);
    if Fit(Pick(embeddings, labels, topic)) {
      FitPrefix(Pick(embeddings[..k], labels[..k], topic), rest);
    }
  }
}
