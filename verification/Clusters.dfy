/**
 The clusters as the objects that accumulate them, the greedy pass over all
 outcomes, and the map assembled from it.
 */
module Clusters {
  import opened Wrappers
  import opened Text
  import opened Grouping

  /** A query outcome; what else it holds plays no part in the grouping. */
  datatype Outcome = Outcome(traceId: string, question: string)

  class Cluster {
    var sum: Embedding
    var members: seq<Outcome>

    /** The cluster has exactly these members, with these embeddings. */
    ghost predicate Holds(outcomes: seq<Outcome>, embeddings: seq<Embedding>)
      reads this
    {
      members == outcomes && |outcomes| == |embeddings| && sum == SumOf(embeddings) && Fit(embeddings)
    }

    constructor ()
      ensures Holds([], [])
    {
      sum, members := [], [];
    }

    function Center(): Embedding
      reads this
    {
      Mean(sum, |members|)
    }

    /** One more member. An embedding longer than the sum has room for is an error. */
    method Add(outcome: Outcome, embedding: Embedding, ghost outcomes: seq<Outcome>, ghost embeddings: seq<Embedding>)
      returns (ok: bool)
      requires Holds(outcomes, embeddings)
      modifies this
      ensures ok <==> Fit(embeddings + [embedding])
      ensures ok ==> Holds(outcomes + [outcome], embeddings + [embedding])
    {
      SumNext(embeddings, embedding);
      if sum == [] {
        sum := embedding;
      } else {
        var i := 0;
        while i < |embedding|
          invariant i <= |embedding| && i <= |sum| && |sum| == |old(sum)|
          invariant members == outcomes
          invariant forall j :: 0 <= j < |sum| ==> sum[j] == old(sum)[j] + if j < i then embedding[j] else 0.0
        {
          if i >= |sum| {
            return false;
          }
          sum := sum[i := sum[i] + embedding[i]];
          i := i + 1;
        }
      }
      members := members + [outcome];
      ok := true;
    }
  }

  /** The members of one topic, with their embeddings. */
  datatype Part = Part(outcomes: seq<Outcome>, embeddings: seq<Embedding>)

  /** The clusters hold exactly these parts, and are different objects. */
  ghost predicate Hold(clusters: seq<Cluster>, parts: seq<Part>)
    reads clusters
  {
    && |clusters| == |parts|
    && (forall c, d :: 0 <= c < |clusters| && 0 <= d < |clusters| && c != d ==> clusters[c] != clusters[d])
    && forall c :: 0 <= c < |clusters| ==> clusters[c].Holds(parts[c].outcomes, parts[c].embeddings)
  }

  /** The parts that labels make of outcomes and embeddings. */
  ghost function Parts(outcomes: seq<Outcome>, embeddings: seq<Embedding>, labels: seq<nat>): (parts: seq<Part>)
    requires |outcomes| == |embeddings| == |labels|
    ensures |parts| == LabelCount(labels)
  {
    seq(LabelCount(labels), c requires 0 <= c < LabelCount(labels) =>
      Part(Pick(outcomes, labels, c), Pick(embeddings, labels, c)))
  }

  /** The parts after one more outcome is given the next label. */
  ghost function Joined(parts: seq<Part>, next: nat, outcome: Outcome, embedding: Embedding): seq<Part>
    requires next <= |parts|
  {
    if next == |parts| then parts + [Part([outcome], [embedding])]
    else parts[next := Part(parts[next].outcomes + [outcome], parts[next].embeddings + [embedding])]
  }

  lemma {:induction false} PartsNext(
    outcomes: seq<Outcome>, embeddings: seq<Embedding>, k: nat, labels: seq<nat>, next: nat)
    requires k < |outcomes| == |embeddings| && |labels| == k && next <= LabelCount(labels)
    ensures Parts(outcomes[..k + 1], embeddings[..k + 1], labels + [next])
            == Joined(Parts(outcomes[..k], embeddings[..k], labels), next, outcomes[k], embeddings[k])
  {
    CountNext(labels, next);
    PickUnused(outcomes[..k], labels, LabelCount(labels));
    PickUnused(embeddings[..k], labels, LabelCount(labels));
    forall c | 0 <= c < LabelCount(labels + [next])
      ensures Parts(outcomes[..k + 1], embeddings[..k + 1], labels + [next])[c]
              == Joined(Parts(outcomes[..k], embeddings[..k], labels), next, outcomes[k], embeddings[k])[c]
    {
      PickNext(outcomes, k, labels, next, c);
      PickNext(embeddings, k, labels, next, c);
    }
  }

  /** The most similar cluster: the first of the best. */
  method FindBest(
    embedding: Embedding, clusters: seq<Cluster>, similarity: Similarity, ghost centroids: seq<Embedding>)
    returns (bestIndex: int, bestSimilarity: real)
    requires |centroids| == |clusters|
    requires forall c :: 0 <= c < |clusters| ==> clusters[c].Center() == centroids[c]
    ensures var found := Similarities(embedding, centroids, similarity);
            bestIndex == Best(found) && bestSimilarity == if bestIndex >= 0 then found[bestIndex] else -1.0
  {
    ghost var found := Similarities(embedding, centroids, similarity);
    bestIndex, bestSimilarity := -1, -1.0;
    for index := 0 to |clusters|
      invariant IsBest(found[..index], bestIndex)
      invariant bestSimilarity == if bestIndex >= 0 then found[bestIndex] else -1.0
    {
      BestStep(found, index, bestIndex);
      var s := similarity(embedding, clusters[index].Center());
      if s > bestSimilarity {
        bestSimilarity, bestIndex := s, index;
      }
    }
    assert found[..|clusters|] == found;
    BestIsUnique(found, bestIndex, Best(found));
  }

  lemma {:induction false} HoldCentroids(
    clusters: seq<Cluster>, outcomes: seq<Outcome>, embeddings: seq<Embedding>, labels: seq<nat>)
    requires |outcomes| == |embeddings| == |labels| && Hold(clusters, Parts(outcomes, embeddings, labels))
    ensures forall c :: 0 <= c < |clusters| ==>
      clusters[c].Center() == Centroids(embeddings, labels, |clusters|)[c]
    ensures AllFit(embeddings, labels)
  {
    forall c | 0 <= c < |clusters|
      ensures clusters[c].Center() == Centroids(embeddings, labels, |clusters|)[c]
      ensures Fit(Pick(embeddings, labels, c))
    {
      assert clusters[c].Holds(Pick(outcomes, labels, c), Pick(embeddings, labels, c));
    }
  }

  /** One outcome goes to the cluster chosen for it, or opens a new one. */
  method Place(
    clusters: seq<Cluster>, best: int, bestSimilarity: real, maxTopics: int, outcome: Outcome, embedding: Embedding,
    ghost parts: seq<Part>)
    returns (ok: bool, clusters': seq<Cluster>, ghost next: nat)
    requires Hold(clusters, parts) && best < |clusters|
    modifies clusters
    ensures next == if best >= 0 && (bestSimilarity >= SIMILARITY_THRESHOLD || |clusters| >= maxTopics) then best
                    else |clusters|
    ensures ok ==> Hold(clusters', Joined(parts, next, outcome, embedding))
    ensures ok ==> forall c :: c in clusters' ==> c in clusters || fresh(c)
    ensures !ok ==> !Fit(Joined(parts, next, outcome, embedding)[next].embeddings)
  {
    if best >= 0 && (bestSimilarity >= SIMILARITY_THRESHOLD || |clusters| >= maxTopics) {
      next, clusters' := best, clusters;
      assert clusters[best].Holds(parts[best].outcomes, parts[best].embeddings);
      ok := clusters[best].Add(outcome, embedding, parts[best].outcomes, parts[best].embeddings);
    } else {
      next := |clusters|;
      var cluster := new Cluster();
      ok := cluster.Add(outcome, embedding, [], []);
      clusters' := clusters + [cluster];
      assert [] + [outcome] == [outcome] && [] + [embedding] == [embedding];
    }
    forall c | 0 <= c < |clusters| && c != next
      ensures clusters'[c].Holds(parts[c].outcomes, parts[c].embeddings)
    {
      assert old(clusters[c].Holds(parts[c].outcomes, parts[c].embeddings));
      assert clusters'[c] == clusters[c] && unchanged(clusters[c]);
    }
  }

  /** What holds once the first `k` outcomes are placed. */
  ghost predicate Placed(
    clusters: seq<Cluster>, outcomes: seq<Outcome>, embeddings: seq<Embedding>, k: nat,
    maxTopics: int, similarity: Similarity)
    requires k <= |outcomes| == |embeddings|
    reads clusters
  {
    Hold(clusters, Parts(outcomes[..k], embeddings[..k], Labels(embeddings[..k], maxTopics, similarity)))
  }

  /** One round of the greedy pass. */
  method PlaceNext(
    clusters: seq<Cluster>, outcomes: seq<Outcome>, embeddings: seq<Embedding>, k: nat,
    maxTopics: int, similarity: Similarity)
    returns (ok: bool, clusters': seq<Cluster>)
    requires k < |outcomes| == |embeddings| && Placed(clusters, outcomes, embeddings, k, maxTopics, similarity)
    modifies clusters
    ensures ok ==> Placed(clusters', outcomes, embeddings, k + 1, maxTopics, similarity)
    ensures ok ==> forall c :: 0 <= c < |clusters'| ==> clusters'[c] in clusters || fresh(clusters'[c])
    ensures !ok ==> !AllFit(embeddings, Labels(embeddings, maxTopics, similarity))
  {
    ghost var labels := Labels(embeddings[..k], maxTopics, similarity);
    LabelsNext(embeddings, k, maxTopics, similarity);
    HoldCentroids(clusters, outcomes[..k], embeddings[..k], labels);
    var best, bestSimilarity :=
      FindBest(embeddings[k], clusters, similarity, Centroids(embeddings[..k], labels, |clusters|));
    ghost var parts := Parts(outcomes[..k], embeddings[..k], labels);
    ghost var next;
    ok, clusters', next := Place(clusters, best, bestSimilarity, maxTopics, outcomes[k], embeddings[k], parts);
    PartsNext(outcomes, embeddings, k, labels, next);
    if !ok {
      CountNext(labels, next);
      MisfitStays(embeddings, k + 1, next, maxTopics, similarity);
    }
  }

  /**
   The greedy pass. It fails exactly when there are not as many embeddings as outcomes
   or some topic cannot be summed; otherwise its clusters are those of the labels.
   */
  method ClusterOutcomes(
    outcomes: seq<Outcome>, embeddings: seq<Embedding>, maxTopics: int, similarity: Similarity)
    returns (ok: bool, clusters: seq<Cluster>)
    ensures ok <==>
      |outcomes| == |embeddings| && AllFit(embeddings, Labels(embeddings, maxTopics, similarity))
    ensures ok ==> Hold(clusters, Parts(outcomes, embeddings, Labels(embeddings, maxTopics, similarity)))
    ensures ok ==> forall c :: 0 <= c < |clusters| ==> fresh(clusters[c])
  {
    ok, clusters := true, [];
    if |outcomes| != |embeddings| {
      return false, [];
    }
    for k := 0 to |outcomes|
      invariant ok
      invariant forall c :: 0 <= c < |clusters| ==> fresh(clusters[c])
      invariant Placed(clusters, outcomes, embeddings, k, maxTopics, similarity)
    {
      ok, clusters := PlaceNext(clusters, outcomes, embeddings, k, maxTopics, similarity);
      if !ok {
        return;
      }
    }
    assert outcomes[..|outcomes|] == outcomes && embeddings[..|outcomes|] == embeddings;
    HoldCentroids(clusters, outcomes, embeddings, Labels(embeddings, maxTopics, similarity));
  }

  datatype Topic = Topic(title: string, members: seq<Outcome>)

  datatype GapMap = GapMap(topics: seq<Topic>, eligibleCount: nat, configuredMinimum: int)

  datatype Error = GenerationFailed

  function TopicSizes(topics: seq<Topic>): nat {
    if topics == [] then 0 else TopicSizes(topics[..|topics| - 1]) + |topics[|topics| - 1].members|
  }

  ghost predicate AllEmbed(outcomes: seq<Outcome>, embed: string -> Option<Embedding>) {
    forall o :: o in outcomes ==> embed(o.question).Some?
  }

  /** The embeddings of outcomes that can all be embedded. */
  function Embedded(outcomes: seq<Outcome>, embed: string -> Option<Embedding>): (es: seq<Embedding>)
    requires AllEmbed(outcomes, embed)
    ensures |es| == |outcomes|
  {
    seq(|outcomes|, k requires 0 <= k < |outcomes| =>
      assert outcomes[k] in outcomes; embed(outcomes[k].question).value)
  }

  /** `[embed_question(o.question) for o in outcomes]`, which the first failure ends. */
  method EmbedAll(outcomes: seq<Outcome>, embed: string -> Option<Embedding>)
    returns (ok: bool, embeddings: seq<Embedding>)
    ensures ok <==> AllEmbed(outcomes, embed)
    ensures ok ==> embeddings == Embedded(outcomes, embed)
  {
    ok, embeddings := true, [];
    for k := 0 to |outcomes|
      invariant |embeddings| == k
      invariant forall j :: 0 <= j < k ==> embed(outcomes[j].question) == Some(embeddings[j])
    {
      var e := embed(outcomes[k].question);
      if e.None? {
        return false, [];
      }
      embeddings := embeddings + [e.value];
    }
  }

  /** The topics say what the labels say, in the order of the labels. */
  ghost predicate Assembled(topics: seq<Topic>, outcomes: seq<Outcome>, labels: seq<nat>)
    requires |outcomes| == |labels|
  {
    && TopicSizes(topics) == Sizes(outcomes, labels, |topics|)
    && forall c :: 0 <= c < |topics| ==>
         topics[c].members == Pick(outcomes, labels, c) && topics[c].members != [] && topics[c].title != ""
  }

  lemma {:induction false} OneMoreTopic(topics: seq<Topic>, topic: Topic, outcomes: seq<Outcome>, labels: seq<nat>)
    requires |outcomes| == |labels| && Assembled(topics, outcomes, labels)
    requires topic.members == Pick(outcomes, labels, |topics|) && topic.members != [] && topic.title != ""
    ensures Assembled(topics + [topic], outcomes, labels)
  {
    assert (topics + [topic])[..|topics|] == topics;
  }

  /** Every topic has the title that its members were given, and none was refused one. */
  ghost predicate AllTitled(
    topics: seq<Topic>, outcomes: seq<Outcome>, labels: seq<nat>, name: seq<Outcome> -> Option<string>)
    requires |outcomes| == |labels|
  {
    forall c :: 0 <= c < |topics| ==> Titled(topics[c], name) && !Unnamed(name(Pick(outcomes, labels, c)))
  }

  lemma {:induction false} OneMoreTitle(
    topics: seq<Topic>, topic: Topic, outcomes: seq<Outcome>, labels: seq<nat>, name: seq<Outcome> -> Option<string>)
    requires |outcomes| == |labels| && AllTitled(topics, outcomes, labels, name)
    requires topic.members == Pick(outcomes, labels, |topics|) && Titled(topic, name) && !Unnamed(name(topic.members))
    ensures AllTitled(topics + [topic], outcomes, labels, name)
  {
  }

  predicate Titled(topic: Topic, name: seq<Outcome> -> Option<string>) {
    name(topic.members).Some? && topic.title == Strip(name(topic.members).value)
  }

  lemma {:induction false} HasMembers(
    clusters: seq<Cluster>, outcomes: seq<Outcome>, embeddings: seq<Embedding>, labels: seq<nat>, c: nat)
    requires |outcomes| == |embeddings| == |labels| && Hold(clusters, Parts(outcomes, embeddings, labels))
    requires c < |clusters| && c in labels
    ensures clusters[c].members == Pick(outcomes, labels, c) && clusters[c].members != []
  {
    assert clusters[c].Holds(Pick(outcomes, labels, c), Pick(embeddings, labels, c));
    PickUsed(outcomes, labels, c);
  }

  /** One topic per cluster. The check for an empty cluster never fires. */
  method AssembleTopics(
    clusters: seq<Cluster>, name: seq<Outcome> -> Option<string>,
    ghost outcomes: seq<Outcome>, ghost embeddings: seq<Embedding>, ghost labels: seq<nat>)
    returns (ok: bool, topics: seq<Topic>)
    requires |outcomes| == |embeddings| == |labels| && Hold(clusters, Parts(outcomes, embeddings, labels))
    requires forall c :: 0 <= c < |clusters| ==> c in labels
    ensures ok ==> |topics| == |clusters| && Assembled(topics, outcomes, labels)
    ensures ok ==> forall c :: 0 <= c < |topics| ==> Titled(topics[c], name)
    ensures ok <==> forall c :: 0 <= c < |clusters| ==> !Unnamed(name(Pick(outcomes, labels, c)))
  {
    ok, topics := true, [];
    for c := 0 to |clusters|
      invariant |topics| == c && Assembled(topics, outcomes, labels)
      invariant AllTitled(topics, outcomes, labels, name)
    {
      HasMembers(clusters, outcomes, embeddings, labels, c);
      if |clusters[c].members| == 0 {
        assert false;
      }
      var title := name(clusters[c].members);
      if Unnamed(title) {
        return false, [];
      }
      var topic := Topic(Strip(title.value), clusters[c].members);
      OneMoreTopic(topics, topic, outcomes, labels);
      OneMoreTitle(topics, topic, outcomes, labels, name);
      topics := topics + [topic];
    }
  }

  /** The namer raised, or gave a blank title. */
  predicate Unnamed(title: Option<string>) {
    title.None? || Strip(title.value) == ""
  }

  /** Embedded outcomes make topics exactly if every topic can be summed up and gets a title. */
  ghost predicate Topical(
    outcomes: seq<Outcome>, embeddings: seq<Embedding>, name: seq<Outcome> -> Option<string>,
    maxTopics: int, similarity: Similarity)
    requires |outcomes| == |embeddings|
  {
    var labels := Labels(embeddings, maxTopics, similarity);
    && AllFit(embeddings, labels)
    && forall c :: 0 <= c < LabelCount(labels) ==> !Unnamed(name(Pick(outcomes, labels, c)))
  }

  /** The topics are those of the labels, titled, and no outcome is lost or counted twice. */
  ghost predicate TopicsOf(
    topics: seq<Topic>, outcomes: seq<Outcome>, embeddings: seq<Embedding>, name: seq<Outcome> -> Option<string>,
    maxTopics: int, similarity: Similarity)
    requires |outcomes| == |embeddings|
  {
    var labels := Labels(embeddings, maxTopics, similarity);
    && |topics| == LabelCount(labels) && Assembled(topics, outcomes, labels)
    && TopicSizes(topics) == |outcomes|
    && forall c :: 0 <= c < |topics| ==> Titled(topics[c], name)
  }

  /** Clustering and naming, the part of the generation that the embeddings feed. */
  method ClusterAndName(
    outcomes: seq<Outcome>, embeddings: seq<Embedding>, name: seq<Outcome> -> Option<string>,
    maxTopics: int, similarity: Similarity)
    returns (ok: bool, topics: seq<Topic>)
    requires |outcomes| == |embeddings|
    ensures ok <==> Topical(outcomes, embeddings, name, maxTopics, similarity)
    ensures ok ==> TopicsOf(topics, outcomes, embeddings, name, maxTopics, similarity)
  {
    var clustered, clusters := ClusterOutcomes(outcomes, embeddings, maxTopics, similarity);
    if !clustered {
      return false, [];
    }
    ghost var labels := Labels(embeddings, maxTopics, similarity);
    forall c | 0 <= c < |clusters| ensures c in labels {
      NoTopicIsEmpty(embeddings, maxTopics, similarity, c);
    }
    ok, topics := AssembleTopics(clusters, name, outcomes, embeddings, labels);
    SizesAddUp(outcomes, labels, LabelCount(labels));
  }

  /** Enough outcomes make a map exactly under these conditions. */
  ghost predicate Succeeds(
    outcomes: seq<Outcome>, embed: string -> Option<Embedding>, name: seq<Outcome> -> Option<string>,
    maxTopics: int, similarity: Similarity)
  {
    maxTopics >= 1 && AllEmbed(outcomes, embed)
    && Topical(outcomes, Embedded(outcomes, embed), name, maxTopics, similarity)
  }

  /**
   The map. `embed` and `name` stand for the two model calls, which may raise; a
   blank title is an error too.
   */
  method GenerateMap(
    outcomes: seq<Outcome>, embed: string -> Option<Embedding>, name: seq<Outcome> -> Option<string>,
    maxTopics: int, minEligible: int, similarity: Similarity)
    returns (r: Result<GapMap, Error>)
    ensures |outcomes| < minEligible ==> r == Success(GapMap([], |outcomes|, minEligible))
    ensures |outcomes| >= minEligible ==> (r.Success? <==> Succeeds(outcomes, embed, name, maxTopics, similarity))
    ensures r.Success? ==> r.value.eligibleCount == |outcomes| && r.value.configuredMinimum == minEligible
    ensures r.Success? && |outcomes| >= minEligible ==>
      TopicsOf(r.value.topics, outcomes, Embedded(outcomes, embed), name, maxTopics, similarity)
  {
    if |outcomes| < minEligible {
      return Success(GapMap([], |outcomes|, minEligible));
    }
    if maxTopics < 1 {
      return Failure(GenerationFailed);
    }
    var embedded, embeddings := EmbedAll(outcomes, embed);
    if !embedded {
      return Failure(GenerationFailed);
    }
    var ok, topics := ClusterAndName(outcomes, embeddings, name, maxTopics, similarity);
    if !ok {
      return Failure(GenerationFailed);
    }
    r := Success(GapMap(topics, |outcomes|, minEligible));
  }
}
