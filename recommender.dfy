/**
 * The rule-based advisor of appropriate.py: embedding-model and
 * vector-database recommendations from the sidebar requirements, the
 * setup-time estimate of the recommended stack, the vector-database table
 * filter, the radar "ease" value and the weighted decision-matrix score.
 */
module Recommender {
  import opened Ranking

  // ---------------------------------------------------------------------
  // Recommendations (tab "Recommendations")
  // ---------------------------------------------------------------------

  datatype EmbeddingRec = EmbeddingRec(
    model: string, score: int, reason: string, dimensions: nat, speed: string, cost: string)

  datatype VectorDbRec = VectorDbRec(
    database: string, score: int, reason: string, managed: string, cost: string, setupDifficulty: string)

  function EmbeddingScore(r: EmbeddingRec): int { r.score }

  function VectorDbScore(r: VectorDbRec): int { r.score }

  const CodeBert := EmbeddingRec("CodeBERT", 95, "Specifically designed for code understanding",
                                 768, "Medium", "Free")
  const AdaForCode := EmbeddingRec("text-embedding-ada-002", 85, "Excellent general performance, good with code",
                                   1536, "Fast", "$0.0001/1K tokens")
  const BioBert := EmbeddingRec("BioBERT", 95, "Domain-specific training on biomedical texts",
                                768, "Medium", "Free")
  const SciBert := EmbeddingRec("SciBERT", 90, "Trained on scientific literature", 768, "Medium", "Free")
  const Clip := EmbeddingRec("CLIP", 95, "Joint text-image understanding", 512, "Medium", "Free")
  const MiniLm := EmbeddingRec("all-MiniLM-L6-v2", 85, "Excellent performance-to-size ratio",
                               384, "Very Fast", "Free")
  const Ada := EmbeddingRec("text-embedding-ada-002", 95, "State-of-the-art performance",
                            1536, "Fast", "$0.0001/1K tokens")
  const Mpnet := EmbeddingRec("all-mpnet-base-v2", 90, "Great balance of performance and speed",
                              768, "Fast", "Free")

  /** The candidates get_embedding_recommendations appends, before sorting. */
  function EmbeddingCandidates(domain: string, budget: string): seq<EmbeddingRec>
  {
    if domain == "Code Search" then [CodeBert, AdaForCode]
    else if domain == "Scientific/Medical" then [BioBert, SciBert]
    else if domain == "Multimodal (Text+Images)" then [Clip]
    else if budget == "Cost-Optimized" then [MiniLm]
    else if budget == "Performance-First" then [Ada]
    else [Mpnet]
  }

  /** Each candidate list is non-empty and already in score order. */
  lemma EmbeddingCandidatesSorted(domain: string, budget: string)
    ensures |EmbeddingCandidates(domain, budget)| > 0
    ensures SortedDesc(EmbeddingCandidates(domain, budget), EmbeddingScore)
  {
  }

  /**
   * get_embedding_recommendations: the candidates for the domain (for any
   * other domain, one model picked by budget), highest score first.
   */
  function EmbeddingRecommendations(domain: string, budget: string): (r: seq<EmbeddingRec>)
    ensures |r| > 0 && SortedDesc(r, EmbeddingScore)
    ensures domain == "Code Search" ==> r == [CodeBert, AdaForCode]
    ensures domain == "Scientific/Medical" ==> r == [BioBert, SciBert]
    ensures domain == "Multimodal (Text+Images)" ==> r == [Clip]
    ensures domain != "Code Search" && domain != "Scientific/Medical" && domain != "Multimodal (Text+Images)" ==>
              r == if budget == "Cost-Optimized" then [MiniLm]
                   else if budget == "Performance-First" then [Ada]
                   else [Mpnet]
  {
    var candidates := EmbeddingCandidates(domain, budget);
    EmbeddingCandidatesSorted(domain, budget);
    SortDescKeepsSorted(candidates, EmbeddingScore);
    SortDesc(candidates, EmbeddingScore)
  }

  /** sub occurs in s starting at position i. */
  predicate OccursAt(s: string, sub: string, i: int)
  {
    0 <= i && i + |sub| <= |s| && s[i..i + |sub|] == sub
  }

  /** The substring test `sub in s`. */
  predicate Contains(s: string, sub: string)
  {
    exists i :: 0 <= i <= |s| - |sub| && OccursAt(s, sub, i)
  }

  /** A string without the first character of sub cannot contain sub. */
  lemma MissingFirstCharacter(s: string, sub: string)
    requires |sub| > 0 && sub[0] !in s
    ensures !Contains(s, sub)
  {
    forall i | 0 <= i <= |s| - |sub| && OccursAt(s, sub, i)
      ensures false
    {
    }
  }

  /** Of the four volume labels, exactly the last two mention "Large". */
  lemma VolumeLabelsMentioningLarge()
    ensures !Contains("Small (< 1M vectors)", "Large")
    ensures !Contains("Medium (1M-10M vectors)", "Large")
    ensures Contains("Large (10M-100M vectors)", "Large")
    ensures Contains("Very Large (> 100M vectors)", "Large")
  {
    MissingFirstCharacter("Small (< 1M vectors)", "Large");
    MissingFirstCharacter("Medium (1M-10M vectors)", "Large");
    assert OccursAt("Large (10M-100M vectors)", "Large", 0);
    var volume := "Very Large (> 100M vectors)";
    assert volume[5..10] == "Large" by {
      assert volume[5] == 'L' && volume[6] == 'a' && volume[7] == 'r' && volume[8] == 'g' && volume[9] == 'e';
    }
    assert OccursAt(volume, "Large", 5);
  }

  const Chroma := VectorDbRec("Chroma", 95, "Easy setup, perfect for small scale", "Self-hosted", "Free", "Easy")
  const Faiss := VectorDbRec("FAISS", 90, "High performance for small-medium datasets", "Self-hosted", "Free", "Medium")
  const Pinecone := VectorDbRec("Pinecone", 95, "Proven scalability, managed service", "Fully Managed",
                                "$70-$500+/month", "Easy")
  const Milvus := VectorDbRec("Milvus", 90, "Open source, highly scalable", "Self-hosted",
                              "Infrastructure only", "Hard")
  const Qdrant := VectorDbRec("Qdrant", 92, "Great performance, rich features", "Both available",
                              "Free/Paid cloud", "Medium")
  const Weaviate := VectorDbRec("Weaviate", 88, "Feature-rich, good documentation", "Both available",
                                "Free/Paid cloud", "Medium")

  /** The candidates get_vectordb_recommendations appends, before sorting. */
  function VectorDbCandidates(volume: string, expertise: string, deployment: string): seq<VectorDbRec>
  {
    if volume == "Small (< 1M vectors)" then
      if expertise == "Beginner" then [Chroma] else [Faiss]
    else if Contains(volume, "Large") then
      if deployment == "Cloud/Managed" then [Pinecone] else [Milvus]
    else [Qdrant, Weaviate]
  }

  /** Each candidate list is non-empty and already in score order. */
  lemma VectorDbCandidatesSorted(volume: string, expertise: string, deployment: string)
    ensures |VectorDbCandidates(volume, expertise, deployment)| > 0
    ensures SortedDesc(VectorDbCandidates(volume, expertise, deployment), VectorDbScore)
  {
  }

  /**
   * get_vectordb_recommendations: by data volume (small, any label
   * mentioning "Large", anything else), then by expertise or deployment,
   * highest score first.
   */
  function VectorDbRecommendations(volume: string, expertise: string, deployment: string): (r: seq<VectorDbRec>)
    ensures |r| > 0 && SortedDesc(r, VectorDbScore)
    ensures volume == "Small (< 1M vectors)" ==>
              r == if expertise == "Beginner" then [Chroma] else [Faiss]
    ensures volume != "Small (< 1M vectors)" && Contains(volume, "Large") ==>
              r == if deployment == "Cloud/Managed" then [Pinecone] else [Milvus]
    ensures volume != "Small (< 1M vectors)" && !Contains(volume, "Large") ==>
              r == [Qdrant, Weaviate]
  {
    var candidates := VectorDbCandidates(volume, expertise, deployment);
    VectorDbCandidatesSorted(volume, expertise, deployment);
    SortDescKeepsSorted(candidates, VectorDbScore);
    SortDesc(candidates, VectorDbScore)
  }

  /** The "Total Setup Time" estimate in days for a setup difficulty label. */
  function SetupDays(difficulty: string): (days: nat)
    ensures difficulty == "Easy" ==> days == 2
    ensures difficulty == "Medium" ==> days == 5
    ensures difficulty != "Easy" && difficulty != "Medium" ==> days == 10
  {
    if difficulty == "Easy" then 2 else if difficulty == "Medium" then 5 else 10
  }

  /**
   * The "Optimal Combination": the top embedding model, the top database
   * and the setup days of that database; each pick scores at least as
   * high as every other recommendation in its list.
   */
  function OptimalCombination(domain: string, budget: string, volume: string, expertise: string,
                              deployment: string): (r: (EmbeddingRec, VectorDbRec, nat))
    ensures r.0 in EmbeddingRecommendations(domain, budget)
    ensures r.1 in VectorDbRecommendations(volume, expertise, deployment)
    ensures forall e :: e in EmbeddingRecommendations(domain, budget) ==> e.score <= r.0.score
    ensures forall d :: d in VectorDbRecommendations(volume, expertise, deployment) ==> d.score <= r.1.score
    ensures r.0 == EmbeddingRecommendations(domain, budget)[0]
    ensures r.1 == VectorDbRecommendations(volume, expertise, deployment)[0]
    ensures r.2 == SetupDays(r.1.setupDifficulty) && r.2 in {2, 5, 10}
  {
    var embeddings := EmbeddingRecommendations(domain, budget);
    var databases := VectorDbRecommendations(volume, expertise, deployment);
    FirstHasLargestKey(embeddings, EmbeddingScore);
    FirstHasLargestKey(databases, VectorDbScore);
    (embeddings[0], databases[0], SetupDays(databases[0].setupDifficulty))
  }

  // ---------------------------------------------------------------------
  // The vector-database table (tab "Vector Databases")
  // ---------------------------------------------------------------------

  /** One row of the comparison table; the descriptive columns are omitted. */
  datatype VectorDbRow = VectorDbRow(
    database: string, serviceType: string, querySpeed: int, setupDifficulty: int,
    costScore: int, featuresScore: int, openSource: string, monthlyCost: int)

  const VectorDbTable: seq<VectorDbRow> := [
    VectorDbRow("Pinecone", "Managed", 95, 1, 60, 85, "No", 70),
    VectorDbRow("Weaviate", "Both", 85, 6, 80, 95, "Yes", 25),
    VectorDbRow("Qdrant", "Both", 90, 5, 85, 90, "Yes", 20),
    VectorDbRow("Milvus", "Both", 88, 8, 90, 85, "Yes", 0),
    VectorDbRow("Chroma", "Self-hosted", 80, 2, 100, 70, "Yes", 0),
    VectorDbRow("FAISS", "Self-hosted", 98, 4, 100, 60, "Yes", 0),
    VectorDbRow("Elasticsearch", "Both", 75, 7, 70, 80, "Partial", 80),
    VectorDbRow("Redis", "Both", 90, 5, 75, 75, "Partial", 50),
    VectorDbRow("MongoDB Atlas", "Managed", 70, 3, 65, 75, "No", 57),
    VectorDbRow("Vespa", "Self-hosted", 92, 9, 95, 95, "Yes", 0)
  ]

  /** The "Sort by" choices of the table. */
  datatype SortColumn = QuerySpeed | Features | CostScore | SetupDifficulty

  function Column(c: SortColumn, row: VectorDbRow): int
  {
    match c
    case QuerySpeed => row.querySpeed
    case Features => row.featuresScore
    case CostScore => row.costScore
    case SetupDifficulty => row.setupDifficulty
  }

  /** A row passes the three filters ("All" switches a selectbox filter off). */
  predicate Passes(row: VectorDbRow, serviceType: string, openSource: string, budgetMax: int)
    ensures serviceType == "All" && openSource == "All" ==>
              (Passes(row, serviceType, openSource, budgetMax) <==> row.monthlyCost <= budgetMax)
    ensures Passes(row, serviceType, openSource, budgetMax) ==> row.monthlyCost <= budgetMax
  {
    && (serviceType == "All" || row.serviceType == serviceType)
    && (openSource == "All" || row.openSource == openSource)
    && row.monthlyCost <= budgetMax
  }

  /** The rows that pass the filters, in table order. */
  function Filter(rows: seq<VectorDbRow>, serviceType: string, openSource: string, budgetMax: int): (r: seq<VectorDbRow>)
    ensures forall x :: x in r <==> x in rows && Passes(x, serviceType, openSource, budgetMax)
    ensures |r| <= |rows|
  {
    if rows == [] then []
    else
      var rest := Filter(rows[1..], serviceType, openSource, budgetMax);
      assert rows == [rows[0]] + rows[1..];
      if Passes(rows[0], serviceType, openSource, budgetMax) then [rows[0]] + rest else rest
  }

  /**
   * The filtered table: the rows that pass, sorted on the chosen column,
   * highest first except for setup difficulty, which sorts easiest first.
   */
  function FilteredVectorDbs(serviceType: string, openSource: string, budgetMax: int, sortBy: SortColumn)
    : (r: seq<VectorDbRow>)
    ensures forall x :: x in r <==> x in VectorDbTable && Passes(x, serviceType, openSource, budgetMax)
    ensures multiset(r) == multiset(Filter(VectorDbTable, serviceType, openSource, budgetMax))
    ensures sortBy != SetupDifficulty ==>
              forall i, j :: 0 <= i < j < |r| ==> Column(sortBy, r[i]) >= Column(sortBy, r[j])
    ensures sortBy == SetupDifficulty ==>
              forall i, j :: 0 <= i < j < |r| ==> r[i].setupDifficulty <= r[j].setupDifficulty
  {
    var rows := Filter(VectorDbTable, serviceType, openSource, budgetMax);
    var key := if sortBy == SetupDifficulty then (row: VectorDbRow) => -row.setupDifficulty
               else (row: VectorDbRow) => Column(sortBy, row);
    var r := SortDesc(rows, key);
    assert forall x :: x in r <==> x in rows by {
      forall x ensures x in r <==> x in rows {
        assert x in r <==> x in multiset(r);
      }
    }
    r
  }

  /** The radar chart's "Ease of Setup": 100 - 10 x difficulty. */
  function EaseOfSetup(difficulty: int): (r: int)
    ensures 1 <= difficulty <= 10 ==> 0 <= r <= 90 && r % 10 == 0
  {
    100 - difficulty * 10
  }

  /** An easier setup gets a higher radar value. */
  lemma EaseOfSetupReversesDifficulty(d1: int, d2: int)
    ensures d1 < d2 <==> EaseOfSetup(d1) > EaseOfSetup(d2)
  {
  }

  // ---------------------------------------------------------------------
  // The decision matrix (tab "Decision Matrix")
  // ---------------------------------------------------------------------

  const EmbeddingScores: map<string, map<string, int>> := map[
    "text-embedding-ada-002" := map["Performance" := 10, "Cost" := 3, "Ease" := 9, "Scale" := 10, "Features" := 8],
    "all-MiniLM-L6-v2" := map["Performance" := 7, "Cost" := 10, "Ease" := 10, "Scale" := 8, "Features" := 6],
    "all-mpnet-base-v2" := map["Performance" := 8, "Cost" := 9, "Ease" := 9, "Scale" := 8, "Features" := 7]
  ]

  const VectorDbScores: map<string, map<string, int>> := map[
    "Pinecone" := map["Performance" := 10, "Cost" := 4, "Ease" := 10, "Scale" := 10, "Features" := 8],
    "Chroma" := map["Performance" := 6, "Cost" := 10, "Ease" := 10, "Scale" := 5, "Features" := 5],
    "Qdrant" := map["Performance" := 9, "Cost" := 8, "Ease" := 7, "Scale" := 9, "Features" := 9]
  ]

  /** `table.get(name, {}).get(attribute, 5)`. */
  function Lookup(table: map<string, map<string, int>>, name: string, attribute: string): int
  {
    if name in table && attribute in table[name] then table[name][attribute] else 5
  }

  /** Every entry of both tables lies between 3 and 10. */
  lemma TableEntriesBounded(table: map<string, map<string, int>>, name: string, attribute: string)
    requires table == EmbeddingScores || table == VectorDbScores
    ensures 3 <= Lookup(table, name, attribute) <= 10
  {
  }

  /** The text before the first space. */
  function FirstWord(key: string): (w: string)
    ensures |w| <= |key| && w == key[..|w|] && ' ' !in w
    ensures |w| < |key| ==> key[|w|] == ' '
  {
    if key == [] || key[0] == ' ' then [] else [key[0]] + FirstWord(key[1..])
  }

  /** The attribute a weight's label refers to: its first word, with "Scalability" renamed "Scale". */
  function ShortKey(key: string): (r: string)
    ensures ' ' !in r
    ensures r == FirstWord(key) || (FirstWord(key) == "Scalability" && r == "Scale")
  {
    var w := FirstWord(key);
    if w == "Scalability" then "Scale" else w
  }

  /** A prefix free of spaces that ends the key or stops at a space is its first word. */
  lemma {:induction false} FirstWordIs(key: string, w: string)
    requires |w| <= |key| && w == key[..|w|] && ' ' !in w
    requires |w| < |key| ==> key[|w|] == ' '
    ensures FirstWord(key) == w
  {
    if w != [] {
      assert key[0] == w[0];
      FirstWordIs(key[1..], w[1..]);
    }
  }

  /** A key without spaces is its own first word. */
  lemma FirstWordOfWord(key: string)
    requires ' ' !in key
    ensures FirstWord(key) == key
  {
    FirstWordIs(key, key);
  }

  lemma PerformanceIsPerformance() ensures ShortKey("Performance") == "Performance" { FirstWordOfWord("Performance"); }

  lemma CostIsCost() ensures ShortKey("Cost") == "Cost" { FirstWordOfWord("Cost"); }

  lemma EaseOfUseIsEase() ensures ShortKey("Ease of Use") == "Ease" { FirstWordIs("Ease of Use", "Ease"); }

  lemma ScalabilityIsScale() ensures ShortKey("Scalability") == "Scale" { FirstWordOfWord("Scalability"); }

  lemma FeaturesIsFeatures() ensures ShortKey("Features") == "Features" { FirstWordOfWord("Features"); }

  /** The five slider labels name the five attributes of the tables. */
  lemma SliderLabelsMapToAttributes()
    ensures ShortKey("Performance") == "Performance"
    ensures ShortKey("Cost") == "Cost"
    ensures ShortKey("Ease of Use") == "Ease"
    ensures ShortKey("Scalability") == "Scale"
    ensures ShortKey("Features") == "Features"
  {
    PerformanceIsPerformance();
    CostIsCost();
    EaseOfUseIsEase();
    ScalabilityIsScale();
    FeaturesIsFeatures();
  }

  /** One weight's term: (embedding value + database value) x weight for the attribute it names. */
  function Term(embedding: string, vectordb: string, weight: (string, int)): int
  {
    var attribute := ShortKey(weight.0);
    (Lookup(EmbeddingScores, embedding, attribute) + Lookup(VectorDbScores, vectordb, attribute)) * weight.1
  }

  /**
   * The sum of the terms of all weights. For a pair missing from both
   * tables every attribute takes the default 5 on each side, so the sum is
   * 10 per unit of weight.
   */
  function WeightedSum(embedding: string, vectordb: string, weights: seq<(string, int)>): (r: int)
    ensures embedding !in EmbeddingScores && vectordb !in VectorDbScores ==> r == 10 * TotalWeight(weights)
  {
    if weights == [] then 0
    else WeightedSum(embedding, vectordb, weights[..|weights| - 1]) + Term(embedding, vectordb, weights[|weights| - 1])
  }

  function TotalWeight(weights: seq<(string, int)>): int
  {
    if weights == [] then 0 else TotalWeight(weights[..|weights| - 1]) + weights[|weights| - 1].1
  }

  /**
   * calculate_score: walk the weights, add (embedding value + database
   * value) × weight for each, and halve the total.
   */
  method CalculateScore(embedding: string, vectordb: string, weights: seq<(string, int)>) returns (score: real)
    ensures score == WeightedSum(embedding, vectordb, weights) as real / 2.0
  {
    var total := 0;
    var i := 0;
    while i < |weights|
      invariant 0 <= i <= |weights|
      invariant total == WeightedSum(embedding, vectordb, weights[..i])
    {
      total := total + Term(embedding, vectordb, weights[i]);
      assert weights[..i + 1][..i] == weights[..i];
      i := i + 1;
    }
    assert weights[..i] == weights;
    score := total as real / 2.0;
  }

  lemma ProductBounds(v: int, w: int)
    requires 6 <= v <= 20 && w >= 0
    ensures 6 * w <= v * w <= 20 * w
  {
  }

  /** A non-negative weight's term lies between 6 and 20 times the weight. */
  lemma TermBounds(embedding: string, vectordb: string, weight: (string, int))
    requires weight.1 >= 0
    ensures 6 * weight.1 <= Term(embedding, vectordb, weight) <= 20 * weight.1
  {
    var attribute := ShortKey(weight.0);
    TableEntriesBounded(EmbeddingScores, embedding, attribute);
    TableEntriesBounded(VectorDbScores, vectordb, attribute);
    ProductBounds(Lookup(EmbeddingScores, embedding, attribute) + Lookup(VectorDbScores, vectordb, attribute), weight.1);
  }

  /** With non-negative weights the sum lies between 6 and 20 times the total weight. */
  lemma {:induction false} WeightedSumBounds(embedding: string, vectordb: string, weights: seq<(string, int)>)
    requires forall i :: 0 <= i < |weights| ==> weights[i].1 >= 0
    ensures 6 * TotalWeight(weights) <= WeightedSum(embedding, vectordb, weights) <= 20 * TotalWeight(weights)
  {
    if weights != [] {
      var init, last := weights[..|weights| - 1], weights[|weights| - 1];
      WeightedSumBounds(embedding, vectordb, init);
      TermBounds(embedding, vectordb, last);
      assert WeightedSum(embedding, vectordb, weights) == WeightedSum(embedding, vectordb, init) + Term(embedding, vectordb, last);
      assert TotalWeight(weights) == TotalWeight(init) + last.1;
    }
  }
}
