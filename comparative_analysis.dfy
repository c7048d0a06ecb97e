/**
 * `comparative_analysis`: the cross-article report built from a company's
 * scored and topic-tagged articles. `ComparativeReport` is the report as a
 * function of the input; `ComparativeAnalysis` computes it the way the
 * source does, with a counter filled in nested loops and a list of
 * coverage differences appended to in a loop.
 */
module ComparativeAnalysis {
  import opened Wrappers
  import opened OrderedCounter
  import opened Text
  import Sentiment

  /** A topic as an article stores it: a plain word, or the legacy tuple shape whose first item is the word. */
  datatype Topic = Word(word: string) | Tuple(items: seq<string>)

  /** One article; `sentiment` and `topics` are absent when the article record lacks that key. */
  datatype Article = Article(title: string, summary: string, sentiment: Option<string>, topics: Option<seq<Topic>>)

  datatype NewsData = NewsData(company: string, articles: seq<Article>)

  datatype CoverageDifference = CoverageDifference(comparison: string, impact: string)

  datatype TopicOverlap = TopicOverlap(commonTopics: seq<string>, uniqueTopics: seq<string>)

  datatype ComparativeScore = ComparativeScore(
    sentimentDistribution: Counter,
    coverageDifferences: seq<CoverageDifference>,
    topicOverlap: TopicOverlap)

  datatype Report = Report(
    company: string,
    articles: seq<Article>,
    score: ComparativeScore,
    finalSentimentAnalysis: string,
    audio: string)

  /** The exceptions a malformed article raises. */
  datatype Error =
    | EmptyTupleTopic  // IndexError: the first item of an empty tuple topic
    | MissingTopics    // KeyError: an article without "Topics" reaches the comparison text
    | NonStringTopic   // TypeError: a tuple topic reaches ", ".join

  const Impact: string := "This shows how different perspectives exist within news coverage."
  const Audio: string := "[Play Hindi Speech]"

  /** The article's label; an article without one counts as neutral. */
  function SentimentOf(a: Article): string {
    match a.sentiment
    case Some(s) => s
    case None => Sentiment.Neutral
  }

  function Sentiments(articles: seq<Article>): seq<string> {
    seq(|articles|, i requires 0 <= i < |articles| => SentimentOf(articles[i]))
  }

  /** The topics the counting loop visits; an article without topics contributes none. */
  function TopicsOf(a: Article): seq<Topic> {
    match a.topics
    case Some(ts) => ts
    case None => []
  }

  /** A topic whose counting key exists: every word, and every tuple with a first item. */
  predicate WellShaped(t: Topic) {
    t.Word? || |t.items| > 0
  }

  function TopicKey(t: Topic): string
    requires WellShaped(t)
  {
    if t.Word? then t.word else t.items[0]
  }

  predicate TopicsWellShaped(ts: seq<Topic>) {
    forall j :: 0 <= j < |ts| ==> WellShaped(ts[j])
  }

  predicate AllWellShaped(articles: seq<Article>) {
    forall i :: 0 <= i < |articles| ==> TopicsWellShaped(TopicsOf(articles[i]))
  }

  function KeysOf(ts: seq<Topic>): seq<string>
    requires TopicsWellShaped(ts)
  {
    if ts == [] then [] else KeysOf(ts[..|ts| - 1]) + [TopicKey(ts[|ts| - 1])]
  }

  /** Every topic key of every article, article after article: the stream the topic counter consumes. */
  function AllTopics(articles: seq<Article>): seq<string>
    requires AllWellShaped(articles)
  {
    if articles == [] then []
    else AllTopics(articles[..|articles| - 1]) + KeysOf(TopicsOf(articles[|articles| - 1]))
  }

  /** An article whose topics can be joined into the comparison text: present and all plain words. */
  predicate Joinable(a: Article) {
    a.topics.Some? && forall j :: 0 <= j < |a.topics.value| ==> a.topics.value[j].Word?
  }

  predicate AllJoinable(articles: seq<Article>) {
    forall i :: 0 <= i < |articles| ==> Joinable(articles[i])
  }

  /** The exception raised when the comparison text reaches an article that is not joinable. */
  function JoinError(a: Article): Error
    requires !Joinable(a)
  {
    if a.topics.None? then MissingTopics else NonStringTopic
  }

  function Words(a: Article): seq<string>
    requires Joinable(a)
  {
    seq(|a.topics.value|, j requires 0 <= j < |a.topics.value| && a.topics.value[j].Word? => a.topics.value[j].word)
  }

  /** The first article, in index order, that the comparison text cannot join. */
  function FirstUnjoinable(articles: seq<Article>): (k: nat)
    requires !AllJoinable(articles)
    ensures k < |articles| && !Joinable(articles[k])
    ensures forall i :: 0 <= i < k ==> Joinable(articles[i])
  {
    if !Joinable(articles[0]) then 0
    else
      assert !AllJoinable(articles[1..]) by {
        var i :| 0 <= i < |articles| && !Joinable(articles[i]);
        assert articles[1..][i - 1] == articles[i];
      }
      1 + FirstUnjoinable(articles[1..])
  }

  /** The text comparing article `i` (0-based) with the next one. */
  function Comparison(i: nat, left: seq<string>, right: seq<string>): string {
    "Article " + Decimal(i + 1) + " focuses on " + Join(", ", left)
    + ", whereas Article " + Decimal(i + 2) + " discusses " + Join(", ", right) + "."
  }

  function CoverageEntry(articles: seq<Article>, i: nat): CoverageDifference
    requires i + 1 < |articles| && Joinable(articles[i]) && Joinable(articles[i + 1])
  {
    CoverageDifference(Comparison(i, Words(articles[i]), Words(articles[i + 1])), Impact)
  }

  /** One entry per adjacent pair of articles. */
  function CoverageDifferences(articles: seq<Article>): seq<CoverageDifference>
    requires |articles| <= 1 || AllJoinable(articles)
  {
    if |articles| <= 1 then []
    else seq(|articles| - 1, i requires 0 <= i < |articles| - 1 => CoverageEntry(articles, i))
  }

  /** The majority word of the verdict; a tie, zero articles included, reads as negative. */
  function Majority(distribution: Counter): string {
    if Get(distribution, Sentiment.Positive) > Get(distribution, Sentiment.Negative) then "Positive" else "Negative"
  }

  function FinalSentimentAnalysis(company: string, distribution: Counter): string {
    company + "'s latest news coverage is mostly " + Majority(distribution) + "."
  }

  /** The report, or the exception the first malformed article raises. */
  function ComparativeReport(news: NewsData): Result<Report, Error> {
    var articles := news.articles;
    if !AllWellShaped(articles) then Failure(EmptyTupleTopic)
    else if |articles| > 1 && !AllJoinable(articles) then Failure(JoinError(articles[FirstUnjoinable(articles)]))
    else
      var distribution := CountAll(Sentiments(articles));
      var topicSummary := CountAll(AllTopics(articles));
      var overlap := TopicOverlap(CommonKeys(topicSummary), Keys(topicSummary));
      Success(Report(
        news.company,
        articles,
        ComparativeScore(distribution, CoverageDifferences(articles), overlap),
        FinalSentimentAnalysis(news.company, distribution),
        Audio))
  }

  /** The inner loop of the topic counter: counts one article's topics on top of `summary`. */
  method CountArticleTopics(summary: Counter, ghost seen: seq<string>, topics: seq<Topic>)
    returns (r: Result<Counter, Error>)
    requires summary == CountAll(seen)
    ensures r.Success? <==> TopicsWellShaped(topics)
    ensures r.Success? ==> TopicsWellShaped(topics) && r.value == CountAll(seen + KeysOf(topics))
    ensures r.Failure? ==> r.error == EmptyTupleTopic
  {
    var counter := summary;
    var j := 0;
    assert topics[..0] == [] && seen + KeysOf([]) == seen;
    while j < |topics|
      invariant 0 <= j <= |topics|
      invariant TopicsWellShaped(topics[..j])
      invariant counter == CountAll(seen + KeysOf(topics[..j]))
    {
      var topic := topics[j];
      var key: string;
      if topic.Tuple? {
        if |topic.items| == 0 {
          assert !WellShaped(topics[j]);
          return Failure(EmptyTupleTopic);
        }
        key := topic.items[0];
      } else {
        key := topic.word;
      }
      CountStep(seen, topics, j);
      counter := Add(counter, key);
      j := j + 1;
    }
    assert topics[..j] == topics;
    r := Success(counter);
  }

  /** The topic counter of `comparative_analysis`, filled article by article. */
  method CountTopics(articles: seq<Article>) returns (r: Result<Counter, Error>)
    ensures r.Success? <==> AllWellShaped(articles)
    ensures r.Success? ==> AllWellShaped(articles) && r.value == CountAll(AllTopics(articles))
    ensures r.Failure? ==> r.error == EmptyTupleTopic
  {
    var topicSummary: Counter := [];
    var i := 0;
    while i < |articles|
      invariant 0 <= i <= |articles|
      invariant AllWellShaped(articles[..i])
      invariant topicSummary == CountAll(AllTopics(articles[..i]))
    {
      var counted := CountArticleTopics(topicSummary, AllTopics(articles[..i]), TopicsOf(articles[i]));
      if counted.Failure? {
        assert !TopicsWellShaped(TopicsOf(articles[i]));
        return counted;
      }
      AllTopicsStep(articles, i);
      topicSummary := counted.value;
      i := i + 1;
    }
    assert articles[..i] == articles;
    r := Success(topicSummary);
  }

  /** Counting one more article extends the counted stream by that article's topic keys. */
  lemma AllTopicsStep(articles: seq<Article>, i: nat)
    requires i < |articles| && AllWellShaped(articles[..i]) && TopicsWellShaped(TopicsOf(articles[i]))
    ensures AllWellShaped(articles[..i + 1])
    ensures AllTopics(articles[..i + 1]) == AllTopics(articles[..i]) + KeysOf(TopicsOf(articles[i]))
  {
    assert articles[..i + 1][..i] == articles[..i];
    assert articles[..i + 1][i] == articles[i];
  }

  /** Counting one more topic of an article extends the counted stream by that topic's key. */
  lemma CountStep(seen: seq<string>, ts: seq<Topic>, j: nat)
    requires j < |ts| && TopicsWellShaped(ts[..j]) && WellShaped(ts[j])
    ensures TopicsWellShaped(ts[..j + 1])
    ensures CountAll(seen + KeysOf(ts[..j + 1])) == Add(CountAll(seen + KeysOf(ts[..j])), TopicKey(ts[j]))
  {
    assert ts[..j + 1][..j] == ts[..j];
    assert ts[..j + 1][j] == ts[j];
    var before := seen + KeysOf(ts[..j]);
    assert KeysOf(ts[..j + 1]) == KeysOf(ts[..j]) + [TopicKey(ts[j])];
    assert seen + KeysOf(ts[..j + 1]) == before + [TopicKey(ts[j])];
    assert (before + [TopicKey(ts[j])])[..|before|] == before;
  }

  /** The coverage-difference loop over adjacent pairs; stops at the first article it cannot join. */
  method CompareAdjacent(articles: seq<Article>) returns (r: Result<seq<CoverageDifference>, Error>)
    requires |articles| > 1
    ensures r.Success? <==> AllJoinable(articles)
    ensures r.Success? ==> AllJoinable(articles) && r.value == CoverageDifferences(articles)
    ensures r.Failure? ==> !AllJoinable(articles) && r.error == JoinError(articles[FirstUnjoinable(articles)])
  {
    var coverageDifferences: seq<CoverageDifference> := [];
    var k := 0;
    while k < |articles| - 1
      invariant 0 <= k <= |articles| - 1
      invariant forall m :: 0 <= m < k ==> Joinable(articles[m])
      invariant 0 < k ==> Joinable(articles[k])
      invariant |coverageDifferences| == k
      invariant forall m :: 0 <= m < k ==> coverageDifferences[m] == CoverageEntry(articles, m)
    {
      if !Joinable(articles[k]) {
        return Failure(JoinError(articles[k]));
      }
      if !Joinable(articles[k + 1]) {
        return Failure(JoinError(articles[k + 1]));
      }
      var comparison := Comparison(k, Words(articles[k]), Words(articles[k + 1]));
      coverageDifferences := coverageDifferences + [CoverageDifference(comparison, Impact)];
      k := k + 1;
    }
    r := Success(coverageDifferences);
  }

  /** `comparative_analysis(news_data)`. */
  method ComparativeAnalysis(news: NewsData) returns (r: Result<Report, Error>)
    ensures r == ComparativeReport(news)
  {
    var articles := news.articles;
    var sentimentCount := CountAll(Sentiments(articles));
    var counted := CountTopics(articles);
    if counted.Failure? {
      return Failure(counted.error);
    }
    var topicSummary := counted.value;
    var uniqueTopics := Keys(topicSummary);
    var coverageDifferences: seq<CoverageDifference> := [];
    if |articles| > 1 {
      var compared := CompareAdjacent(articles);
      if compared.Failure? {
        return Failure(compared.error);
      }
      coverageDifferences := compared.value;
    }
    var commonTopics := CommonKeys(topicSummary);
    r := Success(Report(
      news.company,
      articles,
      ComparativeScore(sentimentCount, coverageDifferences, TopicOverlap(commonTopics, uniqueTopics)),
      FinalSentimentAnalysis(news.company, sentimentCount),
      Audio));
  }
}
