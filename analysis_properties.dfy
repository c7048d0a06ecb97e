/**
 * What `comparative_analysis` promises about its report: the sentiment
 * histogram, the templated coverage differences, the topic overlap, the
 * verdict, and when the call raises instead of returning.
 */
module AnalysisProperties {
  import opened Wrappers
  import opened Sequences
  import opened OrderedCounter
  import opened Text
  import opened ComparativeAnalysis

  function ReportOf(news: NewsData): Report
    requires ComparativeReport(news).Success?
  {
    ComparativeReport(news).value
  }

  /** Where each part of a report comes from. */
  lemma ReportFields(news: NewsData)
    requires ComparativeReport(news).Success?
    ensures AllWellShaped(news.articles)
    ensures |news.articles| <= 1 || AllJoinable(news.articles)
    ensures ReportOf(news) == Report(
              news.company,
              news.articles,
              ComparativeScore(
                CountAll(Sentiments(news.articles)),
                CoverageDifferences(news.articles),
                TopicOverlap(CommonKeys(CountAll(AllTopics(news.articles))), Keys(CountAll(AllTopics(news.articles))))),
              FinalSentimentAnalysis(news.company, CountAll(Sentiments(news.articles))),
              Audio)
  {
  }

  /**
   * The sentiment histogram counts each label once per article carrying it
   * (an article without a label carries "Neutral"); its counts add up to
   * the number of articles, and no other label appears.
   */
  lemma SentimentDistribution(articles: seq<Article>)
    ensures forall s :: Get(CountAll(Sentiments(articles)), s) == multiset(Sentiments(articles))[s]
    ensures Total(CountAll(Sentiments(articles))) == |articles|
    ensures Distinct(Keys(CountAll(Sentiments(articles))))
    ensures forall s :: s in Keys(CountAll(Sentiments(articles))) <==>
                          exists i :: 0 <= i < |articles| && SentimentOf(articles[i]) == s
    ensures articles == [] ==> CountAll(Sentiments(articles)) == []
  {
    var labels := Sentiments(articles);
    forall s ensures Get(CountAll(labels), s) == multiset(labels)[s] {
      CountAllGet(labels, s);
    }
    CountAllTotal(labels);
    CountAllKeys(labels);
    forall s ensures s in labels <==> exists i :: 0 <= i < |articles| && SentimentOf(articles[i]) == s {
      if s in labels {
        var i :| 0 <= i < |labels| && labels[i] == s;
      }
      if exists i :: 0 <= i < |articles| && SentimentOf(articles[i]) == s {
        var i :| 0 <= i < |articles| && SentimentOf(articles[i]) == s;
        assert labels[i] == s;
      }
    }
  }

  /**
   * One entry per adjacent pair of articles; entry `i` compares article `i`
   * with article `i + 1` by their topic words and always carries the same
   * impact sentence.
   */
  lemma CoverageDifferencesTemplate(articles: seq<Article>)
    requires |articles| <= 1 || AllJoinable(articles)
    ensures |CoverageDifferences(articles)| == if |articles| > 1 then |articles| - 1 else 0
    ensures forall i {:trigger CoverageDifferences(articles)[i]} :: 0 <= i < |articles| - 1 ==>
              && Joinable(articles[i]) && Joinable(articles[i + 1])
              && CoverageDifferences(articles)[i] ==
                   CoverageDifference(Comparison(i, Words(articles[i]), Words(articles[i + 1])),
                                      "This shows how different perspectives exist within news coverage.")
  {
  }

  /** A topic key is in the stream exactly when some article carries a topic with that key. */
  lemma {:induction false} AllTopicsMembers(articles: seq<Article>)
    requires AllWellShaped(articles)
    ensures forall t :: t in AllTopics(articles) <==>
              exists i, j :: 0 <= i < |articles| && 0 <= j < |TopicsOf(articles[i])| && TopicKey(TopicsOf(articles[i])[j]) == t
  {
    if articles != [] {
      var p, a := articles[..|articles| - 1], articles[|articles| - 1];
      assert AllWellShaped(p) by {
        forall i | 0 <= i < |p| ensures TopicsWellShaped(TopicsOf(p[i])) {
          assert p[i] == articles[i];
        }
      }
      AllTopicsMembers(p);
      KeysOfMembers(TopicsOf(a));
      assert AllTopics(articles) == AllTopics(p) + KeysOf(TopicsOf(a));
      forall t | t in AllTopics(articles)
        ensures exists i, j :: 0 <= i < |articles| && 0 <= j < |TopicsOf(articles[i])| && TopicKey(TopicsOf(articles[i])[j]) == t
      {
        if t in AllTopics(p) {
          var i, j :| 0 <= i < |p| && 0 <= j < |TopicsOf(p[i])| && TopicKey(TopicsOf(p[i])[j]) == t;
          assert p[i] == articles[i];
        } else {
          var j :| 0 <= j < |TopicsOf(a)| && TopicKey(TopicsOf(a)[j]) == t;
          assert articles[|articles| - 1] == a;
        }
      }
      forall t, i, j | 0 <= i < |articles| && 0 <= j < |TopicsOf(articles[i])| && TopicKey(TopicsOf(articles[i])[j]) == t
        ensures t in AllTopics(articles)
      {
        if i < |p| {
          assert p[i] == articles[i];
        }
      }
    }
  }

  lemma {:induction false} KeysOfMembers(ts: seq<Topic>)
    requires TopicsWellShaped(ts)
    ensures forall t :: t in KeysOf(ts) <==> exists j :: 0 <= j < |ts| && TopicKey(ts[j]) == t
  {
    if ts != [] {
      var p := ts[..|ts| - 1];
      assert TopicsWellShaped(p) by {
        forall j | 0 <= j < |p| ensures WellShaped(p[j]) {
          assert p[j] == ts[j];
        }
      }
      KeysOfMembers(p);
      forall t | exists j :: 0 <= j < |ts| && TopicKey(ts[j]) == t ensures t in KeysOf(ts) {
        var j :| 0 <= j < |ts| && TopicKey(ts[j]) == t;
        if j < |p| {
          assert p[j] == ts[j];
        }
      }
    }
  }

  /**
   * "Unique Topics" lists every topic seen in any article, once each, in
   * the order of first occurrence; it is not restricted to topics seen once.
   */
  lemma UniqueTopics(articles: seq<Article>)
    requires AllWellShaped(articles)
    ensures Distinct(Keys(CountAll(AllTopics(articles))))
    ensures forall t :: t in Keys(CountAll(AllTopics(articles))) <==> t in AllTopics(articles)
    ensures forall t :: t in Keys(CountAll(AllTopics(articles))) <==>
              exists i, j :: 0 <= i < |articles| && 0 <= j < |TopicsOf(articles[i])|
                             && TopicKey(TopicsOf(articles[i])[j]) == t
    ensures forall i, j :: 0 <= i < j < |Keys(CountAll(AllTopics(articles)))| ==>
              FirstIndex(AllTopics(articles), Keys(CountAll(AllTopics(articles)))[i])
              < FirstIndex(AllTopics(articles), Keys(CountAll(AllTopics(articles)))[j])
  {
    CountAllKeys(AllTopics(articles));
    CountAllKeysInOrder(AllTopics(articles));
    AllTopicsMembers(articles);
  }

  /**
   * "Common Topics" are exactly the topics occurring more than once over all
   * articles' topic lists, listed in the order of "Unique Topics".
   */
  lemma CommonTopics(articles: seq<Article>)
    requires AllWellShaped(articles)
    ensures forall t :: t in CommonKeys(CountAll(AllTopics(articles))) <==> multiset(AllTopics(articles))[t] > 1
    ensures SubsequenceOf(CommonKeys(CountAll(AllTopics(articles))), Keys(CountAll(AllTopics(articles))))
  {
    var stream := AllTopics(articles);
    CountAllKeys(stream);
    CommonKeysMembers(CountAll(stream));
    CommonKeysInOrder(CountAll(stream));
    forall t ensures Get(CountAll(stream), t) == multiset(stream)[t] {
      CountAllGet(stream, t);
    }
  }

  /**
   * The verdict says "Positive" exactly when more articles are labelled
   * "Positive" than "Negative", and "Negative" otherwise, ties included.
   */
  lemma FinalVerdict(articles: seq<Article>)
    ensures Majority(CountAll(Sentiments(articles))) == "Positive"
            <==> multiset(Sentiments(articles))["Positive"] > multiset(Sentiments(articles))["Negative"]
    ensures Majority(CountAll(Sentiments(articles))) == "Negative"
            <==> multiset(Sentiments(articles))["Positive"] <= multiset(Sentiments(articles))["Negative"]
  {
    var labels := Sentiments(articles);
    CountAllGet(labels, "Positive");
    CountAllGet(labels, "Negative");
    assert "Positive"[0] != "Negative"[0];
  }

  /**
   * The call returns a report unless a malformed article makes it raise: an
   * empty tuple topic always does, and with two or more articles so does an
   * article without topics or with a tuple topic. A report passes the company
   * and the articles through and carries the fixed audio placeholder.
   */
  lemma Outcome(news: NewsData)
    ensures ComparativeReport(news).Success? <==>
              (forall i, j :: 0 <= i < |news.articles| && 0 <= j < |TopicsOf(news.articles[i])| ==>
                                TopicsOf(news.articles[i])[j] != Tuple([]))
              && (|news.articles| <= 1 || forall i :: 0 <= i < |news.articles| ==> Joinable(news.articles[i]))
    ensures ComparativeReport(news) == Failure(EmptyTupleTopic) <==>
              exists i, j :: 0 <= i < |news.articles| && 0 <= j < |TopicsOf(news.articles[i])|
                             && TopicsOf(news.articles[i])[j] == Tuple([])
    ensures ComparativeReport(news) == Failure(MissingTopics) ==>
              exists i :: 0 <= i < |news.articles| && news.articles[i].topics.None?
    ensures ComparativeReport(news).Success? ==>
              && ReportOf(news).company == news.company
              && ReportOf(news).articles == news.articles
              && ReportOf(news).audio == "[Play Hindi Speech]"
  {
    var articles := news.articles;
    forall i, j | 0 <= i < |articles| && 0 <= j < |TopicsOf(articles[i])|
      ensures WellShaped(TopicsOf(articles[i])[j]) <==> TopicsOf(articles[i])[j] != Tuple([])
    {
      var t := TopicsOf(articles[i])[j];
      if t.Tuple? && t.items == [] { assert t == Tuple([]); }
    }
    if ComparativeReport(news) == Failure(MissingTopics) {
      var k := FirstUnjoinable(articles);
      assert articles[k].topics.None?;
    }
  }

  /** With no articles: an empty histogram and overlap, no coverage differences, and a "Negative" verdict. */
  lemma NoArticles(company: string)
    ensures ComparativeReport(NewsData(company, [])) ==
              Success(Report(company, [], ComparativeScore([], [], TopicOverlap([], [])),
                             company + "'s latest news coverage is mostly Negative.", "[Play Hindi Speech]"))
  {
    assert Sentiments([]) == [];
    assert AllTopics([]) == [];
    assert CountAll([]) == [];
    assert Keys([]) == [];
    assert Majority([]) == "Negative";
    assert CommonKeys([]) == [] && CoverageDifferences([]) == [];
    assert AllWellShaped([]);
    assert FinalSentimentAnalysis(company, []) == company + "'s latest news coverage is mostly Negative.";
  }

  function AcmeArticles(): seq<Article> {
    [Article("A", "Great profits this quarter", Some("Positive"), Some([Word("great"), Word("profits"), Word("quarter")])),
     Article("B", "Massive losses reported", Some("Negative"), Some([Word("massive"), Word("losses"), Word("reported")]))]
  }

  lemma AcmeDistribution()
    ensures CountAll(["Positive", "Negative"]) == [Entry("Positive", 1), Entry("Negative", 1)]
  {
    assert ["Positive", "Negative"][..1] == ["Positive"];
    assert CountAll(["Positive"]) == [Entry("Positive", 1)];
    assert "Positive"[0] != "Negative"[0];
    assert Find([Entry("Positive", 1)], "Negative") == -1;
  }

  /**
   * Two articles about "Acme", one labelled "Positive" and one "Negative":
   * one label each, one coverage difference, and the tie reads "Negative".
   */
  lemma AcmeTie()
    ensures AllWellShaped(AcmeArticles()) && AllJoinable(AcmeArticles())
    ensures CountAll(Sentiments(AcmeArticles())) == [Entry("Positive", 1), Entry("Negative", 1)]
    ensures Majority(CountAll(Sentiments(AcmeArticles()))) == "Negative"
    ensures |CoverageDifferences(AcmeArticles())| == 1
  {
    var articles := AcmeArticles();
    assert AllWellShaped(articles);
    assert Sentiments(articles) == ["Positive", "Negative"];
    AcmeDistribution();
    assert Majority([Entry("Positive", 1), Entry("Negative", 1)]) == "Negative";
  }

  /** The report for company "Acme" over those two articles, and its verdict sentence. */
  lemma AcmeReport()
    ensures ComparativeReport(NewsData("Acme", AcmeArticles())).Success?
    ensures ReportOf(NewsData("Acme", AcmeArticles())).finalSentimentAnalysis == "Acme's latest news coverage is mostly Negative."
    ensures ReportOf(NewsData("Acme", AcmeArticles())).score.sentimentDistribution == [Entry("Positive", 1), Entry("Negative", 1)]
    ensures |ReportOf(NewsData("Acme", AcmeArticles())).score.coverageDifferences| == 1
  {
    var news := NewsData("Acme", AcmeArticles());
    var d := CountAll(Sentiments(AcmeArticles()));
    AcmeTie();
    assert ComparativeReport(news).Success?;
    ReportFields(news);
    assert ReportOf(news).finalSentimentAnalysis == FinalSentimentAnalysis("Acme", d);
    assert FinalSentimentAnalysis("Acme", d) == "Acme" + "'s latest news coverage is mostly " + "Negative" + ".";
    AcmeVerdictText();
  }

  /** The verdict sentence of the "Acme" report, spelled out. */
  lemma AcmeVerdictText()
    ensures "Acme" + "'s latest news coverage is mostly " + "Negative" + "." == "Acme's latest news coverage is mostly Negative."
  {
  }
}
