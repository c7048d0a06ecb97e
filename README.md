# News summarization core in Dafny

This is a model of the analysis core of a Python web app. The app fetches news articles about a company, labels each article's sentiment, extracts topic keywords from each summary, and builds a comparative report across the articles. The report holds:

- a sentiment histogram;
- one "coverage difference" sentence per adjacent pair of articles;
- the common and unique topics;
- a one-line verdict;
- an audio placeholder.

The model covers three functions of `backend/news_summarization.py`:

- **`analyze_sentiment`'s label rule** (module `Sentiment`). A polarity score maps to `"Positive"`, `"Negative"` or `"Neutral"`.
- **`extraction_topic`** (module `TopicExtraction`):
  - lower-case the text and tokenize it;
  - keep the alphanumeric tokens that are not stop words;
  - return the first `num_keywords` of them, with Python slice semantics, so a negative count drops items from the end.
- **`comparative_analysis`** (module `ComparativeAnalysis`). This is the report builder.
  - `ComparativeReport` is the report as a function of the input.
  - The method `ComparativeAnalysis` computes the report as the source does: a topic counter filled in two nested loops, then a list of coverage differences appended to in a loop over adjacent pairs. It is proved equal to `ComparativeReport`.
  - The inputs the source reads from dictionaries are datatypes. A key the source reads with `.get` and a default (`"Sentiment"`, `"Topics"`) is an `Option` field.
  - Three exceptions can escape the source, and each is an `Error` case of the `Result`:
    - `EmptyTupleTopic`: the first item of an empty tuple topic (IndexError).
    - `MissingTopics`: an article without `"Topics"` when the comparison text is built (KeyError).
    - `NonStringTopic`: a tuple topic handed to `", ".join` (TypeError).

Supporting modules:

- `OrderedCounter`: Python's `Counter` as an insertion-ordered list of entries (key and count), which is what `dict(counter)`, `.keys()` and `.items()` expose.
- `Text`: ASCII `lower`, `isalnum`, `str(int)` and `str.join`.
- `Sequences`: first index and subsequence.
- `AnalysisProperties`: the properties of the report. They are stated on the parts of a report (the label Counter, the topic stream, the coverage list, the majority word), and `ReportFields` states that a returned report is made of exactly those parts.

Some behaviours of the source show up in the contracts:

- "Unique Topics" lists every distinct topic, not only the topics seen once.
- The verdict ignores "Neutral" articles and reads "Negative" on a tie, including when there are no articles.
- The topic loop accepts tuple topics. With two or more articles, the comparison text then fails on those same tuple topics.
- An article without `"Topics"` counts as having none in the topic loop. With two or more articles, it makes the comparison text raise.
- Which exception is raised follows the order of the source: an empty tuple topic anywhere is reported first. Otherwise the first article, in index order, that cannot be joined decides the error.

## Model

| member | source | states |
|---|---|---|
| Sentiment.SentimentLabel | backend/news_summarization.py:92-97 | the label is "Positive" exactly when polarity > 0, "Negative" exactly when polarity < 0, "Neutral" exactly when polarity is 0 |
| Text.Lower | backend/news_summarization.py:112 | lower-casing keeps the length, turns each upper-case letter A-Z into the matching lower-case letter a-z, leaves no upper-case letter and changes no other character |
| Text.Decimal | backend/news_summarization.py:165-166 | the article number in the comparison text is a non-empty string of digits with no leading zero |
| Text.DecimalRoundTrip | backend/news_summarization.py:165-166 | reading the digits back yields the number |
| Text.JoinLength | backend/news_summarization.py:165-166 | a joined topic list is as long as its items plus one separator between each adjacent pair |
| TopicExtraction.KeywordsSurvive | backend/news_summarization.py:118 | every kept word is alphanumeric and not a stop word |
| TopicExtraction.KeywordsCount | backend/news_summarization.py:118 | the kept words are exactly the qualifying words, with their multiplicities |
| TopicExtraction.KeywordsInOrder | backend/news_summarization.py:118 | the kept words keep their order in the token list |
| TopicExtraction.Slice | backend/news_summarization.py:121 | `keywords[:n]` is a prefix: length min(n, len) for n >= 0, and len minus abs(n) for n < 0, floored at 0 |
| TopicExtraction.ExtractTopics | backend/news_summarization.py:100-121 | the topics are a prefix of the keywords of the lower-cased tokens. Each topic is alphanumeric and not a stop word, and the topics appear in token order. Their number is min(`num_keywords`, number of keywords) for a non-negative count, and the number of keywords less abs(`num_keywords`), floored at 0, for a negative count |
| TopicExtraction.DefaultBound | backend/news_summarization.py:100 | with the default `num_keywords=5`, at most five topics: the first five keywords, or all of them when there are fewer |
| TopicExtraction.QuickBrownFox | backend/news_summarization.py:100-121 | for the tokens "the quick brown fox jumps" with "the" a stop word and 3 keywords requested, the topics are "quick", "brown", "fox" |
| OrderedCounter.Find | backend/news_summarization.py:153 | the index of a key is its first occurrence, or -1 exactly when the key is absent |
| OrderedCounter.AddSpec | backend/news_summarization.py:153 | `c[k] += 1` raises k's count by one and leaves every other count alone. A new key is appended at the end and an existing key keeps its place |
| OrderedCounter.CountAllGet | backend/news_summarization.py:142 | a key's count in `Counter(xs)` is its number of occurrences in xs |
| OrderedCounter.CountAllKeys | backend/news_summarization.py:142 | the counter's keys are exactly the distinct elements of xs, each listed once |
| OrderedCounter.CountAllKeysInOrder | backend/news_summarization.py:159 | the keys are listed in order of first occurrence |
| OrderedCounter.CountAllTotal | backend/news_summarization.py:142 | the counts add up to the length of xs |
| OrderedCounter.CommonKeysInOrder | backend/news_summarization.py:179-181 | the keys with count > 1 keep the counter's key order |
| OrderedCounter.CommonKeysMembers | backend/news_summarization.py:179-181 | a key is listed exactly when its count exceeds 1 |
| ComparativeAnalysis.FirstUnjoinable | backend/news_summarization.py:163-166 | the first article, in index order, whose topics cannot be joined |
| ComparativeAnalysis.CountArticleTopics | backend/news_summarization.py:149-153 | the inner topic loop succeeds exactly when no topic is an empty tuple. It then adds the article's topic keys to the counter; otherwise it raises IndexError |
| ComparativeAnalysis.CountTopics | backend/news_summarization.py:145-153 | the topic counter is `Counter` of all articles' topic keys in article order, or IndexError exactly when some article has an empty tuple topic |
| ComparativeAnalysis.CompareAdjacent | backend/news_summarization.py:162-169 | the coverage loop succeeds exactly when every article has topics that are all words, and then yields the templated entries. Otherwise it raises KeyError or TypeError for the first article that fails |
| ComparativeAnalysis.ComparativeAnalysis | backend/news_summarization.py:124-190 | the method returns exactly the report (or the exception) that `ComparativeReport` specifies |
| AnalysisProperties.SentimentDistribution | backend/news_summarization.py:139-142 | each label's count is its number of articles, where a missing label counts as "Neutral". Counts sum to the number of articles, labels are distinct, only labels that occur are listed, and zero articles give an empty histogram |
| AnalysisProperties.CoverageDifferencesTemplate | backend/news_summarization.py:162-169 | one entry per adjacent pair, none for fewer than two articles. Entry i compares article i with article i+1 by their topic words and carries the fixed impact sentence |
| AnalysisProperties.AllTopicsMembers | backend/news_summarization.py:148-153 | a key is in the topic stream exactly when some article has a topic with that key |
| AnalysisProperties.KeysOfMembers | backend/news_summarization.py:149-152 | within one article, a key is in its key list exactly when one of its topics has that key (a tuple counts by its first item) |
| AnalysisProperties.UniqueTopics | backend/news_summarization.py:159 | "Unique Topics" lists each topic of any article exactly once, in order of first occurrence |
| AnalysisProperties.CommonTopics | backend/news_summarization.py:179-181 | "Common Topics" are exactly the topics occurring more than once over all articles, in "Unique Topics" order |
| AnalysisProperties.FinalVerdict | backend/news_summarization.py:185-188 | the verdict is "Positive" exactly when more articles are "Positive" than "Negative", and "Negative" exactly otherwise, ties included |
| AnalysisProperties.Outcome | backend/news_summarization.py:124-190 | a report is returned exactly when no topic is an empty tuple and, with two or more articles, every article has topics that are all words. Any empty tuple topic gives IndexError. KeyError implies some article lacks topics. A report passes the company and articles through with the audio placeholder "[Play Hindi Speech]" |
| AnalysisProperties.NoArticles | backend/news_summarization.py:124-190 | with no articles the report is empty throughout and the verdict reads "...is mostly Negative." |
| AnalysisProperties.AcmeDistribution | backend/news_summarization.py:142 | one "Positive" and one "Negative" label give the histogram {"Positive": 1, "Negative": 1} in that order |
| AnalysisProperties.AcmeTie | backend/news_summarization.py:162-188 | for two well-formed articles, one "Positive" and one "Negative", the histogram has one of each, there is one coverage difference, and the tie reads "Negative" |
| AnalysisProperties.AcmeReport | backend/news_summarization.py:172-190 | for company "Acme" and those two articles a report is returned; its histogram is {"Positive": 1, "Negative": 1}, it has one coverage difference, and its verdict is "Acme's latest news coverage is mostly Negative." |

## Left out

- Fetching and scraping news (`fetch_news`), summarization, translation to Hindi, text-to-speech, the HTTP API and the web front end: these are network and I/O code around the core.
- The polarity score itself comes from TextBlob, a foreign library. `SentimentLabel` takes it as a parameter. A NaN polarity, which the source would label "Neutral", has no counterpart among Dafny's reals.
- NLTK's `word_tokenize` and the English stop-word list are foreign code and data. `ExtractTopics` takes the tokenizer as a function parameter and the stop words as a set parameter.
- Text.Lower, Text.IsAlnum: ASCII only. Python's Unicode case mapping and `isalnum` over all Unicode letters and digits are not modelled.
- Topic values other than strings and tuples, and tuple topics whose first item is not a string, are not modelled: a topic is either a word or a tuple of strings.
- A missing `"Articles"` or `"Company"` key in the input: these are always-present fields of `NewsData`.
- The exception messages are not modelled, only which exception is raised.
- The app's further use of the report (serialising the histogram to JSON, translation of the verdict) is not part of this model.
- AnalysisProperties.AcmeReport: does not state the comparison sentence of the scenario as a literal string. Its shape is given for every input by `CoverageDifferencesTemplate`.
