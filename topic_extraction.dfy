/**
 * `extraction_topic`: lower-case the text, split it into tokens, keep the
 * tokens that are alphanumeric and not stopwords, and return the first
 * `num_keywords` of them. The tokenizer and the stopword list are supplied
 * by the caller.
 */
module TopicExtraction {
  import opened Sequences
  import opened Text

  /** The default of the `num_keywords` parameter. */
  const DefaultNumKeywords: int := 5

  /** A token survives the filter when it is alphanumeric and not a stopword. */
  predicate IsKeyword(word: string, stopWords: set<string>) {
    IsAlnum(word) && word !in stopWords
  }

  /** The surviving tokens, in their original order. */
  function Keywords(words: seq<string>, stopWords: set<string>): seq<string> {
    if words == [] then []
    else
      var last := words[|words| - 1];
      Keywords(words[..|words| - 1], stopWords) + (if IsKeyword(last, stopWords) then [last] else [])
  }

  /** Every token the filter keeps survives it. */
  lemma {:induction false} KeywordsSurvive(words: seq<string>, stopWords: set<string>)
    ensures forall w | w in Keywords(words, stopWords) :: IsKeyword(w, stopWords)
  {
    if words != [] {
      KeywordsSurvive(words[..|words| - 1], stopWords);
    }
  }

  /** The filter keeps each surviving token as often as it occurs in the input. */
  lemma {:induction false} KeywordsCount(words: seq<string>, stopWords: set<string>)
    ensures forall w :: IsKeyword(w, stopWords) ==>
                          multiset(Keywords(words, stopWords))[w] == multiset(words)[w]
  {
    if words != [] {
      var p, x := words[..|words| - 1], words[|words| - 1];
      KeywordsCount(p, stopWords);
      assert words == p + [x];
    }
  }

  /** The filter keeps the original order. */
  lemma {:induction false} KeywordsInOrder(words: seq<string>, stopWords: set<string>)
    ensures SubsequenceOf(Keywords(words, stopWords), words)
  {
    if words != [] {
      var p, x := words[..|words| - 1], words[|words| - 1];
      KeywordsInOrder(p, stopWords);
      var kp, kw := Keywords(p, stopWords), Keywords(words, stopWords);
      if IsKeyword(x, stopWords) {
        assert kw[..|kw| - 1] == kp;
      } else {
        assert kw == kp;
      }
    }
  }

  /** Python's `s[:stop]`: a non-negative bound keeps that many items, a negative one drops that many from the end. */
  function Slice(s: seq<string>, stop: int): (r: seq<string>)
    ensures r <= s
    ensures 0 <= stop ==> |r| == if stop < |s| then stop else |s|
    ensures stop < 0 ==> |r| == if |s| + stop > 0 then |s| + stop else 0
  {
    if 0 <= stop then (if stop < |s| then s[..stop] else s)
    else if |s| + stop > 0 then s[..|s| + stop]
    else []
  }

  /**
   * `extraction_topic(text, num_keywords)`, with `tokenize` standing for the
   * word tokenizer and `stopWords` for the stopword list.
   */
  function ExtractTopics(text: string, tokenize: string -> seq<string>, stopWords: set<string>,
                         numKeywords: int): (topics: seq<string>)
    ensures topics <= Keywords(tokenize(Lower(text)), stopWords)
    ensures forall w | w in topics :: IsKeyword(w, stopWords)
    ensures SubsequenceOf(topics, tokenize(Lower(text)))
    ensures 0 <= numKeywords ==>
              |topics| == if numKeywords < |Keywords(tokenize(Lower(text)), stopWords)| then numKeywords
                          else |Keywords(tokenize(Lower(text)), stopWords)|
    ensures numKeywords < 0 ==>
              |topics| == if |Keywords(tokenize(Lower(text)), stopWords)| + numKeywords > 0
                          then |Keywords(tokenize(Lower(text)), stopWords)| + numKeywords else 0
  {
    var words := tokenize(Lower(text));
    var keywords := Keywords(words, stopWords);
    KeywordsSurvive(words, stopWords);
    KeywordsInOrder(words, stopWords);
    var topics := Slice(keywords, numKeywords);
    PrefixOfSubsequence(keywords, topics, words);
    topics
  }

  /** With the default bound, at most five topics: the first five keywords, or all of them when there are fewer. */
  lemma DefaultBound(text: string, tokenize: string -> seq<string>, stopWords: set<string>)
    ensures |ExtractTopics(text, tokenize, stopWords, DefaultNumKeywords)| <= 5
    ensures |Keywords(tokenize(Lower(text)), stopWords)| >= 5 ==>
              ExtractTopics(text, tokenize, stopWords, DefaultNumKeywords) == Keywords(tokenize(Lower(text)), stopWords)[..5]
    ensures |Keywords(tokenize(Lower(text)), stopWords)| < 5 ==>
              ExtractTopics(text, tokenize, stopWords, DefaultNumKeywords) == Keywords(tokenize(Lower(text)), stopWords)
  {
  }

  /** Tokens "the quick brown fox jumps" with "the" a stopword and a bound of 3. */
  lemma QuickBrownFox(text: string, tokenize: string -> seq<string>, stopWords: set<string>)
    requires tokenize(Lower(text)) == ["the", "quick", "brown", "fox", "jumps"]
    requires "the" in stopWords
    requires "quick" !in stopWords && "brown" !in stopWords && "fox" !in stopWords
    ensures ExtractTopics(text, tokenize, stopWords, 3) == ["quick", "brown", "fox"]
  {
    var words := tokenize(Lower(text));
    assert IsAlnum("quick") && IsAlnum("brown") && IsAlnum("fox");
    assert !IsKeyword("the", stopWords);
    assert Keywords([], stopWords) == [];
    assert words[..1] == ["the"] && Keywords(["the"], stopWords) == [];
    assert words[..2] == ["the", "quick"] && Keywords(words[..2], stopWords) == ["quick"];
    assert words[..3] == ["the", "quick", "brown"] && words[..3][..2] == words[..2];
    assert Keywords(words[..3], stopWords) == ["quick", "brown"];
    assert words[..4] == ["the", "quick", "brown", "fox"] && words[..4][..3] == words[..3];
    assert Keywords(words[..4], stopWords) == ["quick", "brown", "fox"];
    assert |Keywords(words, stopWords)| >= 3;
    assert Keywords(words, stopWords)[..3] == ["quick", "brown", "fox"];
  }
}
