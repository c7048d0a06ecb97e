/**
 * The label rule of `analyze_sentiment`: only the sign of the polarity
 * decides the label. The polarity itself comes from a lexicon-based scorer
 * that is not part of this model, so it is an input here.
 */
module Sentiment {
  const Positive: string := "Positive"
  const Negative: string := "Negative"
  const Neutral: string := "Neutral"

  /** The label of a text whose polarity is `polarity`; no magnitude threshold. */
  function SentimentLabel(polarity: real): (name: string)
    ensures name == Positive <==> polarity > 0.0
    ensures name == Negative <==> polarity < 0.0
    ensures name == Neutral <==> polarity == 0.0
  {
    if polarity > 0.0 then Positive
    else if polarity < 0.0 then Negative
    else Neutral
  }
}
