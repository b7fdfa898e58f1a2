/** The text-feature extractor (main.py:60-69): word and sentence counts,
    average sentence length, lexical diversity and a reading-ease score of
    an article body. The tokenizers and the reading-ease formula belong to
    outside libraries and enter as the oracles of an `Nlp` value. */
module TextFeatures {

  /** The library functions the extractor calls: a sentence tokenizer, a
      word tokenizer and a reading-ease score. */
  datatype Nlp = Nlp(
    sentences: string -> seq<string>,
    words: string -> seq<string>,
    readingEase: string -> real)

  datatype Features = Features(
    numWords: nat,
    numSentences: nat,
    avgSentenceLength: real,
    lexicalDiversity: real,
    readability: real)

  /** `set(words)`. */
  function Distinct(words: seq<string>): set<string> {
    set w | w in words
  }

  /** A sequence has at most as many distinct elements as it has elements,
      and a non-empty one has at least one. */
  lemma {:induction false} DistinctBounds(words: seq<string>)
    ensures |Distinct(words)| <= |words|
    ensures words != [] ==> |Distinct(words)| >= 1
  {
    if words != [] {
      var rest := words[1..];
      DistinctBounds(rest);
      assert Distinct(words) == Distinct(rest) + {words[0]};
      assert words[0] in Distinct(words);
    }
  }

  /** A quotient by a positive divisor multiplies back to its dividend. */
  lemma QuotientTimesDivisor(a: nat, b: nat)
    requires b > 0
    ensures (a as real / b as real) * (b as real) == a as real
  {
  }

  /** A ratio of positive counts, the numerator at most the denominator,
      lies in (0, 1]. */
  lemma RatioInUnit(a: nat, b: nat)
    requires 0 < a <= b
    ensures 0.0 < a as real / b as real <= 1.0
  {
    QuotientTimesDivisor(a, b);
  }

  /** `compute_text_features(text)`: every ratio is guarded, so no division
      by zero happens; with no words the readability oracle is not consulted. */
  function ComputeTextFeatures(text: string, nlp: Nlp): (f: Features)
    ensures f.numWords == |nlp.words(text)| && f.numSentences == |nlp.sentences(text)|
    ensures f.numSentences == 0 ==> f.avgSentenceLength == 0.0
    ensures f.numSentences > 0 ==>
      f.avgSentenceLength * (f.numSentences as real) == f.numWords as real
    ensures f.numWords == 0 ==> f.lexicalDiversity == 0.0 && f.readability == 0.0
    ensures f.numWords > 0 ==>
      && 0.0 < f.lexicalDiversity <= 1.0
      && f.lexicalDiversity * (f.numWords as real) == |Distinct(nlp.words(text))| as real
      && f.readability == nlp.readingEase(text)
  {
    var sentences := nlp.sentences(text);
    var words := nlp.words(text);
    var numSentences := |sentences|;
    var numWords := |words|;
    var avg := if numSentences > 0 then numWords as real / numSentences as real else 0.0;
    var unique := |Distinct(words)|;
    DistinctBounds(words);
    var diversity := if numWords > 0 then unique as real / numWords as real else 0.0;
    assert numSentences > 0 ==> avg * (numSentences as real) == numWords as real by {
      if numSentences > 0 {
        QuotientTimesDivisor(numWords, numSentences);
      }
    }
    assert numWords > 0 ==> 0.0 < diversity <= 1.0 && diversity * (numWords as real) == unique as real by {
      if numWords > 0 {
        QuotientTimesDivisor(unique, numWords);
        RatioInUnit(unique, numWords);
      }
    }
    var readability := if numWords > 0 then nlp.readingEase(text) else 0.0;
    Features(numWords, numSentences, avg, diversity, readability)
  }
}
