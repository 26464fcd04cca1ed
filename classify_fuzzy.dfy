/** The similarity classifier of `src/document_processing/classify.py`: a
    category's score is the mean similarity between the lower-cased text and
    each of its lower-cased keywords, the first category with the greatest
    score is the candidate, and it is kept only when its score reaches the
    classification threshold. The similarity function (`fuzz.partial_ratio`)
    is a parameter. */
module FuzzyClassifier {
  import opened Text
  import opened Documents

  /** `CLASSIFICATION_THRESHOLD` of `src/config.py`. */
  const CLASSIFICATION_THRESHOLD: real := 0.8

  /** The keyword lists, in declaration order. */
  function Keywords(c: Category): seq<string>
  {
    match c
    case BankStatement => ["account number", "balance", "statement", "transaction", "credit", "debit"]
    case Check => ["check number", "payee", "amount", "memo"]
    case SalarySlip => ["net salary", "gross salary", "deductions", "employee id", "salary slip"]
    case Others => []
  }

  /** Sum of the similarities between the text and each keyword, both lower-cased. */
  function RatioSum(text: string, keywords: seq<string>, ratio: (string, string) -> Ratio): int
  {
    if keywords == [] then 0
    else RatioSum(text, keywords[..|keywords| - 1], ratio) + ratio(Lower(text), Lower(keywords[|keywords| - 1]))
  }

  lemma {:induction false} RatioSumBounds(text: string, keywords: seq<string>, ratio: (string, string) -> Ratio)
    ensures 0 <= RatioSum(text, keywords, ratio) <= 100 * |keywords|
  {
    if keywords != [] {
      RatioSumBounds(text, keywords[..|keywords| - 1], ratio);
    }
  }

  /** `calculate_match_score`: the arithmetic mean of the similarities, 0 for no keywords. */
  function MatchScore(text: string, keywords: seq<string>, ratio: (string, string) -> Ratio): (score: real)
    ensures keywords == [] ==> score == 0.0
    ensures score * |keywords| as real == RatioSum(text, keywords, ratio) as real
  {
    if keywords == [] then 0.0 else RatioSum(text, keywords, ratio) as real / |keywords| as real
  }

  /** Every category score lies on the 0 to 100 scale of the similarity function. */
  lemma ScoreBounds(text: string, keywords: seq<string>, ratio: (string, string) -> Ratio)
    ensures 0.0 <= MatchScore(text, keywords, ratio) <= 100.0
  {
    RatioSumBounds(text, keywords, ratio);
    if keywords != [] {
      var n := |keywords| as real;
      var sum := RatioSum(text, keywords, ratio) as real;
      assert sum <= 100.0 * n;
      assert MatchScore(text, keywords, ratio) == sum / n;
      MeanAtMost(sum, n, 100.0);
    }
  }

  lemma MeanAtMost(sum: real, n: real, bound: real)
    requires n > 0.0 && sum <= bound * n
    ensures sum / n <= bound
  {
    var q := sum / n;
    assert q * n == sum;
    if q > bound {
      assert (q - bound) * n > 0.0;
    }
  }

  function Score(text: string, c: Category, ratio: (string, string) -> Ratio): real
  {
    MatchScore(text, Keywords(c), ratio)
  }

  /** The `scores` dictionary, in declaration order. */
  function Scores(text: string, ratio: (string, string) -> Ratio): (s: seq<real>)
    ensures |s| == |Declared|
    ensures forall d :: d != Others ==> s[Rank(d)] == Score(text, d, ratio)
  {
    [Score(text, BankStatement, ratio), Score(text, Check, ratio), Score(text, SalarySlip, ratio)]
  }

  datatype Classification = Classification(category: Category, confidence: real)

  /** The decision of `classify_document` on the text the OCR step extracted. */
  function ClassifyText(text: string, ratio: (string, string) -> Ratio): (r: Classification)
    ensures text == "" ==> r == Classification(Others, 0.0)
    ensures text != "" ==> exists d :: d != Others && r.confidence == Score(text, d, ratio)
    ensures text != "" ==> forall d :: d != Others ==> Score(text, d, ratio) <= r.confidence
    ensures text != "" ==> (r.category != Others <==> r.confidence >= CLASSIFICATION_THRESHOLD)
    ensures r.category != Others ==> r.confidence == Score(text, r.category, ratio)
    ensures r.category != Others ==> forall d :: d != Others && Rank(d) < Rank(r.category) ==> Score(text, d, ratio) < r.confidence
  {
    if text == "" then Classification(Others, 0.0)
    else
      var scores := Scores(text, ratio);
      var best := FirstMax(scores);
      assert scores[best] == Score(text, Declared[best], ratio);
      if scores[best] >= CLASSIFICATION_THRESHOLD then Classification(Declared[best], scores[best])
      else Classification(Others, scores[best])
  }

  /** The reported confidence is always on the 0 to 100 scale. */
  lemma ConfidenceBounds(text: string, ratio: (string, string) -> Ratio)
    ensures 0.0 <= ClassifyText(text, ratio).confidence <= 100.0
  {
    if text != "" {
      var d :| d != Others && ClassifyText(text, ratio).confidence == Score(text, d, ratio);
      ScoreBounds(text, Keywords(d), ratio);
    }
  }
}
