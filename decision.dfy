/**
 * The decision rule: the classifier's probability of the phishing class
 * becomes an integer percentage, and the percentage a two-valued verdict.
 */
module Decision {

  /** A probability of the positive (phishing) class. */
  type Probability = p: real | 0.0 <= p <= 1.0

  /** A score strictly above this is labelled SAFE. */
  const Threshold := 50

  datatype Verdict = Safe | Phishing
  {
    /**
     * The literal string sent back to the client: one of two distinct
     * strings, so the client can tell the verdicts apart.
     */
    function Label(): (s: string)
      ensures s == "SAFE" || s == "PHISHING"
      ensures s == "SAFE" <==> this == Safe
      ensures s == "PHISHING" <==> this == Phishing
    {
      match this
      case Safe => "SAFE"
      case Phishing => "PHISHING"
    }
  }

  /**
   * Python's `int(p * 100)`. `int` truncates toward zero, which for a
   * non-negative product is the floor. Arithmetic here is exact.
   */
  function Score(p: Probability): (s: int)
    ensures 0 <= s <= 100
    ensures s as real <= p * 100.0 < s as real + 1.0
  {
    (p * 100.0).Floor
  }

  /** `"SAFE" if score > 50 else "PHISHING"`, polarity as written. */
  function Decide(score: int): (v: Verdict)
    ensures v.Label() == "SAFE" <==> score > Threshold
    ensures v.Label() == "PHISHING" <==> score <= Threshold
  {
    if score > Threshold then Safe else Phishing
  }

  /** The boundary score 50 is PHISHING; 51 is the least SAFE score. */
  lemma Boundary()
    ensures Decide(50) == Phishing
    ensures Decide(51) == Safe
  {
  }

  /** Raising the score never turns SAFE into PHISHING. */
  lemma DecideMonotone(s: int, t: int)
    requires s <= t
    ensures Decide(s) == Safe ==> Decide(t) == Safe
  {
  }

  /** A larger probability never gives a smaller score. */
  lemma ScoreMonotone(p: Probability, q: Probability)
    requires p <= q
    ensures Score(p) <= Score(q)
  {
  }

  /** On probabilities, the rule says SAFE exactly from 0.51 upward. */
  lemma SafeIffProbabilityAtLeast(p: Probability)
    ensures Decide(Score(p)) == Safe <==> p >= 0.51
  {
    if p >= 0.51 {
      assert p * 100.0 >= 51.0;
    }
  }

  /** The worked values: 0.80 gives 80 and SAFE, 0.10 gives 10 and 0.50 gives 50, both PHISHING. */
  lemma Examples()
    ensures Score(0.80) == 80 && Decide(Score(0.80)) == Safe
    ensures Score(0.10) == 10 && Decide(Score(0.10)) == Phishing
    ensures Score(0.50) == 50 && Decide(Score(0.50)) == Phishing
  {
  }
}
