/**
 * The body of the prediction request once the URL has been read: extract
 * the features, ask the classifier for the phishing probability, turn it
 * into a score and a verdict. The domain parser and the classifier are
 * collaborators outside the model, so they are parameters.
 */
module Pipeline {
  import opened Features
  import opened Decision

  /**
   * What the domain parser returns for a URL. `suffix` stands for the
   * public suffix (`ext.suffix`), which the extractor never reads.
   */
  datatype DomainParts = DomainParts(subdomain: string, domain: string, suffix: string)

  /** The JSON object of a successful prediction. */
  datatype ScoreResult = ScoreResult(url: string, phishingScore: int, verdict: Verdict)

  /**
   * The record the classifier is given for `url`: the raw-URL columns come
   * from `url` itself, the domain columns from the parts the parser returns.
   */
  function FeaturesOf(url: string, parse: string -> DomainParts): (r: FeatureRecord)
    ensures r.index == 0 && r.urlUrlLength == |url| && FlagsBinary(r)
    ensures r.doubleSlashRedirecting == 1 <==> Text.TwoApart(url, "//")
    ensures r.havingAtSymbol == 1 <==> '@' in url
    ensures r.prefixSuffix == 1 <==> '-' in parse(url).domain
    ensures r.havingSubDomain == 1 <==> '.' in parse(url).subdomain
    ensures r.havingIpHavingIpAddress == 1 <==>
            exists i :: 0 <= i < |parse(url).domain| && Text.IsDigit(parse(url).domain[i])
  {
    var parts := parse(url);
    DoubleSlashIff(url, parts.subdomain, parts.domain);
    UrlContainmentIff(url, parts.subdomain, parts.domain);
    DomainPartsIff(url, parts.subdomain, parts.domain);
    ExtractFeatures(url, parts.subdomain, parts.domain)
  }

  function Predict(url: string, parse: string -> DomainParts, model: FeatureRecord -> Probability): (r: ScoreResult)
    ensures r.url == url
    ensures 0 <= r.phishingScore <= 100
    ensures r.phishingScore as real <= model(FeaturesOf(url, parse)) * 100.0 < r.phishingScore as real + 1.0
    ensures r.verdict.Label() == "SAFE" <==> r.phishingScore > Threshold
    ensures r.verdict.Label() == "SAFE" <==> model(FeaturesOf(url, parse)) >= 0.51
  {
    var p := model(FeaturesOf(url, parse));
    var score := Score(p);
    SafeIffProbabilityAtLeast(p);
    ScoreResult(url, score, Decide(score))
  }

  /** The classifier sees only the record: URLs with equal records get equal scores and verdicts. */
  lemma OnlyFeaturesMatter(u1: string, u2: string, parse: string -> DomainParts, model: FeatureRecord -> Probability)
    requires FeaturesOf(u1, parse) == FeaturesOf(u2, parse)
    ensures Predict(u1, parse, model).phishingScore == Predict(u2, parse, model).phishingScore
    ensures Predict(u1, parse, model).verdict == Predict(u2, parse, model).verdict
  {
  }

  /** The verdict is a function of the score alone. */
  lemma VerdictFollowsScore(u1: string, u2: string, parse: string -> DomainParts,
                            m1: FeatureRecord -> Probability, m2: FeatureRecord -> Probability)
    requires Predict(u1, parse, m1).phishingScore == Predict(u2, parse, m2).phishingScore
    ensures Predict(u1, parse, m1).verdict == Predict(u2, parse, m2).verdict
  {
  }
}
