# Phishing URL scorer: feature extractor and decision rule

The backend scores a URL for phishing. It turns the raw URL into a fixed
31-column feature row (`extract_features`), gives that row to a trained
random forest for the probability of the phishing class, and makes an
integer percentage and a verdict from that probability. This project models
the two deterministic parts, the feature extractor and the score-and-verdict
rule, in four Dafny modules:

- `Text` (text.dfy) holds the string tests the extractor uses. `Contains` is
  Python's `pat in s`. `Count` is `s.count(pat)`, which counts occurrences
  that do not overlap, left to right. `AnyDigit` is `any(ch.isdigit() ...)`.
  Each one is tied to a direct definition, by a lemma or by its own contract:
  occurrence at an index, two occurrences that do not overlap, or some
  character being a digit.
- `Features` (features.dfy) holds the record (`FeatureRecord`, one field per
  column), the ordered column names (`Columns`), the row in column order
  (`Values`) and `ExtractFeatures(url, subdomain, domain)`. The domain parser
  (`tldextract`) is a collaborator that is not modelled. Its two parts come in
  as arguments.
- `Decision` (decision.dfy) holds the score `int(p * 100)` over an exact real
  probability, and the verdict rule `"SAFE" if score > 50 else "PHISHING"`.
  The polarity is reproduced as written: a high phishing score is labelled SAFE.
- `Pipeline` (pipeline.dfy) holds the composition inside the prediction
  handler. The domain parser and the classifier are function parameters.

Three facts about the code that the model keeps exactly:
- The record has 31 columns (backend/app.py:32-62).
- `port` is the constant 0 (backend/app.py:43).
- The `//` test is Python's non-overlapping `str.count`, so `"///"` counts
  once (backend/app.py:37).

## Model

| member | source | states |
|---|---|---|
| Text.Contains | backend/app.py:35-51 | the empty pattern is in every string; a contained pattern is no longer than the string; for equal lengths, containment is equality (the full characterisation is Text.ContainsIffOccurs) |
| Text.Count | backend/app.py:37 | the number of non-overlapping occurrences of a non-empty pattern times its length never exceeds the string's length |
| Text.ContainsIffOccurs | backend/app.py:35-36 | the left-to-right substring test holds exactly when the pattern occurs at some index |
| Text.ContainsCharIffMember | backend/app.py:38 | for a one-character pattern, the substring test is membership of that character |
| Text.CountPositiveIffContains | backend/app.py:39 | a non-empty pattern is counted at least once exactly when it is contained |
| Text.CountAtLeastTwoIff | backend/app.py:37 | the non-overlapping count reaches 2 exactly when two occurrences exist at least one pattern length apart |
| Text.AnyDigit | backend/app.py:33 | the character-by-character digit scan holds exactly when some character is an ASCII digit |
| Text.TripleSlashCountsOnce | backend/app.py:37 | `"///".count("//")` is 1 |
| Features.Columns | backend/app.py:31-63 | the column list has 31 names |
| Features.Values | backend/app.py:31-63 | a record yields one value per column |
| Features.ExtractFeatures | backend/app.py:29-63 | defined for every input, the empty URL included; `index` is 0, `urlurl_length` is the URL's length and every other column is a 0/1 flag (the per-column meaning is in RowShape, DoubleSlashIff, ShortiningServiceIff, UrlContainmentIff, DomainPartsIff and PlaceholdersConstant) |
| Features.Bit | backend/app.py:33-51 | `int(b)` is 0 or 1, and is 1 exactly when b holds |
| Features.ColumnsDistinct | backend/app.py:32-62 | no column name is repeated |
| Features.RowShape | backend/app.py:31-63 | for every input, the empty URL included, the row has the 31 columns in order, `index` is 0, `urlurl_length` is the URL's length and every other column is 0 or 1 |
| Features.DoubleSlashIff | backend/app.py:37 | `double_slash_redirecting` is 1 exactly when `//` occurs twice without overlap |
| Features.ShortiningServiceIff | backend/app.py:35 | `shortining_service` is 1 exactly when `bit.ly` or `tinyurl` occurs in the URL |
| Features.UrlContainmentIff | backend/app.py:36-51 | `having_at_symbol`, `sslfinal_state`, `submitting_to_email` and `redirect` are 1 exactly when `@`, `https`, `mailto:` and `->` occur in the URL |
| Features.DomainPartsIff | backend/app.py:33-44 | `having_iphaving_ip_address` is a digit in the domain, `prefix_suffix` is `-` in the domain, `having_sub_domain` is `.` in the subdomain, `https_token` is `https` in the subdomain, each in both directions |
| Features.EmptyPartsGiveZero | backend/app.py:33-44 | with an empty subdomain and domain, the four domain-derived columns are 0 |
| Features.EmptyUrl | backend/app.py:31-63 | for the empty URL with empty parts, exactly the twelve placeholder-1 columns are 1 |
| Features.UrlColumnsIgnoreParts | backend/app.py:34-51 | the columns computed from the raw URL do not depend on the domain parts |
| Features.PartColumnsIgnoreUrl | backend/app.py:33-44 | the columns computed from the domain parts do not depend on the raw URL |
| Features.PlaceholdersConstant | backend/app.py:41-62 | the placeholder columns are the constants in the code for every input: twelve are 1, and seven (`port` among them) are 0 |
| Features.DoubleSlashExample | backend/app.py:37 | `http://x.com//y` sets `double_slash_redirecting` |
| Features.TripleSlashExample | backend/app.py:37 | `///` leaves `double_slash_redirecting` at 0 |
| Features.ShortenerExample | backend/app.py:35 | `http://bit.ly/abc` sets `shortining_service` whatever the domain parts are |
| Features.SubDomainExample | backend/app.py:39 | a subdomain without a dot leaves `having_sub_domain` at 0, and one with a dot sets it |
| Decision.Score | backend/app.py:78 | the score is an integer in 0..100 and is the floor of 100 times the probability |
| Decision.Decide | backend/app.py:80 | the label is `SAFE` exactly when the score is above 50, and `PHISHING` exactly when it is not |
| Decision.Verdict.Label | backend/app.py:80 | the label is one of the literals `SAFE` and `PHISHING`, and each literal belongs to exactly one verdict |
| Decision.Boundary | backend/app.py:80 | score 50 gives PHISHING and 51 gives SAFE |
| Decision.DecideMonotone | backend/app.py:80 | raising the score never turns SAFE into PHISHING |
| Decision.ScoreMonotone | backend/app.py:78 | the score does not decrease as the probability grows |
| Decision.SafeIffProbabilityAtLeast | backend/app.py:78-80 | the verdict is SAFE exactly when the probability is at least 0.51 |
| Decision.Examples | backend/app.py:78-80 | 0.80 gives 80 and SAFE, 0.10 gives 10 and PHISHING, 0.50 gives 50 and PHISHING |
| Pipeline.FeaturesOf | backend/app.py:30-39 | the classifier's record for a URL has `index` 0, the URL's length and 0/1 flags; its `//` and `@` columns are tests on the URL, its `-`, `.` and digit columns tests on the parts the domain parser returns for that URL |
| Pipeline.Predict | backend/app.py:75-85 | the result echoes the URL, the score is the floor of 100 times the classifier's probability for the URL's record and lies in 0..100, and the verdict is SAFE exactly when the score exceeds 50, which is exactly when the classifier's probability for the URL's record is at least 0.51 |
| Pipeline.OnlyFeaturesMatter | backend/app.py:76-80 | two URLs with equal feature records get equal scores and verdicts |
| Pipeline.VerdictFollowsScore | backend/app.py:80 | the verdict depends on nothing but the score |

## Left out

- Flask setup, CORS, the `/predict` and `/` routes, JSON parsing and the 400/500 error responses (backend/app.py:11-12, 68-76, 81-98): HTTP plumbing. The missing-`url` message is not modelled.
- Reading the training CSV, normalising column names, building `X`/`y` (backend/app.py:17-21): file I/O in pandas.
- Training the random forest and `predict_proba` (backend/app.py:23-24, 77): a foreign library. The classifier is a parameter of `Pipeline.Predict` that returns an exact probability in [0, 1].
- The internals of `tldextract.extract` (backend/app.py:30): public-suffix lookup in a library that is not part of this model. The subdomain and domain are arguments of `Features.ExtractFeatures`, and the parser is a parameter of `Pipeline.Predict`.
- Decision.Score: uses exact real arithmetic, not IEEE doubles. For example, 0.29 * 100 is 28.999999999999996 in floating point and gives 28, while the model gives 29.
- Text.AnyDigit: `str.isdigit` is modelled as ASCII `0`..`9`. Python also accepts other Unicode digits.
- URLs holding lone UTF-16 surrogates, which a JSON `\ud800` escape can put into a Python `str`: Dafny's `string` holds Unicode scalar values only, so such URLs (and their `len`, backend/app.py:34) are outside the model.
- The pandas DataFrame wrapper itself. The row is modelled as the ordered pair of `Columns` and `Values`.
