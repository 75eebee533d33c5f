/**
 * The URL feature extractor: a total function from a URL and the two
 * domain parts the domain parser split off it (subdomain and registered
 * domain label) to the fixed 31-column record the classifier was trained on.
 */
module Features {
  import opened Text

  /** One row of features, in the column order of the training data. */
  datatype FeatureRecord = FeatureRecord(
    index: int,
    havingIpHavingIpAddress: int,
    urlUrlLength: int,
    shortiningService: int,
    havingAtSymbol: int,
    doubleSlashRedirecting: int,
    prefixSuffix: int,
    havingSubDomain: int,
    sslFinalState: int,
    domainRegisterationLength: int,
    favicon: int,
    port: int,
    httpsToken: int,
    requestUrl: int,
    urlOfAnchor: int,
    linksInTags: int,
    sfh: int,
    submittingToEmail: int,
    abnormalUrl: int,
    redirect: int,
    onMouseover: int,
    rightClick: int,
    popUpWidnow: int,
    iframe: int,
    ageOfDomain: int,
    dnsRecord: int,
    webTraffic: int,
    pageRank: int,
    googleIndex: int,
    linksPointingToPage: int,
    statisticalReport: int)

  /** The column names, in order, exactly as the training data spells them. */
  function Columns(): (c: seq<string>)
    ensures |c| == 31
  {
    ["index", "having_iphaving_ip_address", "urlurl_length", "shortining_service",
     "having_at_symbol", "double_slash_redirecting", "prefix_suffix", "having_sub_domain",
     "sslfinal_state", "domain_registeration_length", "favicon", "port", "https_token",
     "request_url", "url_of_anchor", "links_in_tags", "sfh", "submitting_to_email",
     "abnormal_url", "redirect", "on_mouseover", "rightclick", "popupwidnow", "iframe",
     "age_of_domain", "dnsrecord", "web_traffic", "page_rank", "google_index",
     "links_pointing_to_page", "statistical_report"]
  }

  /** The values of a record, in column order. */
  function Values(r: FeatureRecord): (v: seq<int>)
    ensures |v| == 31
  {
    [r.index, r.havingIpHavingIpAddress, r.urlUrlLength, r.shortiningService,
     r.havingAtSymbol, r.doubleSlashRedirecting, r.prefixSuffix, r.havingSubDomain,
     r.sslFinalState, r.domainRegisterationLength, r.favicon, r.port, r.httpsToken,
     r.requestUrl, r.urlOfAnchor, r.linksInTags, r.sfh, r.submittingToEmail,
     r.abnormalUrl, r.redirect, r.onMouseover, r.rightClick, r.popUpWidnow, r.iframe,
     r.ageOfDomain, r.dnsRecord, r.webTraffic, r.pageRank, r.googleIndex,
     r.linksPointingToPage, r.statisticalReport]
  }

  /** Python's `int(b)` on a boolean. */
  function Bit(b: bool): (x: int)
    ensures IsBinary(x)
    ensures x == 1 <==> b
  {
    if b then 1 else 0
  }

  /** A 0/1 flag (for an integer, the same as `x == 0 || x == 1`). */
  predicate IsBinary(x: int)
  {
    0 <= x <= 1
  }

  /** Every column except `urlurl_length` holds a 0/1 flag. */
  predicate FlagsBinary(r: FeatureRecord)
  {
    && IsBinary(r.index) && IsBinary(r.havingIpHavingIpAddress) && IsBinary(r.shortiningService)
    && IsBinary(r.havingAtSymbol) && IsBinary(r.doubleSlashRedirecting) && IsBinary(r.prefixSuffix)
    && IsBinary(r.havingSubDomain) && IsBinary(r.sslFinalState) && IsBinary(r.domainRegisterationLength)
    && IsBinary(r.favicon) && IsBinary(r.port) && IsBinary(r.httpsToken) && IsBinary(r.requestUrl)
    && IsBinary(r.urlOfAnchor) && IsBinary(r.linksInTags) && IsBinary(r.sfh)
    && IsBinary(r.submittingToEmail) && IsBinary(r.abnormalUrl) && IsBinary(r.redirect)
    && IsBinary(r.onMouseover) && IsBinary(r.rightClick) && IsBinary(r.popUpWidnow)
    && IsBinary(r.iframe) && IsBinary(r.ageOfDomain) && IsBinary(r.dnsRecord)
    && IsBinary(r.webTraffic) && IsBinary(r.pageRank) && IsBinary(r.googleIndex)
    && IsBinary(r.linksPointingToPage) && IsBinary(r.statisticalReport)
  }

  /**
   * The feature record of `url`, given the parts the domain parser
   * produced. It is defined for every input, the empty URL included.
   */
  function ExtractFeatures(url: string, subdomain: string, domain: string): (r: FeatureRecord)
    ensures r.index == 0 && r.urlUrlLength == |url|
    ensures FlagsBinary(r)
  {
    FeatureRecord(
      index := 0,
      havingIpHavingIpAddress := Bit(AnyDigit(domain)),
      urlUrlLength := |url|,
      shortiningService := Bit(Contains(url, "bit.ly") || Contains(url, "tinyurl")),
      havingAtSymbol := Bit(Contains(url, "@")),
      doubleSlashRedirecting := Bit(Count(url, "//") > 1),
      prefixSuffix := Bit(Contains(domain, "-")),
      havingSubDomain := Bit(Count(subdomain, ".") >= 1),
      sslFinalState := Bit(Contains(url, "https")),
      domainRegisterationLength := 1,
      favicon := 1,
      port := 0,
      httpsToken := Bit(Contains(subdomain, "https")),
      requestUrl := 1,
      urlOfAnchor := 1,
      linksInTags := 1,
      sfh := 1,
      submittingToEmail := Bit(Contains(url, "mailto:")),
      abnormalUrl := 0,
      redirect := Bit(Contains(url, "->")),
      onMouseover := 0,
      rightClick := 0,
      popUpWidnow := 0,
      iframe := 0,
      ageOfDomain := 1,
      dnsRecord := 1,
      webTraffic := 1,
      pageRank := 1,
      googleIndex := 1,
      linksPointingToPage := 1,
      statisticalReport := 0)
  }

  /** The column names are pairwise distinct: the row is a well-formed dictionary. */
  lemma ColumnsDistinct()
    ensures forall i, j :: 0 <= i < j < |Columns()| ==> Columns()[i] != Columns()[j]
  {
  }

  /**
   * Whatever the input, including the empty URL, the row has the 31
   * columns in the training order, `index` is 0, `urlurl_length` is the
   * URL's length and every other column is 0 or 1.
   */
  lemma RowShape(url: string, subdomain: string, domain: string)
    ensures var v := Values(ExtractFeatures(url, subdomain, domain));
      && |v| == |Columns()| == 31
      && Columns()[0] == "index" && v[0] == 0
      && Columns()[2] == "urlurl_length" && v[2] == |url|
      && forall i :: 0 <= i < |v| && i != 2 ==> IsBinary(v[i])
  {
    ColumnPositions();
    FlagsBinaryValues(ExtractFeatures(url, subdomain, domain));
  }

  /** Where the two non-flag columns sit. */
  lemma ColumnPositions()
    ensures Columns()[0] == "index" && Columns()[2] == "urlurl_length"
  {
  }

  /** Read in column order, a record with binary flags has a 0/1 value everywhere but column 2. */
  lemma FlagsBinaryValues(r: FeatureRecord)
    requires FlagsBinary(r)
    ensures Values(r)[0] == r.index && Values(r)[2] == r.urlUrlLength
    ensures forall i :: 0 <= i < |Values(r)| && i != 2 ==> IsBinary(Values(r)[i])
  {
  }

  /** `double_slash_redirecting` is set iff "//" occurs twice without overlap. */
  lemma DoubleSlashIff(url: string, subdomain: string, domain: string)
    ensures ExtractFeatures(url, subdomain, domain).doubleSlashRedirecting == 1 <==>
            TwoApart(url, "//")
  {
    CountAtLeastTwoIff(url, "//");
  }

  /** `shortining_service` is set iff "bit.ly" or "tinyurl" occurs in the URL. */
  lemma ShortiningServiceIff(url: string, subdomain: string, domain: string)
    ensures ExtractFeatures(url, subdomain, domain).shortiningService == 1 <==>
            (exists i :: OccursAt(url, "bit.ly", i)) || (exists i :: OccursAt(url, "tinyurl", i))
  {
    ContainsIffOccurs(url, "bit.ly");
    ContainsIffOccurs(url, "tinyurl");
  }

  /** The other raw-URL columns are exactly the containment tests. */
  lemma UrlContainmentIff(url: string, subdomain: string, domain: string)
    ensures var r := ExtractFeatures(url, subdomain, domain);
      && (r.havingAtSymbol == 1 <==> '@' in url)
      && (r.sslFinalState == 1 <==> exists i :: OccursAt(url, "https", i))
      && (r.submittingToEmail == 1 <==> exists i :: OccursAt(url, "mailto:", i))
      && (r.redirect == 1 <==> exists i :: OccursAt(url, "->", i))
  {
    ContainsCharIffMember(url, '@');
    ContainsIffOccurs(url, "https");
    ContainsIffOccurs(url, "mailto:");
    ContainsIffOccurs(url, "->");
  }

  /** The columns derived from the domain parts, stated over the parts alone. */
  lemma DomainPartsIff(url: string, subdomain: string, domain: string)
    ensures var r := ExtractFeatures(url, subdomain, domain);
      && (r.havingIpHavingIpAddress == 1 <==> exists i :: 0 <= i < |domain| && IsDigit(domain[i]))
      && (r.prefixSuffix == 1 <==> '-' in domain)
      && (r.havingSubDomain == 1 <==> '.' in subdomain)
      && (r.httpsToken == 1 <==> exists i :: OccursAt(subdomain, "https", i))
  {
    ContainsCharIffMember(domain, '-');
    CountPositiveIffContains(subdomain, ".");
    ContainsCharIffMember(subdomain, '.');
    ContainsIffOccurs(subdomain, "https");
  }

  /** With both domain parts empty, no domain-derived column is set. */
  lemma EmptyPartsGiveZero(url: string)
    ensures var r := ExtractFeatures(url, "", "");
      r.havingIpHavingIpAddress == 0 && r.prefixSuffix == 0 &&
      r.havingSubDomain == 0 && r.httpsToken == 0
  {
  }

  /** The empty URL, with empty parts, sets no test column. */
  lemma EmptyUrl()
    ensures var v := Values(ExtractFeatures("", "", ""));
      forall i :: 0 <= i < |v| ==> (v[i] == 1 <==> i in {9, 10, 13, 14, 15, 16, 24, 25, 26, 27, 28, 29})
  {
  }

  /** The columns computed from the raw URL ignore the domain parts. */
  lemma UrlColumnsIgnoreParts(url: string, s1: string, d1: string, s2: string, d2: string)
    ensures var r1, r2 := ExtractFeatures(url, s1, d1), ExtractFeatures(url, s2, d2);
      && r1.urlUrlLength == r2.urlUrlLength
      && r1.shortiningService == r2.shortiningService
      && r1.havingAtSymbol == r2.havingAtSymbol
      && r1.doubleSlashRedirecting == r2.doubleSlashRedirecting
      && r1.sslFinalState == r2.sslFinalState
      && r1.submittingToEmail == r2.submittingToEmail
      && r1.redirect == r2.redirect
  {
  }

  /** The columns computed from the domain parts ignore the raw URL. */
  lemma PartColumnsIgnoreUrl(u1: string, u2: string, subdomain: string, domain: string)
    ensures var r1, r2 := ExtractFeatures(u1, subdomain, domain), ExtractFeatures(u2, subdomain, domain);
      && r1.havingIpHavingIpAddress == r2.havingIpHavingIpAddress
      && r1.prefixSuffix == r2.prefixSuffix
      && r1.havingSubDomain == r2.havingSubDomain
      && r1.httpsToken == r2.httpsToken
  {
  }

  /**
   * The placeholder columns are the same constants for every input: 1 for
   * the twelve "measured elsewhere" columns and 0 for the seven others
   * (`port` included).
   */
  lemma PlaceholdersConstant(url: string, subdomain: string, domain: string)
    ensures var r := ExtractFeatures(url, subdomain, domain);
      && r.index == 0
      && r.domainRegisterationLength == 1 && r.favicon == 1 && r.requestUrl == 1
      && r.urlOfAnchor == 1 && r.linksInTags == 1 && r.sfh == 1 && r.ageOfDomain == 1
      && r.dnsRecord == 1 && r.webTraffic == 1 && r.pageRank == 1 && r.googleIndex == 1
      && r.linksPointingToPage == 1
      && r.port == 0 && r.abnormalUrl == 0 && r.onMouseover == 0 && r.rightClick == 0
      && r.popUpWidnow == 0 && r.iframe == 0 && r.statisticalReport == 0
  {
  }

  /** "http://x.com//y" holds "//" at 5 and at 12, so the column is set. */
  lemma DoubleSlashExample(subdomain: string, domain: string)
    ensures ExtractFeatures("http://x.com//y", subdomain, domain).doubleSlashRedirecting == 1
  {
    var u := "http://x.com//y";
    assert OccursAt(u, "//", 5) by { assert u[5..7] == "//"; }
    assert OccursAt(u, "//", 12) by { assert u[12..14] == "//"; }
    DoubleSlashIff(u, subdomain, domain);
  }

  /** "///" counts "//" once only, so the column stays clear. */
  lemma TripleSlashExample(subdomain: string, domain: string)
    ensures ExtractFeatures("///", subdomain, domain).doubleSlashRedirecting == 0
  {
    TripleSlashCountsOnce();
  }

  /** A bit.ly link is flagged as a shortening service whatever the parser returns. */
  lemma ShortenerExample(subdomain: string, domain: string)
    ensures ExtractFeatures("http://bit.ly/abc", subdomain, domain).shortiningService == 1
  {
    var u := "http://bit.ly/abc";
    assert u[7..13] == "bit.ly";
    assert OccursAt(u, "bit.ly", 7);
    ContainsIffOccurs(u, "bit.ly");
  }

  /** The subdomain "sub" of "http://sub.example.com" has no dot; "a.b" has one. */
  lemma SubDomainExample(url: string, domain: string)
    ensures ExtractFeatures(url, "sub", domain).havingSubDomain == 0
    ensures ExtractFeatures(url, "a.b", domain).havingSubDomain == 1
  {
    DomainPartsIff(url, "sub", domain);
    DomainPartsIff(url, "a.b", domain);
    assert "a.b"[1] == '.';
  }
}
