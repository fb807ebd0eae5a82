/** The scenarios that tests/test-news-validate.test.ts asserts and
    scripts/test-news-validate.js prints: a fake search engine over a given
    list of domains, three previews built from its results, and the verdict
    of the corroboration check on a single-domain, a five-domain and a mixed
    result list. */
module NewsScenarios {
  import opened Wrappers
  import opened Strings
  import opened Js
  import opened NewsValidate
  import opened NewsRoute

  /** One result of `mockFetchSerpWithDomains`; `domain` is absent when the
      domain list is empty (`domains[i % 0]` is `undefined`). */
  datatype TestResult = TestResult(title: string, snippet: string, url: string, domain: Option<string>, rank: nat)

  function ResultJs(r: TestResult): JsValue {
    Obj([("title", Str(r.title)), ("snippet", Str(r.snippet)), ("url", Str(r.url)),
         ("domain", OptStr(r.domain)), ("rank", Num(r.rank))])
  }

  function ResultsJs(rs: seq<TestResult>): seq<JsValue> {
    seq(|rs|, i requires 0 <= i < |rs| => ResultJs(rs[i]))
  }

  /** Result `i` for `query` over `domains`. */
  function ResultAt(query: string, domains: seq<string>, i: nat): TestResult {
    var n := NatToString(i + 1);
    var domain := if |domains| == 0 then None else Some(domains[i % |domains|]);
    var host := match domain case Some(d) => d case None => "undefined";
    TestResult("Result " + n + " for " + query, "Snippet " + n,
               "https://" + host + "/" + ReplaceSpaceRuns(query) + "/" + n, domain, i + 1)
  }

  /** `mockFetchSerpWithDomains`: ten results, result `i` ranked `i + 1` and
      carrying domain `domains[i mod |domains|]`. */
  function MockFetchSerpWithDomains(query: string, domains: seq<string>): (rs: seq<TestResult>)
    ensures |rs| == 10
    ensures forall i :: 0 <= i < 10 ==>
              rs[i].rank == i + 1
              && rs[i].domain == (if |domains| == 0 then None else Some(domains[i % |domains|]))
  {
    seq(10, i requires 0 <= i < 10 => ResultAt(query, domains, i))
  }

  /** `results[k]`: `undefined` past the end. */
  function At(results: seq<JsValue>, k: nat): JsValue {
    if k < |results| then results[k] else Undefined
  }

  function BuiltPreview(n: string, sources: seq<JsValue>, url: JsValue): JsValue {
    Obj([("title", Str("Preview " + n)), ("summary", Str("Summary " + n)), ("sources", Arr(sources)), ("url", url)])
  }

  /** `buildParsedFromResults`: three previews over results 0-2, 3-4 and 5-7,
      each with its first result's url; `None` is the TypeError thrown when
      result 0, 3 or 5 is missing. */
  function BuildParsedFromResults(results: seq<JsValue>): (r: Option<seq<JsValue>>)
    ensures r.Some? <==> !IsNullish(At(results, 0)) && !IsNullish(At(results, 3)) && !IsNullish(At(results, 5))
  {
    match (Get(At(results, 0), "url"), Get(At(results, 3), "url"), Get(At(results, 5), "url"))
    case (Some(u0), Some(u3), Some(u5)) =>
      Some([BuiltPreview("1", [At(results, 0), At(results, 1), At(results, 2)], u0),
            BuiltPreview("2", [At(results, 3), At(results, 4)], u3),
            BuiltPreview("3", [At(results, 5), At(results, 6), At(results, 7)], u5)])
    case _ => None
  }

  /** The sources and the title the validator reads from a built preview. */
  lemma BuiltPreviewFields(n: string, sources: seq<JsValue>, url: JsValue)
    ensures SourcesOf(BuiltPreview(n, sources, url)) == sources
    ensures OptGet(BuiltPreview(n, sources, url), "title") == Str("Preview " + n)
    ensures OptGet(BuiltPreview(n, sources, url), "url") == url
  {
    var props := BuiltPreview(n, sources, url).props;
    assert "title" != "sources" by { FirstCharRulesOutPrefix("title", "sources"); }
    assert "summary" != "sources" by { assert "summary"[1] != "sources"[1]; }
    LookupAt(props, "sources", 2);
    assert "title" != "url" && "summary" != "url" && "sources" != "url";
    LookupAt(props, "url", 3);
  }

  /** With ten results, the built previews have three, two and three sources,
      and each preview's url is its first source's url. */
  lemma BuildParsedShape(results: seq<JsValue>)
    requires |results| >= 8 && forall k :: 0 <= k < |results| ==> !IsNullish(results[k])
    ensures var r := BuildParsedFromResults(results);
            && r.Some? && |r.value| == 3
            && |SourcesOf(r.value[0])| == 3 && |SourcesOf(r.value[1])| == 2 && |SourcesOf(r.value[2])| == 3
            && SourcesOf(r.value[0]) == results[0..3] && SourcesOf(r.value[1]) == results[3..5]
            && SourcesOf(r.value[2]) == results[5..8]
            && forall k :: 0 <= k < 3 ==> Get(r.value[k], "url") == Get(SourcesOf(r.value[k])[0], "url")
  {
    var ps := BuildParsedFromResults(results).value;
    BuiltPreviewFields("1", [results[0], results[1], results[2]], OptGet(results[0], "url"));
    BuiltPreviewFields("2", [results[3], results[4]], OptGet(results[3], "url"));
    BuiltPreviewFields("3", [results[5], results[6], results[7]], OptGet(results[5], "url"));
  }

  /** The validator reads a result's `domain` field. */
  lemma ResultDomainField(r: TestResult)
    ensures OptGet(ResultJs(r), "domain") == OptStr(r.domain)
  {
    assert "title" != "domain" && "snippet" != "domain" && "url" != "domain";
    LookupAt(ResultJs(r).props, "domain", 3);
  }

  /** A preview with two sources carrying two different mock domains is corroborated. */
  lemma DistinctMockDomains(p: JsValue, hostOf: string -> Option<string>, i: nat, j: nat, a: nat, b: nat)
    requires p.Obj? && i < |SourcesOf(p)| && j < |SourcesOf(p)| && a < 5 && b < 5 && a != b
    requires SourcesOf(p)[i].Obj? && OptGet(SourcesOf(p)[i], "domain") == Str(MOCK_DOMAINS[a])
    requires SourcesOf(p)[j].Obj? && OptGet(SourcesOf(p)[j], "domain") == Str(MOCK_DOMAINS[b])
    ensures Corroborated(Diagnose(p, DomainOf(hostOf)))
  {
    var srcs := SourcesOf(p);
    MockDomainsPlain();
    MockDomainsDistinct(a, b);
    PlainDomainWins(srcs[i], MOCK_DOMAINS[a], hostOf);
    PlainDomainWins(srcs[j], MOCK_DOMAINS[b], hostOf);
    assert TwoDistinctDomains(srcs, DomainOf(hostOf));
    CorroboratedIff(p, DomainOf(hostOf));
  }

  /** A preview whose sources all carry one mock domain is not corroborated. */
  lemma OneMockDomain(p: JsValue, hostOf: string -> Option<string>, a: nat)
    requires p.Obj? && a < 5
    requires forall i :: 0 <= i < |SourcesOf(p)| ==>
               SourcesOf(p)[i].Obj? && OptGet(SourcesOf(p)[i], "domain") == Str(MOCK_DOMAINS[a])
    ensures !Corroborated(Diagnose(p, DomainOf(hostOf)))
  {
    var srcs := SourcesOf(p);
    MockDomainsPlain();
    forall i | 0 <= i < |srcs| ensures DomainOf(hostOf)(srcs[i]) == MOCK_DOMAINS[a] {
      PlainDomainWins(srcs[i], MOCK_DOMAINS[a], hostOf);
    }
    CorroboratedIff(p, DomainOf(hostOf));
  }

  /** For a verdict whose first diagnostic fails, that is the only one recorded. */
  lemma FirstFails(ps: seq<JsValue>, domainOf: JsValue -> string)
    requires ps != [] && !Corroborated(Diagnose(ps[0], domainOf))
    ensures Validate(ps, domainOf) == Validation(true, [Diagnose(ps[0], domainOf)])
  {
    ValidateMeaning(ps, domainOf);
    var v := Validate(ps, domainOf);
    assert |v.diagnostics| == 1;
  }

  /** For a verdict whose first diagnostic passes and second fails, those two
      are the ones recorded. */
  lemma SecondFails(ps: seq<JsValue>, domainOf: JsValue -> string)
    requires |ps| >= 2 && Corroborated(Diagnose(ps[0], domainOf)) && !Corroborated(Diagnose(ps[1], domainOf))
    ensures Validate(ps, domainOf) == Validation(true, [Diagnose(ps[0], domainOf), Diagnose(ps[1], domainOf)])
  {
    var ds := DiagnoseAll(ps, domainOf);
    DiagnoseAllAt(ps, domainOf, 0);
    DiagnoseAllAt(ps, domainOf, 1);
    assert ds[1..][0] == ds[1];
    assert Scan(ds[1..]) == Validation(true, [ds[1]]);
    assert Scan(ds) == Validation(true, [ds[0]] + [ds[1]]);
  }

  const SINGLE: seq<string> := [EXAMPLE_COM]
  const MIXED: seq<string> := [EXAMPLE_COM, NEWS_EXAMPLE_ORG, EXAMPLE_COM, EXAMPLE_COM, LOCALNEWS_IT]

  /** The JavaScript results of the fake search engine over `domains`. */
  function SerpJs(query: string, domains: seq<string>): seq<JsValue> {
    ResultsJs(MockFetchSerpWithDomains(query, domains))
  }

  /** Ten result objects, result `k` carrying domain `domains[k mod |domains|]`. */
  predicate CarriesDomains(rs: seq<JsValue>, domains: seq<string>) {
    |rs| == 10 && domains != [] &&
    forall k :: 0 <= k < 10 ==> rs[k].Obj? && OptGet(rs[k], "domain") == Str(domains[k % |domains|])
  }

  /** The fake search engine's results carry its domains in turn. */
  lemma SerpCarriesDomains(query: string, domains: seq<string>)
    requires domains != []
    ensures CarriesDomains(SerpJs(query, domains), domains)
  {
    var rs := MockFetchSerpWithDomains(query, domains);
    forall k | 0 <= k < 10
      ensures SerpJs(query, domains)[k].Obj?
      ensures OptGet(SerpJs(query, domains)[k], "domain") == Str(domains[k % |domains|])
    {
      ResultDomainField(rs[k]);
    }
  }

  /** Single-domain results: the first built preview already fails. */
  lemma SingleDomainResults(rs: seq<JsValue>, hostOf: string -> Option<string>)
    requires CarriesDomains(rs, SINGLE)
    ensures var r := BuildParsedFromResults(rs);
            r.Some? && Validate(r.value, DomainOf(hostOf)).invalid
            && |Validate(r.value, DomainOf(hostOf)).diagnostics| == 1
            && !Corroborated(Validate(r.value, DomainOf(hostOf)).diagnostics[0])
  {
    assert forall k :: 0 <= k < 10 ==> k % |SINGLE| == 0;
    BuildParsedShape(rs);
    var ps := BuildParsedFromResults(rs).value;
    OneMockDomain(ps[0], hostOf, 0);
    FirstFails(ps, DomainOf(hostOf));
  }

  /** First test and scenario A: with a single domain, the first preview already
      fails, so the check reports "invalid" with one diagnostic, which has fewer
      than two unique domains. */
  lemma SingleDomainSerpInvalid(query: string, hostOf: string -> Option<string>)
    ensures var r := BuildParsedFromResults(SerpJs(query, SINGLE));
            r.Some? &&
            var v := Validate(r.value, DomainOf(hostOf));
            v.invalid && |v.diagnostics| == 1 && forall d :: d in v.diagnostics ==> |d.unique| < 2
  {
    SerpCarriesDomains(query, SINGLE);
    SingleDomainResults(SerpJs(query, SINGLE), hostOf);
  }

  /** A preview whose first two sources are consecutive five-domain results,
      the first not the fifth of its round, pairs two different domains. */
  lemma ConsecutiveSourcesCorroborated(p: JsValue, rs: seq<JsValue>, s: nat, e: nat, hostOf: string -> Option<string>)
    requires CarriesDomains(rs, MOCK_DOMAINS) && s + 2 <= e <= 10 && s % 5 != 4
    requires p.Obj? && SourcesOf(p) == rs[s..e]
    ensures Corroborated(Diagnose(p, DomainOf(hostOf)))
  {
    assert SourcesOf(p)[0] == rs[s] && SourcesOf(p)[1] == rs[s + 1];
    assert OptGet(rs[s], "domain") == Str(MOCK_DOMAINS[s % 5]);
    assert OptGet(rs[s + 1], "domain") == Str(MOCK_DOMAINS[(s + 1) % 5]);
    DistinctMockDomains(p, hostOf, 0, 1, s % 5, (s + 1) % 5);
  }

  /** Five-domain results: every built preview pairs two different domains. */
  lemma VariedDomainResults(rs: seq<JsValue>, hostOf: string -> Option<string>)
    requires CarriesDomains(rs, MOCK_DOMAINS)
    ensures var r := BuildParsedFromResults(rs);
            r.Some? && |r.value| == 3
            && forall k :: 0 <= k < 3 ==> Corroborated(Diagnose(r.value[k], DomainOf(hostOf)))
  {
    BuildParsedShape(rs);
    var ps := BuildParsedFromResults(rs).value;
    forall k | 0 <= k < 3 ensures Corroborated(Diagnose(ps[k], DomainOf(hostOf))) {
      if k == 0 {
        ConsecutiveSourcesCorroborated(ps[0], rs, 0, 3, hostOf);
      } else if k == 1 {
        ConsecutiveSourcesCorroborated(ps[1], rs, 3, 5, hostOf);
      } else {
        ConsecutiveSourcesCorroborated(ps[2], rs, 5, 8, hostOf);
      }
    }
  }

  /** Second test and scenario B: with the five mock domains every preview is
      corroborated, so the check reports "valid" and every diagnostic has at
      least two unique domains. */
  lemma VariedDomainSerpValid(query: string, hostOf: string -> Option<string>)
    ensures var r := BuildParsedFromResults(SerpJs(query, MOCK_DOMAINS));
            r.Some? &&
            var v := Validate(r.value, DomainOf(hostOf));
            !v.invalid && |v.diagnostics| == 3 && forall d :: d in v.diagnostics ==> |d.unique| >= 2
  {
    SerpCarriesDomains(query, MOCK_DOMAINS);
    VariedDomainResults(SerpJs(query, MOCK_DOMAINS), hostOf);
    var ps := BuildParsedFromResults(SerpJs(query, MOCK_DOMAINS)).value;
    ValidateMeaning(ps, DomainOf(hostOf));
    var v := Validate(ps, DomainOf(hostOf));
    forall d | d in v.diagnostics ensures |d.unique| >= 2 {
      var i :| 0 <= i < |v.diagnostics| && v.diagnostics[i] == d;
    }
  }

  /** The previews of the mixed scenario: results 0 and 1, 2 and 3, 4 and 1. */
  function MixedPreviews(results: seq<JsValue>): seq<JsValue> {
    [Obj([("title", Str("Preview 1")), ("sources", Arr([At(results, 0), At(results, 1)]))]),
     Obj([("title", Str("Preview 2")), ("sources", Arr([At(results, 2), At(results, 3)]))]),
     Obj([("title", Str("Preview 3")), ("sources", Arr([At(results, 4), At(results, 1)]))])]
  }

  /** Mixed results: the first preview pairs example.com and news.example.org. */
  lemma MixedFirstCorroborated(rs: seq<JsValue>, hostOf: string -> Option<string>)
    requires CarriesDomains(rs, MIXED)
    ensures Corroborated(Diagnose(MixedPreviews(rs)[0], DomainOf(hostOf)))
  {
    var p := MixedPreviews(rs)[0];
    assert OptGet(rs[0], "domain") == Str(MOCK_DOMAINS[0]) && OptGet(rs[1], "domain") == Str(MOCK_DOMAINS[1]);
    assert "title" != "sources" by { FirstCharRulesOutPrefix("title", "sources"); }
    LookupAt(p.props, "sources", 1);
    assert SourcesOf(p) == [rs[0], rs[1]];
    DistinctMockDomains(p, hostOf, 0, 1, 0, 1);
  }

  /** Mixed results: both sources of the second preview are example.com. */
  lemma MixedSecondFails(rs: seq<JsValue>, hostOf: string -> Option<string>)
    requires CarriesDomains(rs, MIXED)
    ensures !Corroborated(Diagnose(MixedPreviews(rs)[1], DomainOf(hostOf)))
    ensures Diagnose(MixedPreviews(rs)[1], DomainOf(hostOf)).title == "Preview 2"
  {
    var p := MixedPreviews(rs)[1];
    assert OptGet(rs[2], "domain") == Str(MOCK_DOMAINS[0]) && OptGet(rs[3], "domain") == Str(MOCK_DOMAINS[0]);
    assert "title" != "sources" by { FirstCharRulesOutPrefix("title", "sources"); }
    LookupAt(p.props, "sources", 1);
    assert SourcesOf(p) == [rs[2], rs[3]];
    OneMockDomain(p, hostOf, 0);
  }

  /** Third test and scenario C: the first preview is corroborated and the second,
      whose sources are both example.com, is not; the check reports "invalid"
      and its diagnostics end with "Preview 2", which has fewer than two unique
      domains. */
  lemma MixedDomainSerpInvalid(query: string, hostOf: string -> Option<string>)
    ensures var v := Validate(MixedPreviews(SerpJs(query, MIXED)), DomainOf(hostOf));
            && v.invalid && |v.diagnostics| == 2
            && (exists d :: d in v.diagnostics && d.title == "Preview 2" && |d.unique| < 2)
  {
    var ps := MixedPreviews(SerpJs(query, MIXED));
    SerpCarriesDomains(query, MIXED);
    MixedFirstCorroborated(SerpJs(query, MIXED), hostOf);
    MixedSecondFails(SerpJs(query, MIXED), hostOf);
    SecondFails(ps, DomainOf(hostOf));
    assert Diagnose(ps[1], DomainOf(hostOf)) in Validate(ps, DomainOf(hostOf)).diagnostics;
  }
}
