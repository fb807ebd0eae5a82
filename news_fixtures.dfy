/** The two fixture endpoints of the news search: app/api/news-search/test-valid/route.ts
    returns previews that the corroboration check accepts, and
    app/api/news-search/test-invalid/route.ts a preview it rejects, together
    with the diagnostics and the 400 answer the search route would give. */
module NewsFixtures {
  import opened Wrappers
  import opened Strings
  import opened Js
  import opened Messages
  import opened NewsValidate
  import opened NewsRoute

  /** A fixture source always has both fields. */
  datatype FixtureSource = FixtureSource(domain: string, url: string)

  /** A preview as the fixtures spell it out. */
  datatype FixturePreview = FixturePreview(title: string, summary: string, sources: seq<FixtureSource>,
                                           url: string, image: string, verified: bool)

  function AsSource(s: FixtureSource): Source {
    Source(Some(s.domain), Some(s.url))
  }

  function FixtureJs(p: FixturePreview): JsValue {
    Obj([("title", Str(p.title)), ("summary", Str(p.summary)),
         ("sources", Arr(seq(|p.sources|, i requires 0 <= i < |p.sources| => SourceJs(AsSource(p.sources[i]))))),
         ("url", Str(p.url)), ("image", Str(p.image)), ("verified", Bool(p.verified))])
  }

  function FixturesJs(ps: seq<FixturePreview>): seq<JsValue> {
    seq(|ps|, i requires 0 <= i < |ps| => FixtureJs(ps[i]))
  }

  const FESTIVAL := "torino-festival"
  const TRANSIT := "torino-transit"

  /** The previews of the valid fixture. */
  const VALID_PREVIEWS: seq<FixturePreview> := [
    FixturePreview(
      "Major cultural festival announced in Torino",
      "A major cultural festival with international performers was announced today in Torino."
      + " Organizers expect thousands of visitors over the coming weeks." + LOREM,
      [FixtureSource(NEWS_EXAMPLE_ORG, "https://" + NEWS_EXAMPLE_ORG + "/" + FESTIVAL),
       FixtureSource(LOCALNEWS_IT, "https://" + LOCALNEWS_IT + "/" + FESTIVAL),
       FixtureSource(ANOTHER_SOURCE_NET, "https://" + ANOTHER_SOURCE_NET + "/" + FESTIVAL)],
      "https://" + NEWS_EXAMPLE_ORG + "/" + FESTIVAL, PREVIEW_IMAGE, true),
    FixturePreview(
      "New transit line to improve commuting in Torino",
      "City officials approved a new light-rail line to improve commuting times across Torino." + LOREM,
      [FixtureSource(BLOG_EXAMPLE_COM, "https://" + BLOG_EXAMPLE_COM + "/" + TRANSIT),
       FixtureSource(ANOTHER_SOURCE_NET, "https://" + ANOTHER_SOURCE_NET + "/" + TRANSIT),
       FixtureSource(NEWS_EXAMPLE_ORG, "https://" + NEWS_EXAMPLE_ORG + "/" + TRANSIT)],
      "https://" + BLOG_EXAMPLE_COM + "/" + TRANSIT, PREVIEW_IMAGE, true)
  ]

  /** The single preview of the invalid fixture. */
  const INVALID_PREVIEWS: seq<FixturePreview> := [
    FixturePreview(
      "Local event listing for Torino",
      "A local listing for Torino events with limited detail." + LOREM,
      [FixtureSource(EXAMPLE_COM, "https://" + EXAMPLE_COM + "/torino-1"),
       FixtureSource(EXAMPLE_COM, "https://" + EXAMPLE_COM + "/torino-2")],
      "https://" + EXAMPLE_COM + "/torino-1", PREVIEW_IMAGE, false)
  ]

  const INVALID_MESSAGE :=
    "No corroborated events available. All results for Torino are mock snippets without concrete event details."

  /** What the two fixture endpoints answer. */
  datatype FixtureResponse =
    | PreviewsBody(previews: seq<FixturePreview>)
    | RejectedBody(error: string, userMessage: string, previews: seq<FixturePreview>,
                   diagnostics: seq<Diagnostic>)

  function FixtureStatus(r: FixtureResponse): nat {
    match r
    case PreviewsBody(_) => 200
    case RejectedBody(_, _, _, _) => 400
  }

  /** The raw `domain` of every source, in order. */
  function RawDomains(p: FixturePreview): (ds: seq<string>)
    ensures |ds| == |p.sources| && forall i :: 0 <= i < |ds| ==> ds[i] == p.sources[i].domain
  {
    seq(|p.sources|, i requires 0 <= i < |p.sources| => p.sources[i].domain)
  }

  /** The diagnostics the invalid fixture computes itself: its raw domains and
      their deduplication. */
  function FixtureDiagnostics(ps: seq<FixturePreview>): (ds: seq<Diagnostic>)
    ensures |ds| == |ps|
    ensures forall i :: 0 <= i < |ps| ==>
              ds[i].title == ps[i].title && ds[i].domains == RawDomains(ps[i])
              && ds[i].unique == Dedup(RawDomains(ps[i]))
  {
    seq(|ps|, i requires 0 <= i < |ps| => Diagnostic(ps[i].title, RawDomains(ps[i]), Dedup(RawDomains(ps[i]))))
  }

  /** `GET` of the valid fixture. */
  function TestValidGet(): (r: FixtureResponse)
    ensures FixtureStatus(r) == 200 && r.PreviewsBody?
  {
    PreviewsBody(VALID_PREVIEWS)
  }

  /** `GET` of the invalid fixture. */
  function TestInvalidGet(): (r: FixtureResponse)
    ensures FixtureStatus(r) == 400 && r.RejectedBody? && r.error == NO_VERIFIED_EVENTS
    ensures r.diagnostics == FixtureDiagnostics(r.previews)
  {
    RejectedBody(NO_VERIFIED_EVENTS, INVALID_MESSAGE, INVALID_PREVIEWS, FixtureDiagnostics(INVALID_PREVIEWS))
  }

  /** A list of strings as a JSON array. */
  function StrsJs(xs: seq<string>): JsValue {
    Arr(seq(|xs|, i requires 0 <= i < |xs| => Str(xs[i])))
  }

  function DiagnosticJs(d: Diagnostic): JsValue {
    Obj([("title", Str(d.title)), ("domains", StrsJs(d.domains)), ("unique", StrsJs(d.unique))])
  }

  /** The JSON body a fixture endpoint answers with: `{previews}`, or
      `{error, userMessage, details: {previews, diagnostics}}`. */
  function FixtureBodyJs(r: FixtureResponse): JsValue {
    match r
    case PreviewsBody(ps) => Obj([("previews", Arr(FixturesJs(ps)))])
    case RejectedBody(e, m, ps, ds) =>
      Obj([("error", Str(e)), ("userMessage", Str(m)),
           ("details", Obj([("previews", Arr(FixturesJs(ps))),
                            ("diagnostics", Arr(seq(|ds|, i requires 0 <= i < |ds| => DiagnosticJs(ds[i]))))]))])
  }

  /** The validator sees a fixture preview's own sources. */
  lemma SourcesOfFixture(p: FixturePreview)
    ensures FixtureJs(p).Obj?
    ensures |SourcesOf(FixtureJs(p))| == |p.sources|
    ensures forall i :: 0 <= i < |p.sources| ==> SourcesOf(FixtureJs(p))[i] == SourceJs(AsSource(p.sources[i]))
  {
    var props := FixtureJs(p).props;
    assert props[0].0 == "title" && props[1].0 == "summary" && props[2].0 == "sources";
    assert "title" != "sources" by { FirstCharRulesOutPrefix("title", "sources"); }
    assert "summary" != "sources" by { assert "summary"[1] != "sources"[1]; }
    assert Lookup(props, "sources") == Lookup(props[1..], "sources") == Lookup(props[2..], "sources");
  }

  /** A fixture preview whose sources `i` and `j` carry two different mock
      domains is corroborated. */
  lemma FixtureCorroborated(p: FixturePreview, hostOf: string -> Option<string>, i: nat, j: nat, a: nat, b: nat)
    requires i < |p.sources| && j < |p.sources| && a < 5 && b < 5 && a != b
    requires p.sources[i].domain == MOCK_DOMAINS[a] && p.sources[j].domain == MOCK_DOMAINS[b]
    ensures Corroborated(Diagnose(FixtureJs(p), DomainOf(hostOf)))
  {
    MockDomainsPlain();
    MockDomainsDistinct(a, b);
    SourcesOfFixture(p);
    var srcs := SourcesOf(FixtureJs(p));
    PlainSourceDomain(p.sources[i].domain, Some(p.sources[i].url), hostOf);
    PlainSourceDomain(p.sources[j].domain, Some(p.sources[j].url), hostOf);
    assert srcs[i] == SourceJs(Source(Some(p.sources[i].domain), Some(p.sources[i].url)));
    assert srcs[j] == SourceJs(Source(Some(p.sources[j].domain), Some(p.sources[j].url)));
    assert TwoDistinctDomains(srcs, DomainOf(hostOf));
    CorroboratedIff(FixtureJs(p), DomainOf(hostOf));
  }

  /** A fixture preview is diagnosed under its own title. */
  lemma DiagnoseFixture(p: FixturePreview, domainOf: JsValue -> string)
    ensures var ds := DomainsOf(SourcesOf(FixtureJs(p)), domainOf);
            Diagnose(FixtureJs(p), domainOf) == Diagnostic(p.title, ds, Dedup(ds))
  {
    assert FixtureJs(p).props[0] == ("title", Str(p.title));
  }

  /** Sources that all carry one mock domain yield the raw domains. */
  lemma FixtureUniformDomains(p: FixturePreview, hostOf: string -> Option<string>, a: nat)
    requires a < 5
    requires forall i :: 0 <= i < |p.sources| ==> p.sources[i].domain == MOCK_DOMAINS[a]
    ensures DomainsOf(SourcesOf(FixtureJs(p)), DomainOf(hostOf)) == RawDomains(p)
  {
    MockDomainsPlain();
    SourcesOfFixture(p);
    var srcs := SourcesOf(FixtureJs(p));
    forall i | 0 <= i < |srcs| ensures DomainOf(hostOf)(srcs[i]) == MOCK_DOMAINS[a] {
      PlainSourceDomain(p.sources[i].domain, Some(p.sources[i].url), hostOf);
    }
    UniformDomains(srcs, DomainOf(hostOf), MOCK_DOMAINS[a]);
  }

  /** A fixture preview whose sources all carry one mock domain is diagnosed with
      its raw domains, which deduplicate to that domain alone. */
  lemma FixtureSingleDomain(p: FixturePreview, hostOf: string -> Option<string>, a: nat)
    requires a < 5 && p.sources != []
    requires forall i :: 0 <= i < |p.sources| ==> p.sources[i].domain == MOCK_DOMAINS[a]
    ensures Diagnose(FixtureJs(p), DomainOf(hostOf)) == Diagnostic(p.title, RawDomains(p), [MOCK_DOMAINS[a]])
    ensures !Corroborated(Diagnose(FixtureJs(p), DomainOf(hostOf)))
  {
    FixtureUniformDomains(p, hostOf, a);
    DiagnoseFixture(p, DomainOf(hostOf));
    DedupConstant(RawDomains(p), MOCK_DOMAINS[a]);
  }

  /** The valid fixture: two previews of three sources each, with pairwise
      different domains; each preview's url is its first source's url, and each
      is marked verified with the placeholder image. */
  lemma ValidFixtureShape()
    ensures |VALID_PREVIEWS| == 2
    ensures forall k :: 0 <= k < 2 ==>
              var p := VALID_PREVIEWS[k];
              && |p.sources| == 3
              && (forall i, j :: 0 <= i < j < 3 ==> p.sources[i].domain != p.sources[j].domain)
              && p.url == p.sources[0].url
              && p.verified && p.image == PREVIEW_IMAGE
  {
    MockDomainsDistinct(1, 2);
    MockDomainsDistinct(1, 4);
    MockDomainsDistinct(2, 4);
    MockDomainsDistinct(3, 4);
    MockDomainsDistinct(1, 3);
  }

  /** Each preview of the valid fixture is corroborated, whatever the URL parser. */
  lemma ValidPreviewsCorroborated(hostOf: string -> Option<string>)
    ensures forall k :: 0 <= k < |VALID_PREVIEWS| ==> Corroborated(Diagnose(FixtureJs(VALID_PREVIEWS[k]), DomainOf(hostOf)))
  {
    var p, q := VALID_PREVIEWS[0], VALID_PREVIEWS[1];
    assert p.sources[0].domain == MOCK_DOMAINS[1] && p.sources[1].domain == MOCK_DOMAINS[2];
    assert q.sources[0].domain == MOCK_DOMAINS[3] && q.sources[1].domain == MOCK_DOMAINS[4];
    FixtureCorroborated(p, hostOf, 0, 1, 1, 2);
    FixtureCorroborated(q, hostOf, 0, 1, 3, 4);
  }

  /** The corroboration check accepts the valid fixture, whatever the URL parser,
      and so agrees with the previews' `verified` flag. */
  lemma ValidFixturePasses(hostOf: string -> Option<string>)
    ensures var v := Validate(FixturesJs(VALID_PREVIEWS), DomainOf(hostOf));
            !v.invalid && |v.diagnostics| == 2 && forall d :: d in v.diagnostics ==> Corroborated(d)
    ensures forall k :: 0 <= k < |VALID_PREVIEWS| ==>
              (VALID_PREVIEWS[k].verified <==> Corroborated(Diagnose(FixtureJs(VALID_PREVIEWS[k]), DomainOf(hostOf))))
  {
    var js := FixturesJs(VALID_PREVIEWS);
    ValidPreviewsCorroborated(hostOf);
    ValidFixtureShape();
    ValidateMeaning(js, DomainOf(hostOf));
    var v := Validate(js, DomainOf(hostOf));
    forall d | d in v.diagnostics ensures Corroborated(d) {
      var i :| 0 <= i < |v.diagnostics| && v.diagnostics[i] == d;
      assert js[i] == FixtureJs(VALID_PREVIEWS[i]);
    }
  }

  /** The invalid fixture: one preview whose two sources are both example.com;
      its own diagnostics list both domains and one unique domain. */
  lemma InvalidFixtureShape()
    ensures |INVALID_PREVIEWS| == 1 && |INVALID_PREVIEWS[0].sources| == 2
    ensures INVALID_PREVIEWS[0].sources[0].domain == INVALID_PREVIEWS[0].sources[1].domain == EXAMPLE_COM
    ensures INVALID_PREVIEWS[0].url == INVALID_PREVIEWS[0].sources[0].url
    ensures !INVALID_PREVIEWS[0].verified && INVALID_PREVIEWS[0].image == PREVIEW_IMAGE
    ensures FixtureDiagnostics(INVALID_PREVIEWS)
            == [Diagnostic(INVALID_PREVIEWS[0].title, [EXAMPLE_COM, EXAMPLE_COM], [EXAMPLE_COM])]
  {
    var p := INVALID_PREVIEWS[0];
    assert RawDomains(p) == [EXAMPLE_COM, EXAMPLE_COM];
    DedupConstant(RawDomains(p), EXAMPLE_COM);
  }

  /** The corroboration check rejects the invalid fixture, whatever the URL
      parser, and records exactly the diagnostics the fixture reports; the
      preview's `verified: false` matches the verdict. */
  lemma InvalidFixtureFails(hostOf: string -> Option<string>)
    ensures Validate(FixturesJs(INVALID_PREVIEWS), DomainOf(hostOf))
            == Validation(true, TestInvalidGet().diagnostics)
    ensures !INVALID_PREVIEWS[0].verified
            && !Corroborated(Diagnose(FixtureJs(INVALID_PREVIEWS[0]), DomainOf(hostOf)))
  {
    var js := FixturesJs(INVALID_PREVIEWS);
    var p := INVALID_PREVIEWS[0];
    FixtureSingleDomain(p, hostOf, 0);
    InvalidFixtureShape();
    assert js == [FixtureJs(p)];
    ValidateMeaning(js, DomainOf(hostOf));
    var v := Validate(js, DomainOf(hostOf));
    assert v.diagnostics == [Diagnose(js[0], DomainOf(hostOf))];
  }
}
