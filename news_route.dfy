/** The news-search route, app/api/news-search/route.ts: with the fake backend
    switched on it builds up to three two-source previews from a mock search
    result page, runs the corroboration check on them and answers either with
    the previews or with a 400 `NO_VERIFIED_EVENTS` error. */
module NewsRoute {
  import opened Wrappers
  import opened Strings
  import opened Js
  import opened Messages
  import opened NewsValidate

  /** One result of the (mock) search engine. */
  datatype SerpResult = SerpResult(title: string, snippet: string, url: string, domain: string, rank: nat)

  const EXAMPLE_COM := "example.com"
  const NEWS_EXAMPLE_ORG := "news.example.org"
  const LOCALNEWS_IT := "localnews.it"
  const BLOG_EXAMPLE_COM := "blog.example.com"
  const ANOTHER_SOURCE_NET := "another-source.net"

  /** The five domains `mockFetchSerp` cycles through. */
  const MOCK_DOMAINS: seq<string> :=
    [EXAMPLE_COM, NEWS_EXAMPLE_ORG, LOCALNEWS_IT, BLOG_EXAMPLE_COM, ANOTHER_SOURCE_NET]

  const LOREM := " Lorem ipsum dolor sit amet, consectetur adipiscing elit."

  /** The `i`-th mock result for `query` (counting from 0). */
  function MockResult(query: string, i: nat): SerpResult {
    var n := NatToString(i + 1);
    var domain := MOCK_DOMAINS[i % 5];
    SerpResult("Event " + n,
               "This is a mock snippet for result " + n + " related to " + query + "." + LOREM,
               "https://" + domain + "/" + ReplaceSpaceRuns(query) + "/" + n,
               domain, i + 1)
  }

  /** `mockFetchSerp`: twenty results, ranked 1 to 20 and titled "Event 1" to
      "Event 20", cycling through the five mock domains; the query's whitespace
      runs become '-' in the urls. */
  function MockFetchSerp(query: string): (rs: seq<SerpResult>)
    ensures |rs| == 20
    ensures forall i :: 0 <= i < 20 ==> rs[i].rank == i + 1 && rs[i].domain == MOCK_DOMAINS[i % 5]
    ensures forall i :: 0 <= i < 20 ==>
              rs[i].url == "https://" + rs[i].domain + "/" + ReplaceSpaceRuns(query) + "/" + NatToString(i + 1)
    ensures forall i :: 0 <= i < 20 ==>
              && rs[i].title == "Event " + NatToString(i + 1)
              && rs[i].snippet == "This is a mock snippet for result " + NatToString(i + 1) + " related to " + query + "." + LOREM
  {
    seq(20, i requires 0 <= i < 20 => MockResult(query, i))
  }

  /** A preview as the route builds it before validation. */
  datatype ParsedPreview = ParsedPreview(title: string, summary: string, sources: seq<Source>,
                                         url: string, imagePrompt: string)

  function SourceOfResult(r: SerpResult): Source {
    Source(Some(r.domain), Some(r.url))
  }

  /** The preview built from result `r1` and, when there is one, its partner `r2`. */
  function PreviewOf(r1: SerpResult, r2: Option<SerpResult>): ParsedPreview {
    var sources := [SourceOfResult(r1)] + (match r2 case Some(r) => [SourceOfResult(r)] case None => []);
    ParsedPreview(r1.title, r1.snippet, sources, r1.url, r1.title)
  }

  /** The pairing as a function: preview `k` takes results `2k` and `2k + 1`,
      for at most three previews. */
  function Pairs(results: seq<SerpResult>): seq<ParsedPreview> {
    var n := if |results| >= 6 then 3 else (|results| + 1) / 2;
    seq(n, k requires 0 <= k < n =>
      PreviewOf(results[2 * k], if 2 * k + 1 < |results| then Some(results[2 * k + 1]) else None))
  }

  /** The pairing yields `min(3, ceil(|results| / 2))` previews; each has one or
      two sources, the second missing only for an unpaired last result, and takes
      its title, summary, url and image prompt from its first result. */
  lemma PairsShape(results: seq<SerpResult>)
    ensures var ps := Pairs(results);
            && |ps| == (if |results| >= 6 then 3 else (|results| + 1) / 2)
            && forall k :: 0 <= k < |ps| ==>
                 && 1 <= |ps[k].sources| <= 2
                 && ps[k].sources[0] == SourceOfResult(results[2 * k])
                 && (|ps[k].sources| == 2 <==> 2 * k + 1 < |results|)
                 && (|ps[k].sources| == 2 ==> ps[k].sources[1] == SourceOfResult(results[2 * k + 1]))
                 && ps[k].title == ps[k].imagePrompt == results[2 * k].title
                 && ps[k].summary == results[2 * k].snippet && ps[k].url == results[2 * k].url
  {
  }

  /** The `for (let i = 0; i < 3; i++)` loop that groups results two per preview. */
  method PairPreviews(results: seq<SerpResult>) returns (ps: seq<ParsedPreview>)
    ensures ps == Pairs(results)
  {
    ps := [];
    for i := 0 to 3
      invariant i <= 3
      invariant |ps| == i <= 3
      invariant 2 * (i - 1) < |results| || i == 0
      invariant forall k :: 0 <= k < i ==> ps[k] == Pairs(results)[k]
      invariant i < 3 && 2 * i >= |results| ==> ps == Pairs(results)
    {
      if 2 * i >= |results| {
        break;
      }
      var r1 := results[2 * i];
      var r2 := if 2 * i + 1 < |results| then Some(results[2 * i + 1]) else None;
      ps := ps + [PreviewOf(r1, r2)];
    }
    if |ps| == 3 {
      assert |Pairs(results)| == 3;
    }
  }

  function PreviewJs(p: ParsedPreview): JsValue {
    Obj([("title", Str(p.title)), ("summary", Str(p.summary)),
         ("sources", Arr(seq(|p.sources|, i requires 0 <= i < |p.sources| => SourceJs(p.sources[i])))),
         ("url", Str(p.url)), ("imagePrompt", Str(p.imagePrompt))])
  }

  function PreviewsJs(ps: seq<ParsedPreview>): seq<JsValue> {
    seq(|ps|, i requires 0 <= i < |ps| => PreviewJs(ps[i]))
  }

  /** A preview as the success response carries it. */
  datatype PreviewOut = PreviewOut(title: string, summary: string, sources: seq<Source>,
                                   url: string, image: string)

  function Finish(p: ParsedPreview): PreviewOut {
    PreviewOut(p.title, p.summary, p.sources, p.url, PREVIEW_IMAGE)
  }

  /** What `messages.slice().reverse().find(m => m.role === 'user')` does: the
      callback throws a TypeError on a `null` or `undefined` element. */
  datatype UserSearch = Threw | Found(msg: Option<JsValue>)

  function LastUser(items: seq<JsValue>): UserSearch {
    if items == [] then Found(None)
    else
      var m := items[|items| - 1];
      match Get(m, "role")
      case None => Threw
      case Some(role) => if role == Str("user") then Found(Some(m)) else LastUser(items[..|items| - 1])
  }

  /** An element the backward search passes over: not nullish and not a user message. */
  predicate PassedOver(m: JsValue) {
    !IsNullish(m) && OptGet(m, "role") != Str("user")
  }

  /** A found message is a user message, and every later element was passed over. */
  lemma {:induction false} LastUserFound(items: seq<JsValue>)
    requires LastUser(items).Found? && LastUser(items).msg.Some?
    ensures exists k :: 0 <= k < |items| && items[k] == LastUser(items).msg.value
              && OptGet(items[k], "role") == Str("user")
              && forall j :: k < j < |items| ==> PassedOver(items[j])
  {
    var init := items[..|items| - 1];
    var m := items[|items| - 1];
    if Get(m, "role") == Some(Str("user")) {
      assert items[|items| - 1] == LastUser(items).msg.value;
    } else {
      assert PassedOver(m);
      assert LastUser(items) == LastUser(init);
      LastUserFound(init);
      var k :| 0 <= k < |init| && init[k] == LastUser(init).msg.value
            && OptGet(init[k], "role") == Str("user")
            && forall j :: k < j < |init| ==> PassedOver(init[j]);
      assert items[k] == init[k];
      assert forall j :: k < j < |init| ==> items[j] == init[j];
    }
  }

  /** Nothing is found exactly when every element is passed over. */
  lemma {:induction false} LastUserNone(items: seq<JsValue>)
    ensures LastUser(items) == Found(None) <==> forall j :: 0 <= j < |items| ==> PassedOver(items[j])
  {
    if items != [] {
      var init := items[..|items| - 1];
      LastUserNone(init);
      assert forall j :: 0 <= j < |init| ==> items[j] == init[j];
      if !PassedOver(items[|items| - 1]) {
        assert LastUser(items) != Found(None);
      }
    }
  }

  /** The search throws exactly when it reaches a nullish element, every later
      element having been passed over. */
  lemma {:induction false} LastUserThrows(items: seq<JsValue>)
    ensures LastUser(items).Threw? <==>
              exists k :: 0 <= k < |items| && IsNullish(items[k])
                && forall j :: k < j < |items| ==> PassedOver(items[j])
  {
    if items != [] {
      var init := items[..|items| - 1];
      var m := items[|items| - 1];
      LastUserThrows(init);
      assert forall j :: 0 <= j < |init| ==> items[j] == init[j];
      if PassedOver(m) {
        if LastUser(items).Threw? {
          var k :| 0 <= k < |init| && IsNullish(init[k]) && forall j :: k < j < |init| ==> PassedOver(init[j]);
          assert IsNullish(items[k]) && forall j :: k < j < |items| ==> PassedOver(items[j]);
        }
      }
    }
  }

  /** The query the route searches for: the string content of the last user
      message, '' when there is none; `None` when the search throws. */
  function QueryOf(messages: JsValue): Option<string> {
    match messages
    case Arr(items) =>
      (match LastUser(items)
       case Threw => None
       case Found(None) => Some("")
       case Found(Some(m)) => Some(match OptGet(m, "content") case Str(c) => c case _ => ""))
    case _ => Some("")
  }

  /** The 400 message naming the locality searched for. */
  function NoEventsMessage(query: string): string {
    "No corroborated events available. All results for " + query
      + " are mock snippets without concrete event details. Please try again later with real news data."
  }

  /** The answers of `POST`; `NoResponse` is the handler falling through without
      a response when the fake backend is off. */
  datatype NewsResponse =
    | NoResponse
    | PreviewsOk(previews: seq<PreviewOut>)
    | NoVerifiedEvents(query: string, userMessage: string, parsed: seq<ParsedPreview>,
                       diagnostics: seq<Diagnostic>)
    | InternalError

  function Status(r: NewsResponse): nat {
    match r
    case NoResponse => 0
    case PreviewsOk(_) => 200
    case NoVerifiedEvents(_, _, _, _) => 400
    case InternalError => 500
  }

  /** The reply of the mock backend for `query`: the paired previews are
      validated; an invalid set gives the no-verified-events error for
      `query` ("the locality" when it is empty), a valid one the previews. */
  function MockResponse(query: string, hostOf: string -> Option<string>): NewsResponse {
    var ps := Pairs(MockFetchSerp(query));
    var v := Validate(PreviewsJs(ps), DomainOf(hostOf));
    var q := if query == "" then "the locality" else query;
    if v.invalid then NoVerifiedEvents(q, NoEventsMessage(q), ps, v.diagnostics)
    else PreviewsOk(seq(|ps|, i requires 0 <= i < |ps| => Finish(ps[i])))
  }

  /** `POST`. `body` is the parsed request body, `None` when it is not JSON;
      `fakeBackend` is the environment switch; `hostOf` is the URL parser. */
  method Post(body: Option<JsValue>, fakeBackend: bool, hostOf: string -> Option<string>)
    returns (r: NewsResponse)
    ensures body.None? || IsNullish(body.value) ==> r == InternalError
    ensures body.Some? && !IsNullish(body.value) && !fakeBackend ==> r == NoResponse
    ensures body.Some? && !IsNullish(body.value) && fakeBackend ==>
              match QueryOf(OptGet(body.value, "messages"))
              case None => r == InternalError
              case Some(query) => r == MockResponse(query, hostOf)
  {
    if body.None? || IsNullish(body.value) {
      return InternalError;
    }
    if !fakeBackend {
      return NoResponse;
    }
    var maybeQuery := QueryOf(OptGet(body.value, "messages"));
    if maybeQuery.None? {
      return InternalError;
    }
    r := RespondMock(maybeQuery.value, hostOf);
  }

  /** The mock branch of `POST`: fetch, pair, validate, answer. */
  method RespondMock(query: string, hostOf: string -> Option<string>) returns (r: NewsResponse)
    ensures r == MockResponse(query, hostOf)
  {
    var results := MockFetchSerp(query);
    var parsed := PairPreviews(results);
    PairsShape(results);
    var invalid, diagnostics := ValidateParsed(PreviewsJs(parsed), DomainOf(hostOf));
    if invalid {
      var q := if query == "" then "the locality" else query;
      return NoVerifiedEvents(q, NoEventsMessage(q), parsed, diagnostics);
    }
    var shown := parsed[..if |parsed| < 3 then |parsed| else 3];
    assert shown == parsed;
    r := PreviewsOk(seq(|shown|, i requires 0 <= i < |shown| => Finish(shown[i])));
  }

  /** The mock domains are plain host names without a "www." prefix. */
  lemma MockDomainsPlain()
    ensures forall i :: 0 <= i < 5 ==>
              IsPlain(MOCK_DOMAINS[i]) && MOCK_DOMAINS[i] != "" && MOCK_DOMAINS[i][0] != 'w'
  {
    PlainByIndex(EXAMPLE_COM);
    PlainByIndex(NEWS_EXAMPLE_ORG);
    PlainByIndex(LOCALNEWS_IT);
    PlainByIndex(BLOG_EXAMPLE_COM);
    PlainByIndex(ANOTHER_SOURCE_NET);
  }

  /** The mock domains are pairwise different: their first letters differ. */
  lemma MockDomainsDistinct(i: nat, j: nat)
    requires i < 5 && j < 5 && i != j
    ensures MOCK_DOMAINS[i] != "" && MOCK_DOMAINS[j] != ""
    ensures MOCK_DOMAINS[i] != MOCK_DOMAINS[j]
  {
    assert MOCK_DOMAINS[i][0] != MOCK_DOMAINS[j][0];
  }

  /** A source carrying a plain, non-"www." domain yields that domain, whatever
      its url and whatever the URL parser. */
  lemma PlainSourceDomain(d: string, u: Option<string>, hostOf: string -> Option<string>)
    requires IsPlain(d) && d != "" && d[0] != 'w'
    ensures DomainOf(hostOf)(SourceJs(Source(Some(d), u))) == d
  {
    var src := SourceJs(Source(Some(d), u));
    assert OptGet(src, "domain") == Str(d);
    PlainDomainWins(src, d, hostOf);
  }

  /** The validator sees a preview's own sources. */
  lemma SourcesOfPreview(p: ParsedPreview)
    ensures PreviewJs(p).Obj?
    ensures |SourcesOf(PreviewJs(p))| == |p.sources|
    ensures forall i :: 0 <= i < |p.sources| ==> SourcesOf(PreviewJs(p))[i] == SourceJs(p.sources[i])
  {
    var props := PreviewJs(p).props;
    assert props[0].0 == "title" && props[1].0 == "summary" && props[2].0 == "sources";
    assert "title" != "sources" by { FirstCharRulesOutPrefix("title", "sources"); }
    assert "summary" != "sources" by { assert "summary"[1] != "sources"[1]; }
    assert Lookup(props, "sources") == Lookup(props[1..], "sources") == Lookup(props[2..], "sources");
  }

  /** A paired preview whose two results yield different non-empty domains is
      corroborated. */
  lemma PairedPreviewCorroborated(rs: seq<SerpResult>, k: nat, domainOf: JsValue -> string, a: string, b: string)
    requires k < 3 && 2 * k + 1 < |rs|
    requires domainOf(SourceJs(SourceOfResult(rs[2 * k]))) == a
    requires domainOf(SourceJs(SourceOfResult(rs[2 * k + 1]))) == b
    requires a != "" && b != "" && a != b
    ensures Corroborated(Diagnose(PreviewJs(Pairs(rs)[k]), domainOf))
  {
    var p := Pairs(rs)[k];
    PairsShape(rs);
    SourcesOfPreview(p);
    var srcs := SourcesOf(PreviewJs(p));
    assert srcs[0] == SourceJs(SourceOfResult(rs[2 * k]));
    assert srcs[1] == SourceJs(SourceOfResult(rs[2 * k + 1]));
    assert TwoDistinctDomains(srcs, domainOf);
    CorroboratedIff(PreviewJs(p), domainOf);
  }

  /** A preview pairing two results whose domains are two different mock
      domains is corroborated, whatever the urls and the URL parser. */
  lemma CycledPreviewCorroborated(rs: seq<SerpResult>, hostOf: string -> Option<string>, k: nat)
    requires k < 3 && |rs| >= 6
    requires forall i :: 0 <= i < 6 ==> rs[i].domain == MOCK_DOMAINS[i % 5]
    ensures Corroborated(Diagnose(PreviewJs(Pairs(rs)[k]), DomainOf(hostOf)))
  {
    var i, j := 2 * k, 2 * k + 1;
    var a, b := if k == 2 then 4 else i, if k == 2 then 0 else j;
    assert rs[i].domain == MOCK_DOMAINS[a] && rs[j].domain == MOCK_DOMAINS[b];
    MockDomainsPlain();
    MockDomainsDistinct(a, b);
    PlainSourceDomain(rs[i].domain, Some(rs[i].url), hostOf);
    PlainSourceDomain(rs[j].domain, Some(rs[j].url), hostOf);
    PairedPreviewCorroborated(rs, k, DomainOf(hostOf), MOCK_DOMAINS[a], MOCK_DOMAINS[b]);
  }

  /** Each mock preview pairs two consecutive results, whose domains differ. */
  lemma MockPreviewCorroborated(query: string, hostOf: string -> Option<string>, k: nat)
    requires k < 3
    ensures Corroborated(Diagnose(PreviewJs(Pairs(MockFetchSerp(query))[k]), DomainOf(hostOf)))
  {
    CycledPreviewCorroborated(MockFetchSerp(query), hostOf, k);
  }

  /** With the fake backend the check always passes, so the route answers with
      exactly three previews and never with `NO_VERIFIED_EVENTS`. */
  lemma MockPreviewsCorroborated(query: string, hostOf: string -> Option<string>)
    ensures var ps := Pairs(MockFetchSerp(query));
            |ps| == 3 && !Validate(PreviewsJs(ps), DomainOf(hostOf)).invalid
  {
    var ps := Pairs(MockFetchSerp(query));
    var js := PreviewsJs(ps);
    PairsShape(MockFetchSerp(query));
    forall k | 0 <= k < |js| ensures Corroborated(Diagnose(js[k], DomainOf(hostOf))) {
      MockPreviewCorroborated(query, hostOf, k);
    }
    ValidateMeaning(js, DomainOf(hostOf));
  }

  /** Hence the mock branch of `POST` always answers 200 with three finished
      previews, each showing the placeholder image. */
  lemma MockAlwaysAnswersPreviews(query: string, hostOf: string -> Option<string>)
    ensures var r := MockResponse(query, hostOf);
            && r.PreviewsOk? && Status(r) == 200 && |r.previews| == 3
            && forall k :: 0 <= k < 3 ==>
                 r.previews[k] == Finish(Pairs(MockFetchSerp(query))[k]) && r.previews[k].image == PREVIEW_IMAGE
  {
    MockPreviewsCorroborated(query, hostOf);
  }
}
