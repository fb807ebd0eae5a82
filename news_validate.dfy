/** The corroboration check on news previews: app/api/news-search/route.ts
    (`normalizeDomain`, `domainFromSource` and the `some` callback of `POST`),
    repeated verbatim in tests/test-news-validate.test.ts and
    scripts/test-news-validate.js (`validateParsed`). A preview is corroborated
    when its sources name at least two distinct non-empty domains. */
module NewsValidate {
  import opened Wrappers
  import opened Strings
  import opened Js

  /** A source of a preview as the routes build it: `{ domain?, url? }`. */
  datatype Source = Source(domain: Option<string>, url: Option<string>)

  function SourceJs(s: Source): JsValue {
    Obj([("domain", OptStr(s.domain)), ("url", OptStr(s.url))])
  }

  /** `normalizeDomain`: '' for an absent or empty domain; otherwise lower-cased,
      trimmed, and with one leading "www." removed. */
  function NormalizeDomain(domain: Option<string>): (r: string)
    ensures domain.None? || domain == Some("") ==> r == ""
    ensures NoUpper(r)
  {
    match domain
    case None => ""
    case Some(s) =>
      if s == "" then ""
      else
        var d := Trim(ToLower(s));
        TrimNoUpper(ToLower(s));
        if StartsWith(d, "www.") then d[4..] else d
  }

  /** Exactly one "www." is removed, after lower-casing and trimming. */
  lemma NormalizeStripsOneWww(s: string)
    requires s != "" && StartsWith(Trim(ToLower(s)), "www.")
    ensures "www." + NormalizeDomain(Some(s)) == Trim(ToLower(s))
  {
  }

  /** The leading "www." of a plain host name is removed. */
  lemma NormalizeStripsWww(h: string)
    requires IsPlain(h) && h != ""
    ensures NormalizeDomain(Some("www." + h)) == h
  {
    var once := "www." + h;
    assert IsPlain("www.");
    ToLowerPlain(once);
    TrimPlain(once);
    assert once[..4] == "www." && once[4..] == h;
  }

  /** Case does not matter: a domain and its lower-cased form normalise alike. */
  lemma NormalizeIgnoresCase(s: string)
    ensures NormalizeDomain(Some(ToLower(s))) == NormalizeDomain(Some(s))
  {
    if s != "" {
      var l := ToLower(s);
      assert l != "" by { assert |LowerChar(s[0])| > 0; }
      ToLowerIdempotent(s);
      assert Trim(ToLower(l)) == Trim(ToLower(s));
    }
  }

  /** A plain host name other than a "www." one is its own normal form. */
  lemma NormalizePlain(s: string)
    requires IsPlain(s) && !StartsWith(s, "www.")
    ensures NormalizeDomain(Some(s)) == s
  {
    ToLowerPlain(s);
    TrimPlain(s);
  }

  /** `domainFromSource`: '' for anything that is not an object; a non-blank
      string `domain` is normalised; otherwise a non-blank string `url` is parsed
      (`hostOf` stands for `new URL(url).hostname`, `None` for a parse failure)
      and its host name normalised; every other case gives ''. */
  function DomainFromSource(src: JsValue, hostOf: string -> Option<string>): (r: string)
    ensures !Truthy(src) || !IsObjectType(src) ==> r == ""
    ensures NoUpper(r)
  {
    if !Truthy(src) || !IsObjectType(src) then ""
    else
      var domain := OptGet(src, "domain");
      var url := OptGet(src, "url");
      if domain.Str? && Trim(domain.s) != "" then NormalizeDomain(Some(domain.s))
      else if url.Str? && Trim(url.s) != "" then
        match hostOf(url.s)
        case None => ""
        case Some(h) => NormalizeDomain(Some(h))
      else ""
  }

  /** A non-blank `domain` takes precedence: two objects with the same such
      domain give the same answer whatever their urls and whatever the URL parser. */
  lemma DomainTakesPrecedence(a: JsValue, b: JsValue, hostA: string -> Option<string>,
                              hostB: string -> Option<string>)
    requires a.Obj? && b.Obj? && OptGet(a, "domain") == OptGet(b, "domain")
    requires OptGet(a, "domain").Str? && Trim(OptGet(a, "domain").s) != ""
    ensures DomainFromSource(a, hostA) == DomainFromSource(b, hostB)
            == NormalizeDomain(Some(OptGet(a, "domain").s))
  {
    DomainFieldUsed(a, hostA);
    DomainFieldUsed(b, hostB);
  }

  /** An object with a non-blank string `domain` takes its answer from it. */
  lemma DomainFieldUsed(src: JsValue, hostOf: string -> Option<string>)
    requires src.Obj? && OptGet(src, "domain").Str? && Trim(OptGet(src, "domain").s) != ""
    ensures DomainFromSource(src, hostOf) == NormalizeDomain(Some(OptGet(src, "domain").s))
  {
    assert Truthy(src) && IsObjectType(src);
  }

  /** Without a usable domain, a missing, non-string or blank url, or one the URL
      parser rejects, gives ''. */
  lemma UrlFailureGivesEmpty(src: JsValue, hostOf: string -> Option<string>)
    requires !(OptGet(src, "domain").Str? && Trim(OptGet(src, "domain").s) != "")
    requires var u := OptGet(src, "url"); !u.Str? || Trim(u.s) == "" || hostOf(u.s).None?
    ensures DomainFromSource(src, hostOf) == ""
  {
  }

  /** Without a usable domain, a parsable url gives its normalised host name. */
  lemma UrlFallbackGivesHost(src: JsValue, hostOf: string -> Option<string>)
    requires src.Obj?
    requires !(OptGet(src, "domain").Str? && Trim(OptGet(src, "domain").s) != "")
    requires var u := OptGet(src, "url"); u.Str? && Trim(u.s) != "" && hostOf(u.s).Some?
    ensures DomainFromSource(src, hostOf) == NormalizeDomain(hostOf(OptGet(src, "url").s))
  {
  }

  /** `domainFromSource` for a given URL parser, as a function value. */
  function DomainOf(hostOf: string -> Option<string>): JsValue -> string {
    src => DomainFromSource(src, hostOf)
  }

  /** An object whose `domain` is a plain, non-empty host name not starting with
      'w' yields that name, whatever its url and whatever the URL parser. */
  lemma PlainDomainWins(src: JsValue, d: string, hostOf: string -> Option<string>)
    requires src.Obj? && OptGet(src, "domain") == Str(d)
    requires IsPlain(d) && d != "" && d[0] != 'w'
    ensures DomainOf(hostOf)(src) == d
  {
    TrimPlain(d);
    FirstCharRulesOutPrefix(d, "www.");
    NormalizePlain(d);
    assert DomainOf(hostOf)(src) == DomainFromSource(src, hostOf);
  }

  /** What the validator records for one preview. */
  datatype Diagnostic = Diagnostic(title: string, domains: seq<string>, unique: seq<string>)

  /** `Array.isArray(item.sources) ? item.sources : []`. */
  function SourcesOf(item: JsValue): seq<JsValue> {
    match OptGet(item, "sources")
    case Arr(xs) => xs
    case _ => []
  }

  /** `sources.map(domainFromSource).filter(d => d.length > 0)`, for the domain
      extraction `domainOf` (`DomainOf(hostOf)` in the application). */
  function DomainsOf(sources: seq<JsValue>, domainOf: JsValue -> string): (ds: seq<string>)
    ensures forall i :: 0 <= i < |ds| ==> ds[i] != ""
    ensures |ds| <= |sources|
  {
    if sources == [] then []
    else
      var d := domainOf(sources[0]);
      (if d != "" then [d] else []) + DomainsOf(sources[1..], domainOf)
  }

  /** A domain is listed exactly when some source yields it. */
  lemma {:induction false} DomainsOfMembers(sources: seq<JsValue>, domainOf: JsValue -> string, x: string)
    ensures x in DomainsOf(sources, domainOf) <==>
            x != "" && exists i :: 0 <= i < |sources| && domainOf(sources[i]) == x
  {
    if sources != [] {
      DomainsOfMembers(sources[1..], domainOf, x);
      if x != "" && domainOf(sources[0]) != x {
        if exists i :: 0 <= i < |sources| && domainOf(sources[i]) == x {
          var i :| 0 <= i < |sources| && domainOf(sources[i]) == x;
          assert sources[1..][i - 1] == sources[i];
        }
      }
    }
  }

  /** Sources that all yield one non-empty domain list it once per source. */
  lemma {:induction false} UniformDomains(srcs: seq<JsValue>, domainOf: JsValue -> string, d: string)
    requires d != "" && forall i :: 0 <= i < |srcs| ==> domainOf(srcs[i]) == d
    ensures |DomainsOf(srcs, domainOf)| == |srcs|
    ensures forall i :: 0 <= i < |srcs| ==> DomainsOf(srcs, domainOf)[i] == d
  {
    if srcs != [] {
      assert forall i :: 0 <= i < |srcs[1..]| ==> srcs[1..][i] == srcs[i + 1];
      UniformDomains(srcs[1..], domainOf, d);
    }
  }

  /** The diagnostic of one preview: a value that is not an object counts as an
      empty object, and a `sources` that is not an array as no sources. */
  function Diagnose(p: JsValue, domainOf: JsValue -> string): Diagnostic {
    var item := if Truthy(p) && IsObjectType(p) then p else Obj([]);
    var domains := DomainsOf(SourcesOf(item), domainOf);
    var title := match OptGet(item, "title") case Str(t) => t case _ => "";
    Diagnostic(title, domains, Dedup(domains))
  }

  /** Malformed previews are diagnosed as having no sources: `null`, a primitive,
      or an object whose `sources` is not an array. The recorded domains are
      never empty strings, and the unique ones are them without repetition. */
  lemma DiagnoseMalformed(p: JsValue, domainOf: JsValue -> string)
    ensures !Truthy(p) || !IsObjectType(p) ==> Diagnose(p, domainOf) == Diagnostic("", [], [])
    ensures !OptGet(p, "sources").Arr? ==>
              Diagnose(p, domainOf).domains == [] && !Corroborated(Diagnose(p, domainOf))
    ensures forall i :: 0 <= i < |Diagnose(p, domainOf).domains| ==> Diagnose(p, domainOf).domains[i] != ""
    ensures forall x :: x in Diagnose(p, domainOf).unique <==> x in Diagnose(p, domainOf).domains
  {
    DedupSpec(Diagnose(p, domainOf).domains);
  }

  /** The rule a preview must pass: at least two distinct domains. */
  predicate Corroborated(d: Diagnostic) {
    |d.unique| >= 2
  }

  /** Two of the sources yield different non-empty domains. */
  predicate TwoDistinctDomains(srcs: seq<JsValue>, domainOf: JsValue -> string) {
    exists i, j :: 0 <= i < |srcs| && 0 <= j < |srcs| &&
      domainOf(srcs[i]) != "" && domainOf(srcs[j]) != "" && domainOf(srcs[i]) != domainOf(srcs[j])
  }

  /** Two unique filtered domains come from two sources with different
      non-empty domains. */
  lemma DistinctFromDedup(srcs: seq<JsValue>, domainOf: JsValue -> string)
    requires |Dedup(DomainsOf(srcs, domainOf))| >= 2
    ensures TwoDistinctDomains(srcs, domainOf)
  {
    var ds := DomainsOf(srcs, domainOf);
    DedupBelowTwo(ds);
    var a, b :| 0 <= a < |ds| && 0 <= b < |ds| && ds[a] != ds[b];
    DomainsOfMembers(srcs, domainOf, ds[a]);
    DomainsOfMembers(srcs, domainOf, ds[b]);
    var i :| 0 <= i < |srcs| && domainOf(srcs[i]) == ds[a];
    var j :| 0 <= j < |srcs| && domainOf(srcs[j]) == ds[b];
    assert domainOf(srcs[i]) != "" && domainOf(srcs[j]) != "" && domainOf(srcs[i]) != domainOf(srcs[j]);
  }

  /** Two sources with different non-empty domains leave two unique filtered
      domains. */
  lemma DedupFromDistinct(srcs: seq<JsValue>, domainOf: JsValue -> string)
    requires TwoDistinctDomains(srcs, domainOf)
    ensures |Dedup(DomainsOf(srcs, domainOf))| >= 2
  {
    var ds := DomainsOf(srcs, domainOf);
    var i, j :| 0 <= i < |srcs| && 0 <= j < |srcs| &&
      domainOf(srcs[i]) != "" && domainOf(srcs[j]) != "" && domainOf(srcs[i]) != domainOf(srcs[j]);
    DomainsOfMembers(srcs, domainOf, domainOf(srcs[i]));
    DomainsOfMembers(srcs, domainOf, domainOf(srcs[j]));
    var a :| 0 <= a < |ds| && ds[a] == domainOf(srcs[i]);
    var b :| 0 <= b < |ds| && ds[b] == domainOf(srcs[j]);
    DedupBelowTwo(ds);
    assert ds[a] != ds[b];
  }

  /** A preview object is corroborated exactly when two of its sources yield
      different non-empty domains. */
  lemma CorroboratedIff(p: JsValue, domainOf: JsValue -> string)
    requires p.Obj?
    ensures Corroborated(Diagnose(p, domainOf)) <==> TwoDistinctDomains(SourcesOf(p), domainOf)
  {
    assert Truthy(p) && IsObjectType(p);
    assert Diagnose(p, domainOf).unique == Dedup(DomainsOf(SourcesOf(p), domainOf));
    if Corroborated(Diagnose(p, domainOf)) {
      DistinctFromDedup(SourcesOf(p), domainOf);
    }
    if TwoDistinctDomains(SourcesOf(p), domainOf) {
      DedupFromDistinct(SourcesOf(p), domainOf);
    }
  }

  /** The validator's verdict and the diagnostics it pushed. */
  datatype Validation = Validation(invalid: bool, diagnostics: seq<Diagnostic>)

  /** The diagnostics of every preview, in order. */
  function DiagnoseAll(ps: seq<JsValue>, domainOf: JsValue -> string): (ds: seq<Diagnostic>)
    ensures |ds| == |ps|
  {
    if ps == [] then [] else [Diagnose(ps[0], domainOf)] + DiagnoseAll(ps[1..], domainOf)
  }

  lemma {:induction false} DiagnoseAllAt(ps: seq<JsValue>, domainOf: JsValue -> string, i: nat)
    requires i < |ps|
    ensures DiagnoseAll(ps, domainOf)[i] == Diagnose(ps[i], domainOf)
  {
    if i > 0 {
      DiagnoseAllAt(ps[1..], domainOf, i - 1);
    }
  }

  /** The short-circuiting scan of `some`: diagnostics are pushed in order and the
      scan stops at, and includes, the first one that is not corroborated. */
  function Scan(ds: seq<Diagnostic>): Validation {
    if ds == [] then Validation(false, [])
    else if !Corroborated(ds[0]) then Validation(true, [ds[0]])
    else
      var rest := Scan(ds[1..]);
      Validation(rest.invalid, [ds[0]] + rest.diagnostics)
  }

  /** The validator as a function of the previews. */
  function Validate(ps: seq<JsValue>, domainOf: JsValue -> string): Validation {
    Scan(DiagnoseAll(ps, domainOf))
  }

  /** What a short-circuiting scan promises about its verdict and diagnostics. */
  ghost predicate IsScanOf(ds: seq<Diagnostic>, v: Validation) {
    && |v.diagnostics| <= |ds|
    && v.diagnostics == ds[..|v.diagnostics|]
    && (v.invalid <==> exists i :: 0 <= i < |ds| && !Corroborated(ds[i]))
    && (v.invalid ==> v.diagnostics != [] && !Corroborated(v.diagnostics[|v.diagnostics| - 1])
                      && forall i :: 0 <= i < |v.diagnostics| - 1 ==> Corroborated(v.diagnostics[i]))
    && (!v.invalid ==> |v.diagnostics| == |ds|)
  }

  /** The verdict is "invalid" exactly when some diagnostic is not corroborated,
      and the pushed diagnostics run up to and including the first failing one. */
  lemma {:induction false} ScanMeaning(ds: seq<Diagnostic>)
    ensures IsScanOf(ds, Scan(ds))
  {
    if ds != [] && Corroborated(ds[0]) {
      ScanMeaning(ds[1..]);
      var rest := Scan(ds[1..]);
      var v := Scan(ds);
      assert v.diagnostics == [ds[0]] + ds[1..][..|rest.diagnostics|];
      assert v.diagnostics == ds[..|v.diagnostics|];
      if exists i :: 0 <= i < |ds| && !Corroborated(ds[i]) {
        var i :| 0 <= i < |ds| && !Corroborated(ds[i]);
        assert ds[1..][i - 1] == ds[i];
      }
      if rest.invalid {
        forall i | 0 <= i < |v.diagnostics| - 1 ensures Corroborated(v.diagnostics[i]) {
          if i > 0 { assert v.diagnostics[i] == rest.diagnostics[i - 1]; }
        }
      }
    }
  }

  /** Whether `v` is what a scan of the previews' own diagnostics promises. */
  ghost predicate IsPreviewScan(ps: seq<JsValue>, domainOf: JsValue -> string, v: Validation) {
    && (v.invalid <==> exists i :: 0 <= i < |ps| && !Corroborated(Diagnose(ps[i], domainOf)))
    && |v.diagnostics| <= |ps|
    && (forall i :: 0 <= i < |v.diagnostics| ==> v.diagnostics[i] == Diagnose(ps[i], domainOf))
    && (v.invalid ==> v.diagnostics != [] && !Corroborated(v.diagnostics[|v.diagnostics| - 1])
                      && forall i :: 0 <= i < |v.diagnostics| - 1 ==> Corroborated(v.diagnostics[i]))
    && (!v.invalid ==> |v.diagnostics| == |ps|)
  }

  lemma PreviewScanIsScan(ps: seq<JsValue>, domainOf: JsValue -> string, v: Validation)
    ensures IsPreviewScan(ps, domainOf, v) <==> IsScanOf(DiagnoseAll(ps, domainOf), v)
  {
    var ds := DiagnoseAll(ps, domainOf);
    forall i | 0 <= i < |ps| ensures ds[i] == Diagnose(ps[i], domainOf) {
      DiagnoseAllAt(ps, domainOf, i);
    }
    if |v.diagnostics| <= |ps| {
      assert (forall i :: 0 <= i < |v.diagnostics| ==> v.diagnostics[i] == Diagnose(ps[i], domainOf))
         <==> v.diagnostics == ds[..|v.diagnostics|];
    }
  }

  /** In terms of the previews: the verdict is "invalid" exactly when some
      preview is not corroborated; the diagnostics are those of the previews up
      to and including the first failing one, or of all previews. */
  lemma ValidateMeaning(ps: seq<JsValue>, domainOf: JsValue -> string)
    ensures var v := Validate(ps, domainOf);
            && (v.invalid <==> exists i :: 0 <= i < |ps| && !Corroborated(Diagnose(ps[i], domainOf)))
            && |v.diagnostics| <= |ps|
            && (forall i :: 0 <= i < |v.diagnostics| ==> v.diagnostics[i] == Diagnose(ps[i], domainOf))
            && (v.invalid ==> v.diagnostics != [] && !Corroborated(v.diagnostics[|v.diagnostics| - 1])
                              && forall i :: 0 <= i < |v.diagnostics| - 1 ==> Corroborated(v.diagnostics[i]))
            && (!v.invalid ==> |v.diagnostics| == |ps|)
  {
    ScanMeaning(DiagnoseAll(ps, domainOf));
    PreviewScanIsScan(ps, domainOf, Validate(ps, domainOf));
  }

  /** The verdict once the diagnostics `done`, all corroborated, have been
      pushed and the scan goes on over the previews `rest`. */
  function Resume(done: seq<Diagnostic>, rest: seq<JsValue>, domainOf: JsValue -> string): Validation {
    var v := Scan(DiagnoseAll(rest, domainOf));
    Validation(v.invalid, done + v.diagnostics)
  }

  /** One step of the scan: a failing preview ends it, a corroborated one moves
      its diagnostic to those pushed. */
  lemma ResumeStep(done: seq<Diagnostic>, ps: seq<JsValue>, i: nat, domainOf: JsValue -> string)
    requires i < |ps|
    ensures var d := Diagnose(ps[i], domainOf);
            Resume(done, ps[i..], domainOf)
              == if !Corroborated(d) then Validation(true, done + [d])
                 else Resume(done + [d], ps[i + 1..], domainOf)
  {
    assert ps[i..][0] == ps[i] && ps[i..][1..] == ps[i + 1..];
    var d := Diagnose(ps[i], domainOf);
    var v := Scan(DiagnoseAll(ps[i + 1..], domainOf));
    assert done + ([d] + v.diagnostics) == (done + [d]) + v.diagnostics;
  }

  /** `validateParsed` / the `parsedPreviews.some(...)` block: diagnostics are
      pushed while `some` scans, so they stop at the first failing preview. */
  method ValidateParsed(ps: seq<JsValue>, domainOf: JsValue -> string)
    returns (invalid: bool, diagnostics: seq<Diagnostic>)
    ensures Validation(invalid, diagnostics) == Validate(ps, domainOf)
  {
    invalid := false;
    diagnostics := [];
    var i := 0;
    assert ps[0..] == ps;
    assert Resume([], ps, domainOf) == Validate(ps, domainOf);
    while i < |ps| && !invalid
      invariant 0 <= i <= |ps|
      invariant !invalid ==> Validate(ps, domainOf) == Resume(diagnostics, ps[i..], domainOf)
      invariant invalid ==> Validate(ps, domainOf) == Validation(true, diagnostics)
    {
      var d := Diagnose(ps[i], domainOf);
      ResumeStep(diagnostics, ps, i, domainOf);
      diagnostics := diagnostics + [d];
      invalid := |d.unique| < 2;
      i := i + 1;
    }
    if !invalid {
      assert ps[i..] == [];
      assert diagnostics + [] == diagnostics;
    }
  }
}
