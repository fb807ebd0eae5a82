/** The news page (app/pages/news-search/page.tsx): previews received from the
    chat are normalised, shown with a placeholder image, and each preview with
    an image prompt gets an image request; a later batch of previews starts a
    new generation, aborts the earlier requests, and an image that arrives for
    an older generation is dropped. */
module NewsPage {
  import opened Wrappers
  import opened Strings
  import opened Js
  import opened Messages

  const DATA_PREFIX := "data:"
  const PNG_PREFIX := "data:image/png;base64,"

  /** A shown preview; every field is a JavaScript value because the previews
      come from model output unchecked. */
  datatype Preview = Preview(title: JsValue, summary: JsValue, sources: JsValue, url: JsValue,
                             image: JsValue, imagePrompt: JsValue)

  /** The url of the first source: `p.sources?.[0]?.url`. */
  function FirstSourceUrl(p: JsValue): JsValue {
    OptGet(OptIndex(OptGet(p, "sources"), 0), "url")
  }

  /** `toPreview(p, i)`: `None` is the TypeError of reading a field of a
      nullish element. Every field gets a default; the url falls back to the
      first source's url and then to `preview-i`; the image starts empty; the
      image prompt falls back to the `image` field and then to ''. */
  function ToPreview(p: JsValue, i: nat): (r: Option<Preview>)
    ensures r.None? <==> IsNullish(p)
    ensures r.Some? ==>
              var q := r.value;
              && !IsNullish(q.title) && !IsNullish(q.summary) && !IsNullish(q.sources)
              && !IsNullish(q.url) && !IsNullish(q.imagePrompt) && q.image == Str("")
              && (!IsNullish(OptGet(p, "title")) ==> q.title == OptGet(p, "title"))
              && (!IsNullish(OptGet(p, "url")) ==> q.url == OptGet(p, "url"))
              && (IsNullish(OptGet(p, "url")) && !IsNullish(FirstSourceUrl(p)) ==> q.url == FirstSourceUrl(p))
              && (IsNullish(OptGet(p, "url")) && IsNullish(FirstSourceUrl(p)) ==> q.url == Str("preview-" + NatToString(i)))
              && (!IsNullish(OptGet(p, "imagePrompt")) ==> q.imagePrompt == OptGet(p, "imagePrompt"))
              && (IsNullish(OptGet(p, "imagePrompt")) && !IsNullish(OptGet(p, "image")) ==> q.imagePrompt == OptGet(p, "image"))
  {
    if IsNullish(p) then None
    else
      Some(Preview(Coalesce(OptGet(p, "title"), Str("")),
                   Coalesce(OptGet(p, "summary"), Str("")),
                   Coalesce(OptGet(p, "sources"), Arr([])),
                   Coalesce(OptGet(p, "url"), Coalesce(FirstSourceUrl(p), Str("preview-" + NatToString(i)))),
                   Str(""),
                   Coalesce(OptGet(p, "imagePrompt"), Coalesce(OptGet(p, "image"), Str("")))))
  }

  /** `newPreviews.map(toPreview)`: the first nullish element throws. */
  function MapPreviews(ps: seq<JsValue>): (r: Option<seq<Preview>>)
    ensures r.None? <==> exists i :: 0 <= i < |ps| && IsNullish(ps[i])
    ensures r.Some? ==> |r.value| == |ps| && forall i :: 0 <= i < |ps| ==> Some(r.value[i]) == ToPreview(ps[i], i)
  {
    if exists i :: 0 <= i < |ps| && IsNullish(ps[i]) then None
    else Some(seq(|ps|, i requires 0 <= i < |ps| => ToPreview(ps[i], i).value))
  }

  /** `imageSrc(v)`, the source the preview card shows: the placeholder for a
      falsy value, a data URL unchanged, a long string (over 50 characters)
      as base64 PNG data, anything else the placeholder. `None` is the throw
      of calling `startsWith` on a truthy value that is not a string. */
  function ImageSrc(v: JsValue): (r: Option<string>)
    ensures r.None? <==> Truthy(v) && !v.Str?
    ensures r.Some? ==> StartsWith(r.value, DATA_PREFIX) || r.value == PREVIEW_IMAGE
    ensures !Truthy(v) ==> r == Some(PREVIEW_IMAGE)
    ensures v.Str? && StartsWith(v.s, DATA_PREFIX) ==> r == Some(v.s)
    ensures v.Str? && !StartsWith(v.s, DATA_PREFIX) && |v.s| > 50 ==> r == Some(PNG_PREFIX + v.s)
  {
    if !Truthy(v) then Some(PREVIEW_IMAGE)
    else if !v.Str? then None
    else if StartsWith(v.s, DATA_PREFIX) then Some(v.s)
    else if |v.s| > 50 then
      assert (PNG_PREFIX + v.s)[..|DATA_PREFIX|] == DATA_PREFIX;
      Some(PNG_PREFIX + v.s)
    else Some(PREVIEW_IMAGE)
  }

  /** Showing a shown source again changes nothing. */
  lemma ImageSrcIdempotent(v: JsValue)
    requires ImageSrc(v).Some?
    ensures ImageSrc(Str(ImageSrc(v).value)) == ImageSrc(v)
  {
    var r := ImageSrc(v).value;
    if r == PREVIEW_IMAGE {
      FirstCharRulesOutPrefix(PREVIEW_IMAGE, DATA_PREFIX);
    }
  }

  /** The `setPreviews` updater of an arrived image: nothing changes when
      there are no previews, `idx` is out of range or the preview already has
      this image; otherwise only preview `idx` changes, and only its image. */
  function ImageUpdate(prev: Option<seq<Preview>>, idx: nat, image: JsValue): (r: Option<seq<Preview>>)
    ensures prev.None? || |prev.value| <= idx || prev.value[idx].image == image ==> r == prev
    ensures prev.Some? && idx < |prev.value| ==>
              && r.Some? && |r.value| == |prev.value| && r.value[idx].image == image
              && r.value[idx] == prev.value[idx].(image := image)
              && forall j :: 0 <= j < |prev.value| && j != idx ==> r.value[j] == prev.value[j]
  {
    if prev.None? || |prev.value| <= idx then prev
    else if prev.value[idx].image == image then prev
    else Some(prev.value[idx := prev.value[idx].(image := image)])
  }

  /** One `POST /api/gen-image` the page issues: the generation it belongs
      to, the preview index, the prompt sent and its AbortController. */
  datatype ImageRequest = ImageRequest(generation: nat, idx: nat, prompt: JsValue, controller: nat)

  /** The requests issued for a batch, in order: one per preview with a
      truthy image prompt, all of generation `gen`, controllers numbered
      from `base`. */
  function Issued(mapped: seq<Preview>, gen: nat, base: nat): (rs: seq<ImageRequest>)
    ensures |rs| <= |mapped|
    ensures forall k :: 0 <= k < |rs| ==> rs[k].generation == gen && rs[k].controller == base + k && rs[k].idx < |mapped|
  {
    if mapped == [] then []
    else
      var n := |mapped| - 1;
      var init := Issued(mapped[..n], gen, base);
      init + (if Truthy(mapped[n].imagePrompt) then [ImageRequest(gen, n, mapped[n].imagePrompt, base + |init|)] else [])
  }

  /** Each request is for a preview with a truthy image prompt and carries
      that prompt, and the requests go in index order. */
  predicate RequestsMatch(mapped: seq<Preview>, rs: seq<ImageRequest>) {
    && (forall k :: 0 <= k < |rs| ==> rs[k].idx < |mapped| && Truthy(mapped[rs[k].idx].imagePrompt) && rs[k].prompt == mapped[rs[k].idx].imagePrompt)
    && (forall k, m :: 0 <= k < m < |rs| ==> rs[k].idx < rs[m].idx)
  }

  /** The requests of a batch match its previews. */
  lemma {:induction false} IssuedSound(mapped: seq<Preview>, gen: nat, base: nat)
    ensures RequestsMatch(mapped, Issued(mapped, gen, base))
  {
    if mapped != [] {
      var n := |mapped| - 1;
      var init := mapped[..n];
      IssuedSound(init, gen, base);
      var ri := Issued(init, gen, base);
      var rs := Issued(mapped, gen, base);
      assert RequestsMatch(init, ri);
      assert forall k :: 0 <= k < |ri| ==> ri[k].idx < n && mapped[ri[k].idx] == init[ri[k].idx];
      assert RequestsMatch(mapped, ri);
      if Truthy(mapped[n].imagePrompt) {
        assert rs == ri + [ImageRequest(gen, n, mapped[n].imagePrompt, base + |ri|)];
      } else {
        assert rs == ri;
      }
    }
  }

  /** Every preview with a truthy image prompt gets a request. */
  lemma {:induction false} IssuedComplete(mapped: seq<Preview>, gen: nat, base: nat, i: nat)
    requires i < |mapped| && Truthy(mapped[i].imagePrompt)
    ensures exists k :: 0 <= k < |Issued(mapped, gen, base)| && Issued(mapped, gen, base)[k].idx == i
  {
    var n := |mapped| - 1;
    var init := mapped[..n];
    var ri := Issued(init, gen, base);
    var rs := Issued(mapped, gen, base);
    if i < n {
      assert init[i] == mapped[i];
      IssuedComplete(init, gen, base, i);
      var k :| 0 <= k < |ri| && ri[k].idx == i;
      assert rs[k] == ri[k];
    } else {
      assert rs[|ri|].idx == i;
    }
  }

  /** The controllers of some requests, in order. */
  function ControllersOf(rs: seq<ImageRequest>): seq<nat> {
    seq(|rs|, k requires 0 <= k < |rs| => rs[k].controller)
  }

  /** Looking at one more preview adds its request, if it gets one. */
  lemma IssuedStep(mapped: seq<Preview>, gen: nat, base: nat, idx: nat)
    requires idx < |mapped|
    ensures var init := Issued(mapped[..idx], gen, base);
            Issued(mapped[..idx + 1], gen, base) ==
              init + (if Truthy(mapped[idx].imagePrompt) then [ImageRequest(gen, idx, mapped[idx].imagePrompt, base + |init|)] else [])
  {
    assert mapped[..idx + 1][..idx] == mapped[..idx];
  }

  lemma ControllersSnoc(rs: seq<ImageRequest>, r: ImageRequest)
    ensures ControllersOf(rs + [r]) == ControllersOf(rs) + [r.controller]
  {
  }

  /** The `forEach` over the mapped previews: a request, with a new
      controller, for each preview with a truthy image prompt. */
  method IssueRequests(mapped: seq<Preview>, gen: nat, base: nat) returns (issued: seq<ImageRequest>)
    ensures issued == Issued(mapped, gen, base)
  {
    issued := [];
    var next := base;
    var idx := 0;
    assert mapped[..0] == [];
    while idx < |mapped|
      invariant 0 <= idx <= |mapped|
      invariant issued == Issued(mapped[..idx], gen, base)
      invariant next == base + |issued|
    {
      IssuedStep(mapped, gen, base, idx);
      if Truthy(mapped[idx].imagePrompt) {
        issued := issued + [ImageRequest(gen, idx, mapped[idx].imagePrompt, next)];
        next := next + 1;
      }
      idx := idx + 1;
    }
    assert mapped[..idx] == mapped;
  }

  /** The page's refs and state: the shown previews, the generation counter,
      the current AbortControllers (`None` before the first batch), the
      `abort()` calls made, the image requests issued and the next
      controller to hand out. */
  datatype PageState = PageState(previews: Option<seq<Preview>>, generation: nat, controllers: Option<seq<nat>>,
                                 aborted: seq<nat>, requests: seq<ImageRequest>, nextController: nat)

  /** Every issued request belongs to the current generation or an earlier
      one, and every controller was handed out. */
  predicate Valid(st: PageState) {
    && (forall k :: 0 <= k < |st.requests| ==>
          st.requests[k].generation <= st.generation && st.requests[k].controller < st.nextController)
    && (st.controllers.Some? ==> forall k :: 0 <= k < |st.controllers.value| ==> st.controllers.value[k] < st.nextController)
  }

  /** The previews a batch shows, or `None` when mapping it throws. */
  function Shown(newPreviews: Option<seq<JsValue>>): Option<Option<seq<Preview>>> {
    if newPreviews.None? then Some(None)
    else match MapPreviews(newPreviews.value)
      case None => None
      case Some(mapped) => Some(Some(mapped))
  }

  /** The controllers `abort()`ed when a batch arrives. */
  function Aborting(st: PageState): seq<nat> {
    if st.controllers.Some? then st.controllers.value else []
  }

  /** What every batch does first: a new generation, the current
      controllers aborted and the controller list emptied. */
  function Begun(st: PageState): (r: PageState)
    ensures r.generation == st.generation + 1 && r.aborted == st.aborted + Aborting(st) && r.controllers == Some([])
    ensures r.previews == st.previews && r.requests == st.requests && r.nextController == st.nextController
  {
    st.(generation := st.generation + 1, aborted := st.aborted + Aborting(st), controllers := Some([]))
  }

  /** A batch that maps: the previews shown, and one request, with a new
      controller, per preview with a truthy image prompt. */
  function Batch(st: PageState, shown: Option<seq<Preview>>): PageState {
    var b := Begun(st);
    var issued := if shown.Some? then Issued(shown.value, b.generation, st.nextController) else [];
    b.(previews := shown, controllers := Some(ControllersOf(issued)), requests := st.requests + issued,
       nextController := st.nextController + |issued|)
  }

  /** `handleNewsResults(newPreviews)` on the page's state, and whether it threw. */
  function AfterResults(st: PageState, newPreviews: Option<seq<JsValue>>): (PageState, bool) {
    match Shown(newPreviews)
    case None => (Begun(st), true)
    case Some(shown) => (Batch(st, shown), false)
  }

  /** A batch starts a new generation, aborts every earlier controller and
      keeps the earlier requests, which are now all of an older generation. */
  lemma AfterResultsKeepsHistory(st: PageState, newPreviews: Option<seq<JsValue>>)
    requires Valid(st)
    ensures var st' := AfterResults(st, newPreviews).0;
            && Valid(st')
            && st'.generation == st.generation + 1
            && st'.aborted == st.aborted + (if st.controllers.Some? then st.controllers.value else [])
            && |st'.requests| >= |st.requests| && st'.requests[..|st.requests|] == st.requests
            && (forall k :: 0 <= k < |st.requests| ==> st'.requests[k].generation < st'.generation)
  {
    var st' := AfterResults(st, newPreviews).0;
    var issued := st'.requests[|st.requests|..];
    assert st'.requests == st.requests + issued;
    assert forall k :: 0 <= k < |issued| ==> st'.requests[|st.requests| + k] == issued[k];
  }

  /** A batch throws exactly when one of its elements is nullish; it then
      leaves the previews and the requests as they were, with no controller
      current. */
  lemma AfterResultsThrows(st: PageState, newPreviews: Option<seq<JsValue>>)
    ensures var (st', threw) := AfterResults(st, newPreviews);
            && (threw <==> newPreviews.Some? && exists i :: 0 <= i < |newPreviews.value| && IsNullish(newPreviews.value[i]))
            && (threw ==> st'.previews == st.previews && st'.requests == st.requests && st'.controllers == Some([]))
  {
  }

  /** `null` clears the previews and issues nothing; a batch that maps shows
      its mapped previews and issues exactly their requests. */
  lemma AfterResultsShows(st: PageState, newPreviews: Option<seq<JsValue>>)
    ensures var (st', threw) := AfterResults(st, newPreviews);
            && (newPreviews.None? ==> !threw && st'.previews.None? && st'.requests == st.requests && st'.controllers == Some([]))
            && (newPreviews.Some? && !threw ==>
                  st'.previews == MapPreviews(newPreviews.value)
                  && st'.requests == st.requests + Issued(st'.previews.value, st'.generation, st.nextController)
                  && st'.controllers == Some(ControllersOf(Issued(st'.previews.value, st'.generation, st.nextController))))
  {
    assert ControllersOf([]) == [];
  }

  /** The body of `handleNewsResults` on the page's state: bump the
      generation, abort the current controllers, then show the mapped batch
      and issue its image requests. */
  method ResultsStep(st: PageState, newPreviews: Option<seq<JsValue>>) returns (st': PageState, threw: bool)
    ensures (st', threw) == AfterResults(st, newPreviews)
  {
    var b := st.(generation := st.generation + 1, aborted := st.aborted + Aborting(st), controllers := Some([]));
    if newPreviews.None? {
      st' := b.(previews := None);
      assert ControllersOf([]) == [] && st.requests + [] == st.requests;
      assert st' == Batch(st, None);
      return st', false;
    }
    var m := MapPreviews(newPreviews.value);
    if m.None? {
      return b, true;
    }
    var issued := IssueRequests(m.value, b.generation, st.nextController);
    st' := b.(previews := m, controllers := Some(ControllersOf(issued)), requests := st.requests + issued,
              nextController := st.nextController + |issued|);
    assert st' == Batch(st, m);
    return st', false;
  }

  /** The `.then` of one image request, resolved with `payload` (`null` for
      a non-ok response): the image is applied only when it is truthy and
      the request's generation is still current. */
  function AfterImage(st: PageState, req: ImageRequest, payload: JsValue): (r: PageState)
    ensures !Truthy(OptGet(payload, "image")) || st.generation != req.generation ==> r == st
    ensures r.generation == st.generation && r.requests == st.requests && r.controllers == st.controllers
    ensures Valid(st) ==> Valid(r)
    ensures st.previews.Some? ==>
              && r.previews.Some? && |r.previews.value| == |st.previews.value|
              && forall j :: 0 <= j < |st.previews.value| && j != req.idx ==> r.previews.value[j] == st.previews.value[j]
  {
    var image := OptGet(payload, "image");
    if !Truthy(image) || st.generation != req.generation then st
    else st.(previews := ImageUpdate(st.previews, req.idx, image))
  }

  /** Once a later batch has arrived, an image for any earlier request
      changes nothing. */
  lemma StaleImageDropped(st: PageState, newPreviews: Option<seq<JsValue>>, k: nat, payload: JsValue)
    requires Valid(st) && k < |st.requests|
    ensures var st' := AfterResults(st, newPreviews).0;
            AfterImage(st', st'.requests[k], payload) == st'
  {
    AfterResultsKeepsHistory(st, newPreviews);
  }

  class Page {
    var previews: Option<seq<Preview>>
    var generation: nat
    var controllers: Option<seq<nat>>
    var aborted: seq<nat>
    var requests: seq<ImageRequest>
    var nextController: nat

    function State(): PageState
      reads this
    {
      PageState(previews, generation, controllers, aborted, requests, nextController)
    }

    constructor ()
      ensures State() == PageState(None, 0, None, [], [], 0) && Valid(State())
    {
      previews := None;
      generation := 0;
      controllers := None;
      aborted := [];
      requests := [];
      nextController := 0;
    }

    /** `handleNewsResults(newPreviews)`: see `AfterResults` and the lemmas after it. */
    method HandleNewsResults(newPreviews: Option<seq<JsValue>>) returns (threw: bool)
      modifies this
      ensures (State(), threw) == AfterResults(old(State()), newPreviews)
    {
      var st;
      st, threw := ResultsStep(State(), newPreviews);
      previews, generation, controllers, aborted, requests, nextController :=
        st.previews, st.generation, st.controllers, st.aborted, st.requests, st.nextController;
    }

    /** The `.then` of one image request: see `AfterImage`. */
    method ImageArrived(req: ImageRequest, payload: JsValue)
      modifies this
      ensures State() == AfterImage(old(State()), req, payload)
    {
      var image := OptGet(payload, "image");
      if !Truthy(image) || generation != req.generation {
        return;
      }
      previews := ImageUpdate(previews, req.idx, image);
    }
  }
}
