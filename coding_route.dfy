/** The coding route (app/api/coding/route.ts): `POST /api/coding` takes a
    multipart form, picks or creates a container, uploads the files sent,
    asks the model with a content list, and replies with the upload ids and
    the container id, also when it fails. The header, the form, the
    container service, `JSON.parse`, the uploads and the model are inputs. */
module CodingRoute {
  import opened Wrappers
  import opened Strings
  import opened Js
  import opened CodingCitations

  const MULTIPART := "multipart/form-data"
  const CONTENT_TYPE_ERROR := "Content type differs from multipart/form-data."

  /** A form field: absent (`null`), a string, or a `File` with its name. */
  datatype FormValue = Missing | Text(s: string) | File(name: string)

  /** The fields the route reads; `uploaded` is `getAll('uploaded')`. */
  datatype Form = Form(input: FormValue, containerId: FormValue, existingFileIds: FormValue, uploaded: seq<FormValue>)

  /** One upload to the files endpoint: the fetch or `uploadRes.json()`
      throws, or the reply's `ok` and parsed body. */
  datatype Upload = UploadThrew | UploadReplied(ok: bool, json: JsValue)

  /** An upstream call that returns a value or throws an error whose
      `message` is given. */
  datatype Outcome = Returned(value: JsValue) | Raised(message: string)

  /** `{ type: 'input_text', text }` and `{ type: 'input_file', file_id }`. */
  datatype ContentItem = InputText(text: FormValue) | InputFile(fileId: JsValue)

  /** What the route does not compute itself. `upload(k)` is the outcome of
      uploading entry `k` of `uploaded`; `container` is the id of the
      created container; `respond` is the model call on the content list.
      The route raises two TypeErrors of its own: `existingIdsError` when the
      parsed `existingFileIds` has no `length` or cannot be mapped, and
      `statusError` when the model call returns nothing and `resp.status`
      is read. */
  datatype Env = Env(contentType: Option<string>, form: Option<Form>, formError: string, container: Outcome,
                     parse: string -> Option<JsValue>, upload: nat -> Upload,
                     respond: seq<ContentItem> -> Outcome, existingIdsError: string, statusError: string)

  datatype Reply = Reply(status: nat, body: JsValue)

  /** `typeof provided === 'string' && provided`: a non-empty string is
      kept; otherwise the falsy value of the expression, '' or `false`. */
  function ProvidedContainer(provided: FormValue): (r: JsValue)
    ensures Truthy(r) <==> provided.Text? && provided.s != ""
    ensures Truthy(r) ==> r == Str(provided.s)
  {
    if provided.Text? then Str(provided.s) else Bool(false)
  }

  /** `JSON.parse(existing)` with `[]` for a throw. `JSON.parse(null)` reads
      the text "null" and gives `null`; a `File` reads as
      "[object File]", which does not parse. */
  function ExistingIds(existing: FormValue, parse: string -> Option<JsValue>): (r: JsValue)
    ensures existing.Missing? ==> r == Null
    ensures existing.File? ==> r == Arr([])
    ensures existing.Text? && parse(existing.s).None? ==> r == Arr([])
  {
    match existing
    case Missing => Null
    case File(_) => Arr([])
    case Text(s) => match parse(s) case Some(v) => v case None => Arr([])
  }

  /** The id one entry of the upload loop records: only a `File` whose
      upload replied ok with a truthy `id` records it (a `null` body
      throws reading `id`, which the loop catches). */
  function UploadedId(entry: FormValue, outcome: Upload): (r: seq<JsValue>)
    ensures |r| <= 1
    ensures r != [] <==> entry.File? && outcome.UploadReplied? && outcome.ok && Truthy(OptGet(outcome.json, "id"))
    ensures r != [] ==> r == [OptGet(outcome.json, "id")]
  {
    if entry.File? && outcome.UploadReplied? && outcome.ok && Truthy(OptGet(outcome.json, "id"))
    then [OptGet(outcome.json, "id")] else []
  }

  /** The ids `uploadedToContainer` holds after the loop over `entries`. */
  function UploadIds(entries: seq<FormValue>, upload: nat -> Upload): (r: seq<JsValue>)
    ensures |r| <= |entries|
    ensures forall k :: 0 <= k < |r| ==> Truthy(r[k])
  {
    if entries == [] then []
    else
      var n := |entries| - 1;
      UploadIds(entries[..n], upload) + UploadedId(entries[n], upload(n))
  }

  /** Every entry that is not a `File` or whose upload fails adds nothing;
      with every upload succeeding, the ids are those of the files, in order. */
  lemma {:induction false} UploadIdsAllSucceed(entries: seq<FormValue>, upload: nat -> Upload, ids: nat -> JsValue)
    requires forall k :: 0 <= k < |entries| ==> entries[k].File?
    requires forall k :: 0 <= k < |entries| ==> upload(k) == UploadReplied(true, Obj([("id", ids(k))])) && Truthy(ids(k))
    ensures UploadIds(entries, upload) == seq(|entries|, k requires 0 <= k < |entries| => ids(k))
  {
    if entries != [] {
      var n := |entries| - 1;
      UploadIdsAllSucceed(entries[..n], upload, ids);
      assert OptGet(Obj([("id", ids(n))]), "id") == ids(n);
    }
  }

  /** The `length` a value reports: `None` is the TypeError of reading it
      on `null` or `undefined`. */
  function Length(v: JsValue): Option<JsValue> {
    match v
    case Undefined => None
    case Null => None
    case Arr(items) => Some(Num(|items|))
    case Str(s) => Some(Num(|s|))
    case Obj(ps) => Some(Lookup(ps, "length"))
    case _ => Some(Undefined)
  }

  /** The existing ids the content list gets: none when files were sent in
      this request (the `&&` stops before `existingFileIds.length`);
      otherwise, when the parsed value has a truthy length, its elements,
      which only an array can `map`. `None` is a TypeError. */
  function ExistingItems(sentCount: nat, existing: JsValue): (r: Option<seq<ContentItem>>)
    ensures sentCount > 0 ==> r == Some([])
    ensures sentCount == 0 && IsNullish(existing) ==> r.None?
    ensures sentCount == 0 && existing.Arr? ==>
              r == Some(seq(|existing.items|, k requires 0 <= k < |existing.items| => InputFile(existing.items[k])))
  {
    if sentCount > 0 then Some([])
    else if existing.Arr? then
      // an empty array has a falsy length and gives the same empty list
      Some(seq(|existing.items|, k requires 0 <= k < |existing.items| => InputFile(existing.items[k])))
    else match Length(existing)
      case None => None
      case Some(len) => if Truthy(len) then None else Some([])
  }

  /** The content list: the input text, then the reused ids, then the ids
      uploaded in this request, in order. */
  function ContentItems(input: FormValue, existing: seq<ContentItem>, uploaded: seq<JsValue>): (r: seq<ContentItem>)
    ensures |r| == 1 + |existing| + |uploaded|
    ensures r[0] == InputText(input)
    ensures r[1..1 + |existing|] == existing
    ensures forall k :: 0 <= k < |uploaded| ==> r[1 + |existing| + k] == InputFile(uploaded[k])
  {
    [InputText(input)] + existing + seq(|uploaded|, k requires 0 <= k < |uploaded| => InputFile(uploaded[k]))
  }

  /** `(formData.get('input') as string) ?? ''`. */
  function InputOrEmpty(input: FormValue): FormValue {
    if input.Missing? then Text("") else input
  }

  /** The 500 reply of the `catch`, with the ids collected so far and the
      container id as it stands (`?? undefined` turns `null` into `undefined`). */
  function ErrorReply(message: string, uploaded: seq<JsValue>, containerId: JsValue): (r: Reply)
    ensures r.status == 500 && r.body.Obj?
    ensures Lookup(r.body.props, "status") == Str("error")
    ensures Lookup(r.body.props, "error") == Str(message)
    ensures Lookup(r.body.props, "uploadedFileIds") == Arr(uploaded)
    ensures Lookup(r.body.props, "containerId") == (if containerId.Null? then Undefined else containerId)
  {
    var ps := [("status", Str("error")), ("error", Str(message)), ("uploadedFileIds", Arr(uploaded)),
               ("containerId", Coalesce(containerId, Undefined))];
    assert ps[0].0[0] == 's' && ps[1].0[0] == 'e' && ps[2].0[0] == 'u' && ps[3].0[0] == 'c';
    LookupAt(ps, "error", 1);
    LookupAt(ps, "uploadedFileIds", 2);
    LookupAt(ps, "containerId", 3);
    Reply(500, Obj(ps))
  }

  function OkReply(uploaded: seq<JsValue>, output: JsValue, containerId: JsValue): (r: Reply)
    ensures r.status == 200 && r.body.Obj?
    ensures Lookup(r.body.props, "status") == Str("ok")
    ensures Lookup(r.body.props, "uploadedFileIds") == Arr(uploaded)
    ensures Lookup(r.body.props, "output") == output
    ensures Lookup(r.body.props, "containerId") == containerId
  {
    var ps := [("status", Str("ok")), ("uploadedFileIds", Arr(uploaded)), ("output", output), ("containerId", containerId)];
    assert ps[0].0[0] == 's' && ps[1].0[0] == 'u' && ps[2].0[0] == 'o' && ps[3].0[0] == 'c';
    LookupAt(ps, "uploadedFileIds", 1);
    LookupAt(ps, "output", 2);
    LookupAt(ps, "containerId", 3);
    Reply(200, Obj(ps))
  }

  /** The reply and the citations logged by one request. */
  datatype Run = Run(reply: Reply, citations: seq<Citation>)

  /** The content type check: a missing header reads as ''. */
  predicate IsMultipart(contentType: Option<string>) {
    Contains(contentType.GetOr(""), MULTIPART)
  }

  /** The container id once the container step is done: the provided one,
      or the id of the created container. `None` is a failed creation. */
  function ContainerStep(form: Form, container: Outcome): (r: Option<JsValue>)
    ensures Truthy(ProvidedContainer(form.containerId)) ==> r == Some(ProvidedContainer(form.containerId))
    ensures !Truthy(ProvidedContainer(form.containerId)) ==>
              r == (if container.Returned? then Some(container.value) else None)
  {
    var provided := ProvidedContainer(form.containerId);
    if Truthy(provided) then Some(provided)
    else match container case Returned(id) => Some(id) case Raised(_) => None
  }

  /** The whole request, step by step, as the source runs it. */
  function Post(env: Env): Run {
    if !IsMultipart(env.contentType) then Run(ErrorReply(CONTENT_TYPE_ERROR, [], Undefined), [])
    else match env.form
    case None => Run(ErrorReply(env.formError, [], Undefined), [])
    case Some(form) =>
      var provided := ProvidedContainer(form.containerId);
      match ContainerStep(form, env.container)
      case None => Run(ErrorReply(env.container.message, [], provided), [])
      case Some(containerId) =>
        var existing := ExistingIds(form.existingFileIds, env.parse);
        var uploaded := UploadIds(form.uploaded, env.upload);
        match ExistingItems(|form.uploaded|, existing)
        case None => Run(ErrorReply(env.existingIdsError, uploaded, containerId), [])
        case Some(reused) =>
          match env.respond(ContentItems(InputOrEmpty(form.input), reused, uploaded))
          case Raised(m) => Run(ErrorReply(m, uploaded, containerId), [])
          case Returned(resp) =>
            if IsNullish(resp) then Run(ErrorReply(env.statusError, uploaded, containerId), [])
            else Run(OkReply(uploaded, OptGet(resp, "output_text"), containerId), Citations(resp))
  }

  /** The upload loop: each `File` entry is uploaded in turn and the id of
      each successful upload is pushed; failures are caught and skipped. */
  method UploadAll(sentByClient: seq<FormValue>, upload: nat -> Upload) returns (uploadedToContainer: seq<JsValue>)
    ensures uploadedToContainer == UploadIds(sentByClient, upload)
  {
    uploadedToContainer := [];
    var k := 0;
    while k < |sentByClient|
      invariant 0 <= k <= |sentByClient|
      invariant uploadedToContainer == UploadIds(sentByClient[..k], upload)
    {
      assert sentByClient[..k + 1][..k] == sentByClient[..k];
      var entry := sentByClient[k];
      if entry.File? {
        var outcome := upload(k);
        if outcome.UploadReplied? && outcome.ok && Truthy(OptGet(outcome.json, "id")) {
          uploadedToContainer := uploadedToContainer + [OptGet(outcome.json, "id")];
        }
      }
      k := k + 1;
    }
    assert sentByClient[..k] == sentByClient;
  }

  /** `POST /api/coding`: the upload loop records ids as `Post` says; the
      citation scan is the one of `ExtractCitations`. */
  method HandlePost(env: Env) returns (reply: Reply, citations: seq<Citation>)
    ensures Run(reply, citations) == Post(env)
  {
    var uploadedToContainer: seq<JsValue> := [];
    var containerId: JsValue := Undefined;
    citations := [];
    if !IsMultipart(env.contentType) {
      reply := ErrorReply(CONTENT_TYPE_ERROR, uploadedToContainer, containerId);
      return;
    }
    if env.form.None? {
      reply := ErrorReply(env.formError, uploadedToContainer, containerId);
      return;
    }
    var form := env.form.value;
    containerId := ProvidedContainer(form.containerId);
    if !Truthy(containerId) {
      if env.container.Raised? {
        reply := ErrorReply(env.container.message, uploadedToContainer, containerId);
        return;
      }
      containerId := env.container.value;
    }
    var existingFileIds := ExistingIds(form.existingFileIds, env.parse);
    var sentByClient := form.uploaded;
    uploadedToContainer := UploadAll(sentByClient, env.upload);
    var reused := ExistingItems(|sentByClient|, existingFileIds);
    if reused.None? {
      reply := ErrorReply(env.existingIdsError, uploadedToContainer, containerId);
      return;
    }
    var contentItems := ContentItems(InputOrEmpty(form.input), reused.value, uploadedToContainer);
    var resp := env.respond(contentItems);
    if resp.Raised? {
      reply := ErrorReply(resp.message, uploadedToContainer, containerId);
      return;
    }
    if IsNullish(resp.value) {
      reply := ErrorReply(env.statusError, uploadedToContainer, containerId);
      return;
    }
    citations := ExtractCitations(resp.value);
    reply := OkReply(uploadedToContainer, OptGet(resp.value, "output_text"), containerId);
  }

  /** Every reply is the 200 success or the 500 error, and only a success
      logs citations. */
  lemma PostStatuses(env: Env)
    ensures var r := Post(env).reply;
            && (r.status == 200 || r.status == 500)
            && r.body.Obj?
            && (r.status == 200 <==> Lookup(r.body.props, "status") == Str("ok"))
            && (r.status == 500 ==> Lookup(r.body.props, "error").Str? && Post(env).citations == [])
  {
  }

  /** A request that is not multipart fails before anything else: nothing
      uploaded and no container id. */
  lemma NotMultipartRejected(env: Env)
    requires !IsMultipart(env.contentType)
    ensures Post(env).reply == ErrorReply(CONTENT_TYPE_ERROR, [], Undefined)
  {
  }

  /** Without a usable container id, a failed creation reports the falsy
      value the check left behind, '' or `false`. */
  lemma ContainerCreationFails(env: Env)
    requires IsMultipart(env.contentType) && env.form.Some?
    requires !Truthy(ProvidedContainer(env.form.value.containerId)) && env.container.Raised?
    ensures var r := Post(env).reply;
            && r.status == 500
            && Lookup(r.body.props, "error") == Str(env.container.message)
            && Lookup(r.body.props, "uploadedFileIds") == Arr([])
            && Lookup(r.body.props, "containerId") in {Str(""), Bool(false)}
  {
  }

  /** Once the container is known, every reply, success or failure, carries
      the ids uploaded in this request and that container id. */
  lemma PostReportsProgress(env: Env)
    requires IsMultipart(env.contentType) && env.form.Some?
    requires ContainerStep(env.form.value, env.container).Some?
    ensures var r := Post(env).reply;
            var id := ContainerStep(env.form.value, env.container).value;
            && Lookup(r.body.props, "uploadedFileIds") == Arr(UploadIds(env.form.value.uploaded, env.upload))
            && Lookup(r.body.props, "containerId") == (if r.status == 500 && id.Null? then Undefined else id)
  {
  }

  /** A success answers with the model's `output_text` for the content list
      of the input, the reused ids and the fresh uploads, and logs the
      citations of that response. */
  lemma PostSucceeds(env: Env)
    requires Post(env).reply.status == 200
    ensures IsMultipart(env.contentType) && env.form.Some?
    ensures var form := env.form.value;
            var existing := ExistingIds(form.existingFileIds, env.parse);
            var uploaded := UploadIds(form.uploaded, env.upload);
            var reused := ExistingItems(|form.uploaded|, existing);
            && ContainerStep(form, env.container).Some?
            && reused.Some?
            && var resp := env.respond(ContentItems(InputOrEmpty(form.input), reused.value, uploaded));
               && resp.Returned? && !IsNullish(resp.value)
               && Lookup(Post(env).reply.body.props, "output") == OptGet(resp.value, "output_text")
               && Post(env).citations == Citations(resp.value)
  {
  }

  /** Files sent in this request replace the reused ids: the model sees the
      input and the fresh uploads only, whatever `existingFileIds` holds. */
  lemma FreshUploadsReplaceExisting(env: Env)
    requires IsMultipart(env.contentType) && env.form.Some? && |env.form.value.uploaded| > 0
    requires ContainerStep(env.form.value, env.container).Some?
    ensures var form := env.form.value;
            var existing := ExistingIds(form.existingFileIds, env.parse);
            ExistingItems(|form.uploaded|, existing) == Some([])
  {
  }

  /** Without files and without `existingFileIds`, `JSON.parse(null)` gives
      `null` and reading its length throws: the request fails before the
      model is asked. */
  lemma AbsentExistingFails(env: Env)
    requires IsMultipart(env.contentType) && env.form.Some?
    requires env.form.value.uploaded == [] && env.form.value.existingFileIds.Missing?
    requires ContainerStep(env.form.value, env.container).Some?
    ensures Post(env).reply == ErrorReply(env.existingIdsError, [], ContainerStep(env.form.value, env.container).value)
  {
  }
}
