/** The cleanup route (app/api/coding/cleanup/route.ts): `POST
    /api/coding/cleanup` reads a list of file ids, from a JSON body or from
    the raw text a beacon sends, deletes each file in turn and answers with
    the ids whose deletion succeeded. The body, `JSON.parse` and the delete
    calls are inputs. */
module CodingCleanup {
  import opened Wrappers
  import opened Strings
  import opened Js

  /** `DELETE /v1/files/:id`: the fetch throws, or the reply's `ok`. */
  datatype Deletion = DeleteThrew | Deleted(ok: bool)

  /** What the route reads: the content-type header, the body text (`None`
      when reading it throws, with `readError`), `JSON.parse` (`None` is a
      SyntaxError with `parseError`), the outcome of the `k`th delete call,
      and the message of a TypeError the route itself raises. */
  datatype Request = Request(contentType: Option<string>, text: Option<string>, readError: string,
                             parse: string -> Option<JsValue>, parseError: string,
                             delete: nat -> Deletion, typeError: string)

  datatype Reply = Reply(status: nat, body: JsValue)

  /** A step that gives a value or throws an error with that message. */
  datatype Step = Value(value: JsValue) | Thrown(message: string)

  /** The parsed body, or the message of what was thrown: a JSON request
      must parse, while any other body that is empty or does not parse
      reads as `{}`. */
  function Body(req: Request): (r: Step)
    ensures !Contains(req.contentType.GetOr(""), "application/json") && req.text.Some? ==> r.Value?
    ensures !Contains(req.contentType.GetOr(""), "application/json") && req.text == Some("") ==> r == Value(Obj([]))
  {
    match req.text
    case None => Thrown(req.readError)
    case Some(txt) =>
      if Contains(req.contentType.GetOr(""), "application/json") then
        match req.parse(txt) case Some(v) => Value(v) case None => Thrown(req.parseError)
      else if txt == "" then Value(Obj([]))
      else match req.parse(txt) case Some(v) => Value(v) case None => Value(Obj([]))
  }

  /** `const { fileIds } = body`: destructuring `null` or `undefined` throws. */
  function FileIds(body: JsValue): Option<JsValue> {
    if IsNullish(body) then None
    else if body.Obj? then Some(Lookup(body.props, "fileIds"))
    else Some(Undefined)
  }

  /** `!fileIds || !fileIds.length`: nothing to delete. */
  predicate NothingToDelete(fileIds: JsValue) {
    || !Truthy(fileIds)
    || match fileIds
       case Arr(items) => items == []
       case Str(s) => s == ""
       case Obj(ps) => !Truthy(Lookup(ps, "length"))
       case _ => true
  }

  /** What `for (const id of fileIds)` visits: the elements of an array, the
      characters of a string; `None` is the TypeError of iterating anything
      else. */
  function Iterated(fileIds: JsValue): Option<seq<JsValue>> {
    match fileIds
    case Arr(items) => Some(items)
    case Str(s) => Some(seq(|s|, k requires 0 <= k < |s| => Str([s[k]])))
    case _ => None
  }

  /** The ids the loop records: those whose delete call replied ok, in the
      order of `ids`; a thrown call or a failed reply is only logged. */
  function DeletedIds(ids: seq<JsValue>, delete: nat -> Deletion): (r: seq<JsValue>)
    ensures |r| <= |ids|
  {
    if ids == [] then []
    else
      var n := |ids| - 1;
      DeletedIds(ids[..n], delete) + (if delete(n) == Deleted(true) then [ids[n]] else [])
  }

  function OkReply(deleted: seq<JsValue>): (r: Reply)
    ensures r.status == 200 && r.body.Obj?
    ensures Lookup(r.body.props, "status") == Str("ok") && Lookup(r.body.props, "deleted") == Arr(deleted)
  {
    var ps := [("status", Str("ok")), ("deleted", Arr(deleted))];
    assert ps[0].0[0] != "deleted"[0];
    LookupAt(ps, "deleted", 1);
    Reply(200, Obj(ps))
  }

  /** The 500 reply: `err?.message || String(err)` is the message given. */
  function ErrorReply(message: string): (r: Reply)
    ensures r.status == 500 && r.body.Obj?
    ensures Lookup(r.body.props, "status") == Str("error") && Lookup(r.body.props, "message") == Str(message)
  {
    var ps := [("status", Str("error")), ("message", Str(message))];
    assert ps[0].0[0] != "message"[0];
    LookupAt(ps, "message", 1);
    Reply(500, Obj(ps))
  }

  /** The whole request. */
  function Cleanup(req: Request): Reply {
    match Body(req)
    case Thrown(m) => ErrorReply(m)
    case Value(body) =>
      match FileIds(body)
      case None => ErrorReply(req.typeError)
      case Some(fileIds) =>
        if NothingToDelete(fileIds) then OkReply([])
        else match Iterated(fileIds)
          case None => ErrorReply(req.typeError)
          case Some(ids) => OkReply(DeletedIds(ids, req.delete))
  }

  /** `POST /api/coding/cleanup`. */
  method HandleCleanup(req: Request) returns (reply: Reply)
    ensures reply == Cleanup(req)
  {
    var body := Body(req);
    if body.Thrown? {
      reply := ErrorReply(body.message);
      return;
    }
    var fileIds := FileIds(body.value);
    if fileIds.None? {
      reply := ErrorReply(req.typeError);
      return;
    }
    if NothingToDelete(fileIds.value) {
      reply := OkReply([]);
      return;
    }
    var ids := Iterated(fileIds.value);
    if ids.None? {
      reply := ErrorReply(req.typeError);
      return;
    }
    var deleted: seq<JsValue> := [];
    var k := 0;
    while k < |ids.value|
      invariant 0 <= k <= |ids.value|
      invariant deleted == DeletedIds(ids.value[..k], req.delete)
    {
      assert ids.value[..k + 1][..k] == ids.value[..k];
      var res := req.delete(k);
      if res == Deleted(true) {
        deleted := deleted + [ids.value[k]];
      }
      k := k + 1;
    }
    assert ids.value[..k] == ids.value;
    reply := OkReply(deleted);
  }

  /** `a` is `b` with some elements left out, the rest kept in order. */
  predicate IsSubsequence(a: seq<JsValue>, b: seq<JsValue>)
    decreases |b|
  {
    if a == [] then true
    else if b == [] then false
    else if a[|a| - 1] == b[|b| - 1] then IsSubsequence(a[..|a| - 1], b[..|b| - 1])
    else IsSubsequence(a, b[..|b| - 1])
  }

  /** The deleted ids are an ordered subsequence of the ids asked for. */
  lemma {:induction false} DeletedIsSubsequence(ids: seq<JsValue>, delete: nat -> Deletion)
    ensures IsSubsequence(DeletedIds(ids, delete), ids)
  {
    if ids != [] {
      var n := |ids| - 1;
      var d := DeletedIds(ids[..n], delete);
      DeletedIsSubsequence(ids[..n], delete);
      if delete(n) == Deleted(true) {
        var r := d + [ids[n]];
        assert r[..|r| - 1] == d;
      } else {
        assert d + [] == d;
        if d != [] && d[|d| - 1] == ids[n] {
          DropLastKeepsSubsequence(d, ids[..n]);
        }
      }
    }
  }

  /** A subsequence with its last element dropped is still one. */
  lemma {:induction false} DropLastKeepsSubsequence(a: seq<JsValue>, b: seq<JsValue>)
    requires a != [] && IsSubsequence(a, b)
    ensures IsSubsequence(a[..|a| - 1], b)
    decreases |b|, 0
  {
    if b != [] {
      if a[|a| - 1] == b[|b| - 1] {
        ExtendKeepsSubsequence(a[..|a| - 1], b[..|b| - 1], b[|b| - 1]);
        assert b[..|b| - 1] + [b[|b| - 1]] == b;
      } else {
        DropLastKeepsSubsequence(a, b[..|b| - 1]);
        ExtendKeepsSubsequence(a[..|a| - 1], b[..|b| - 1], b[|b| - 1]);
        assert b[..|b| - 1] + [b[|b| - 1]] == b;
      }
    }
  }

  /** Adding an element at the end of `b` keeps `a` a subsequence. */
  lemma {:induction false} ExtendKeepsSubsequence(a: seq<JsValue>, b: seq<JsValue>, x: JsValue)
    requires IsSubsequence(a, b)
    ensures IsSubsequence(a, b + [x])
    decreases |b|, 1
  {
    var b' := b + [x];
    assert b'[..|b'| - 1] == b;
    if a != [] && a[|a| - 1] == x {
      DropLastKeepsSubsequence(a, b);
    }
  }

  /** When every call succeeds, every id is reported deleted. */
  lemma {:induction false} AllDeleted(ids: seq<JsValue>, delete: nat -> Deletion)
    requires forall k :: 0 <= k < |ids| ==> delete(k) == Deleted(true)
    ensures DeletedIds(ids, delete) == ids
  {
    if ids != [] {
      var n := |ids| - 1;
      AllDeleted(ids[..n], delete);
      assert ids[..n] + [ids[n]] == ids;
    }
  }

  /** When no call succeeds, nothing is reported deleted, and the reply is
      still 'ok'. */
  lemma {:induction false} NoneDeleted(ids: seq<JsValue>, delete: nat -> Deletion)
    requires forall k :: 0 <= k < |ids| ==> delete(k) != Deleted(true)
    ensures DeletedIds(ids, delete) == []
  {
    if ids != [] {
      NoneDeleted(ids[..|ids| - 1], delete);
    }
  }

  /** The replies: 'ok' with the ordered subsequence of the ids whose
      deletion succeeded (none when there is nothing to delete), or 500 with
      the message of what was thrown. */
  lemma CleanupReplies(req: Request)
    ensures var r := Cleanup(req);
            && (r.status == 200 || r.status == 500)
            && (r.status == 200 ==> Lookup(r.body.props, "status") == Str("ok"))
            && (r.status == 500 ==> Lookup(r.body.props, "status") == Str("error"))
    ensures Body(req).Value? && FileIds(Body(req).value).Some? && Iterated(FileIds(Body(req).value).value).Some? ==>
              var ids := Iterated(FileIds(Body(req).value).value).value;
              var r := Cleanup(req);
              r.status == 200 && exists d :: Lookup(r.body.props, "deleted") == Arr(d) && IsSubsequence(d, ids)
  {
    if Body(req).Value? && FileIds(Body(req).value).Some? && Iterated(FileIds(Body(req).value).value).Some? {
      var ids := Iterated(FileIds(Body(req).value).value).value;
      if NothingToDelete(FileIds(Body(req).value).value) {
        assert IsSubsequence([], ids);
      } else {
        DeletedIsSubsequence(ids, req.delete);
      }
    }
  }

  /** A beacon body that is empty, or text that does not parse, asks for
      nothing to be deleted. */
  lemma UnreadableBeaconDeletesNothing(req: Request)
    requires !Contains(req.contentType.GetOr(""), "application/json") && req.text.Some?
    requires req.text.value == "" || req.parse(req.text.value).None?
    ensures Cleanup(req) == OkReply([])
  {
    assert "fileIds"[0] == 'f';
  }
}
