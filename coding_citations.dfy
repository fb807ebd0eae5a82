/** The citation scan of the coding route (app/api/coding/route.ts): every
    `container_file_citation` annotation in the model's output, kept once
    per `container::file` key in the order met. A TypeError anywhere in the
    scan ends it, and the citations found so far are kept. */
module CodingCitations {
  import opened Wrappers
  import opened Strings
  import opened Js

  const FILE_CITATION := "container_file_citation"

  /** `{ file_id, container_id, ext }`. */
  datatype Citation = Citation(fileId: string, containerId: JsValue, ext: string)

  /** The scan's state: the `seen` keys, the citations pushed, and whether a
      throw has ended the scan. */
  datatype Scan = Scan(seen: set<string>, citations: seq<Citation>, threw: bool)

  const START := Scan({}, [], false)

  /** `${a.container_id || ''}::${a.file_id}`. */
  function Key(containerId: JsValue, fileId: string): string {
    ToJsString(Or(containerId, Str(""))) + "::" + fileId
  }

  function CitationKey(c: Citation): string {
    Key(c.containerId, c.fileId)
  }

  /** `filename?.split('.').pop() ?? 'txt'`: a nullish name gives 'txt', a
      string the text after its last '.', anything else has no `split` and
      throws (`None`). */
  function Ext(filename: JsValue): (r: Option<string>)
    ensures r.None? <==> !IsNullish(filename) && !filename.Str?
    ensures IsNullish(filename) ==> r == Some("txt")
    ensures filename.Str? ==> r.Some? && '.' !in r.value
    ensures filename.Str? && '.' !in filename.s ==> r == Some(filename.s)
  {
    if IsNullish(filename) then Some("txt")
    else if filename.Str? then
      var parts := Split(filename.s, '.');
      Some(parts[|parts| - 1])
    else None
  }

  /** Joining one more piece adds the separator and the piece. */
  lemma {:induction false} JoinSnoc(p: seq<string>, x: string, sep: string)
    requires p != []
    ensures Join(p + [x], sep) == Join(p, sep) + sep + x
  {
    if |p| > 1 {
      assert (p + [x])[1..] == p[1..] + [x];
      JoinSnoc(p[1..], x, sep);
    }
  }

  /** A file name with a '.' gets the text after its last '.' as extension:
      the name ends with '.' and the extension, which holds no '.'. */
  lemma ExtAfterLastDot(name: string)
    requires '.' in name
    ensures var ext := Ext(Str(name)).value;
            && |ext| < |name| && name[|name| - |ext| - 1] == '.' && name[|name| - |ext|..] == ext
  {
    var parts := Split(name, '.');
    var n := |parts| - 1;
    JoinSplit(name, '.');
    assert parts == parts[..n] + [parts[n]];
    JoinSnoc(parts[..n], parts[n], ".");
    var front := Join(parts[..n], ".");
    assert name == front + "." + parts[n];
  }

  /** The keys of some citations. */
  function KeysOf(cs: seq<Citation>): set<string> {
    set k | 0 <= k < |cs| :: CitationKey(cs[k])
  }

  lemma KeysOfSnoc(cs: seq<Citation>, c: Citation)
    ensures KeysOf(cs + [c]) == KeysOf(cs) + {CitationKey(c)}
  {
    var cs' := cs + [c];
    forall key | key in KeysOf(cs') ensures key in KeysOf(cs) + {CitationKey(c)} {
      var k :| 0 <= k < |cs'| && CitationKey(cs'[k]) == key;
      if k < |cs| {
        assert cs'[k] == cs[k];
      }
    }
    forall key | key in KeysOf(cs) ensures key in KeysOf(cs') {
      var k :| 0 <= k < |cs| && CitationKey(cs[k]) == key;
      assert cs'[k] == cs[k];
    }
    assert CitationKey(cs'[|cs|]) in KeysOf(cs');
  }

  /** What the scan keeps true: every citation has a non-empty file id and
      an extension without '.', no two citations share a key, every
      citation's key is in `seen`, and until a throw `seen` holds nothing else. */
  predicate Consistent(s: Scan) {
    && (forall k :: 0 <= k < |s.citations| ==> s.citations[k].fileId != "" && '.' !in s.citations[k].ext)
    && (forall i, j :: 0 <= i < j < |s.citations| ==> CitationKey(s.citations[i]) != CitationKey(s.citations[j]))
    && KeysOf(s.citations) <= s.seen
    && (!s.threw ==> s.seen == KeysOf(s.citations))
  }

  /** The annotations the scan cites: type `container_file_citation` and a
      non-empty string `file_id`. */
  predicate Cites(a: JsValue) {
    OptGet(a, "type") == Str(FILE_CITATION) && IsNonEmptyStr(OptGet(a, "file_id"))
  }

  function AnnotationKey(a: JsValue): string
    requires Cites(a)
  {
    Key(OptGet(a, "container_id"), OptGet(a, "file_id").s)
  }

  /** One annotation `a` of the inner loop. Annotations of another type, or
      without a non-empty string `file_id`, are skipped; a key not seen yet
      is added to `seen` and then its citation pushed, unless computing the
      extension throws in between. */
  function ScanAnnotation(s: Scan, a: JsValue): (r: Scan)
    requires !s.threw
    ensures !Cites(a) ==> r == s
    ensures Cites(a) && AnnotationKey(a) in s.seen ==> r == s
    ensures Cites(a) && AnnotationKey(a) !in s.seen ==>
              && r.seen == s.seen + {AnnotationKey(a)}
              && (r.threw <==> Ext(OptGet(a, "filename")).None?)
              && (!r.threw ==>
                    r.citations == s.citations + [Citation(OptGet(a, "file_id").s, OptGet(a, "container_id"), Ext(OptGet(a, "filename")).value)])
              && (r.threw ==> r.citations == s.citations)
    ensures Consistent(s) ==> Consistent(r)
  {
    if OptGet(a, "type") != Str(FILE_CITATION) then s
    else
      var fileId := OptGet(a, "file_id");
      if !Truthy(fileId) || !fileId.Str? then s
      else
        var containerId := OptGet(a, "container_id");
        var key := Key(containerId, fileId.s);
        if key in s.seen then s
        else match Ext(OptGet(a, "filename"))
          case None => Scan(s.seen + {key}, s.citations, true)
          case Some(ext) =>
            KeysOfSnoc(s.citations, Citation(fileId.s, containerId, ext));
            Scan(s.seen + {key}, s.citations + [Citation(fileId.s, containerId, ext)], false)
  }

  /** `for (const a of item.annotations)`, stopping at a throw. */
  function ScanAnnotations(s: Scan, anns: seq<JsValue>): Scan
    requires !s.threw
  {
    if anns == [] then s
    else
      var r := ScanAnnotations(s, anns[..|anns| - 1]);
      if r.threw then r else ScanAnnotation(r, anns[|anns| - 1])
  }

  /** One content item: a nullish item, or annotations that cannot be
      iterated (anything but an array or a string), throw; the characters of
      a string have no `type` and are all skipped. */
  function ScanItem(s: Scan, item: JsValue): Scan
    requires !s.threw
  {
    if IsNullish(item) then s.(threw := true)
    else
      var anns := OptGet(item, "annotations");
      if anns.Arr? then ScanAnnotations(s, anns.items)
      else if anns.Str? then s
      else s.(threw := true)
  }

  /** `for (const item of block.content)`, stopping at a throw. */
  function ScanItems(s: Scan, items: seq<JsValue>): Scan
    requires !s.threw
  {
    if items == [] then s
    else
      var r := ScanItems(s, items[..|items| - 1]);
      if r.threw then r else ScanItem(r, items[|items| - 1])
  }

  /** One output block: skipped unless `block?.content` is an array. */
  function ScanBlock(s: Scan, block: JsValue): Scan
    requires !s.threw
  {
    var content := OptGet(block, "content");
    if content.Arr? then ScanItems(s, content.items) else s
  }

  /** `for (const block of out)`, stopping at a throw. */
  function ScanBlocks(blocks: seq<JsValue>): Scan {
    if blocks == [] then START
    else
      var r := ScanBlocks(blocks[..|blocks| - 1]);
      if r.threw then r else ScanBlock(r, blocks[|blocks| - 1])
  }

  /** `Array.isArray(resp?.output) ? resp.output : [resp.output]`. */
  function OutputBlocks(resp: JsValue): seq<JsValue> {
    var output := OptGet(resp, "output");
    if output.Arr? then output.items else [output]
  }

  /** The citations of a response. */
  function Citations(resp: JsValue): seq<Citation> {
    ScanBlocks(OutputBlocks(resp)).citations
  }

  /** Every level of the scan keeps `Consistent` and only adds citations at the end. */
  lemma {:induction false} AnnotationsConsistent(s: Scan, anns: seq<JsValue>)
    requires !s.threw && Consistent(s)
    ensures var r := ScanAnnotations(s, anns);
            Consistent(r) && |r.citations| >= |s.citations| && r.citations[..|s.citations|] == s.citations
  {
    if anns != [] {
      var n := |anns| - 1;
      AnnotationsConsistent(s, anns[..n]);
      var r := ScanAnnotations(s, anns[..n]);
      if !r.threw {
        var r' := ScanAnnotation(r, anns[n]);
        assert r'.citations[..|s.citations|] == r.citations[..|s.citations|];
      }
    }
  }

  lemma ItemConsistent(s: Scan, item: JsValue)
    requires !s.threw && Consistent(s)
    ensures var r := ScanItem(s, item);
            Consistent(r) && |r.citations| >= |s.citations| && r.citations[..|s.citations|] == s.citations
  {
    var anns := OptGet(item, "annotations");
    if !IsNullish(item) && anns.Arr? {
      AnnotationsConsistent(s, anns.items);
    }
  }

  lemma {:induction false} ItemsConsistent(s: Scan, items: seq<JsValue>)
    requires !s.threw && Consistent(s)
    ensures var r := ScanItems(s, items);
            Consistent(r) && |r.citations| >= |s.citations| && r.citations[..|s.citations|] == s.citations
  {
    if items != [] {
      var n := |items| - 1;
      ItemsConsistent(s, items[..n]);
      var r := ScanItems(s, items[..n]);
      if !r.threw {
        ItemConsistent(r, items[n]);
        var r' := ScanItem(r, items[n]);
        assert r'.citations[..|s.citations|] == r.citations[..|s.citations|];
      }
    }
  }

  /** The whole scan ends `Consistent`: citations have distinct keys. */
  lemma {:induction false} BlocksConsistent(blocks: seq<JsValue>)
    ensures Consistent(ScanBlocks(blocks))
  {
    if blocks != [] {
      var n := |blocks| - 1;
      BlocksConsistent(blocks[..n]);
      var r := ScanBlocks(blocks[..n]);
      var content := OptGet(blocks[n], "content");
      if !r.threw && content.Arr? {
        ItemsConsistent(r, content.items);
      }
    }
  }

  /** The citations of a response have distinct `container::file` keys,
      non-empty file ids and extensions without '.'. */
  lemma CitationsDistinct(resp: JsValue)
    ensures var cs := Citations(resp);
            && (forall i, j :: 0 <= i < j < |cs| ==> CitationKey(cs[i]) != CitationKey(cs[j]))
            && (forall k :: 0 <= k < |cs| ==> cs[k].fileId != "" && '.' !in cs[k].ext)
  {
    BlocksConsistent(OutputBlocks(resp));
  }

  /** Once a scan has thrown, the rest of the sequence changes nothing. */
  lemma {:induction false} AnnotationsStay(s: Scan, anns: seq<JsValue>, j: nat)
    requires !s.threw && j <= |anns| && ScanAnnotations(s, anns[..j]).threw
    ensures ScanAnnotations(s, anns) == ScanAnnotations(s, anns[..j])
  {
    if j < |anns| {
      var n := |anns| - 1;
      assert anns[..n][..j] == anns[..j];
      AnnotationsStay(s, anns[..n], j);
      assert ScanAnnotations(s, anns) == ScanAnnotations(s, anns[..n]);
    } else {
      assert anns[..j] == anns;
    }
  }

  lemma {:induction false} ItemsStay(s: Scan, items: seq<JsValue>, i: nat)
    requires !s.threw && i <= |items| && ScanItems(s, items[..i]).threw
    ensures ScanItems(s, items) == ScanItems(s, items[..i])
  {
    if i < |items| {
      var n := |items| - 1;
      assert items[..n][..i] == items[..i];
      ItemsStay(s, items[..n], i);
      assert ScanItems(s, items) == ScanItems(s, items[..n]);
    } else {
      assert items[..i] == items;
    }
  }

  lemma {:induction false} BlocksStay(blocks: seq<JsValue>, b: nat)
    requires b <= |blocks| && ScanBlocks(blocks[..b]).threw
    ensures ScanBlocks(blocks) == ScanBlocks(blocks[..b])
  {
    if b < |blocks| {
      var n := |blocks| - 1;
      assert blocks[..n][..b] == blocks[..b];
      BlocksStay(blocks[..n], b);
      assert ScanBlocks(blocks) == ScanBlocks(blocks[..n]);
    } else {
      assert blocks[..b] == blocks;
    }
  }

  /** The inner loop over one item's annotations. */
  method ScanAnnotationsLoop(seen0: set<string>, citations0: seq<Citation>, anns: seq<JsValue>)
    returns (seen: set<string>, citations: seq<Citation>, threw: bool)
    ensures Scan(seen, citations, threw) == ScanAnnotations(Scan(seen0, citations0, false), anns)
  {
    ghost var s0 := Scan(seen0, citations0, false);
    seen, citations, threw := seen0, citations0, false;
    var j := 0;
    assert anns[..0] == [];
    while j < |anns| && !threw
      invariant 0 <= j <= |anns|
      invariant Scan(seen, citations, threw) == ScanAnnotations(s0, anns[..j])
    {
      assert anns[..j + 1][..j] == anns[..j];
      var a := anns[j];
      if OptGet(a, "type") == Str(FILE_CITATION) {
        var fileId := OptGet(a, "file_id");
        if Truthy(fileId) && fileId.Str? {
          var containerId := OptGet(a, "container_id");
          var key := Key(containerId, fileId.s);
          if key !in seen {
            seen := seen + {key};
            var ext := Ext(OptGet(a, "filename"));
            if ext.None? {
              threw := true;
            } else {
              citations := citations + [Citation(fileId.s, containerId, ext.value)];
            }
          }
        }
      }
      j := j + 1;
    }
    if threw {
      AnnotationsStay(s0, anns, j);
    } else {
      assert anns[..j] == anns;
    }
  }

  /** The citation loops of the route: `for (const block of out)`, then
      `for (const item of block.content)`, then the annotations of the item;
      a throw leaves the `try` with the citations found so far. */
  method ExtractCitations(resp: JsValue) returns (citations: seq<Citation>)
    ensures citations == Citations(resp)
  {
    var out := OutputBlocks(resp);
    var seen: set<string> := {};
    var threw := false;
    citations := [];
    var b := 0;
    assert out[..0] == [];
    while b < |out| && !threw
      invariant 0 <= b <= |out|
      invariant Scan(seen, citations, threw) == ScanBlocks(out[..b])
    {
      assert out[..b + 1][..b] == out[..b];
      var content := OptGet(out[b], "content");
      if content.Arr? {
        ghost var s1 := Scan(seen, citations, false);
        var items := content.items;
        var i := 0;
        assert items[..0] == [];
        while i < |items| && !threw
          invariant 0 <= i <= |items|
          invariant Scan(seen, citations, threw) == ScanItems(s1, items[..i])
        {
          assert items[..i + 1][..i] == items[..i];
          var item := items[i];
          if IsNullish(item) {
            threw := true;
          } else {
            var anns := OptGet(item, "annotations");
            if anns.Arr? {
              seen, citations, threw := ScanAnnotationsLoop(seen, citations, anns.items);
            } else if !anns.Str? {
              threw := true;
            }
          }
          i := i + 1;
        }
        if threw {
          ItemsStay(s1, items, i);
        } else {
          assert items[..i] == items;
        }
      }
      b := b + 1;
    }
    if threw {
      BlocksStay(out, b);
    } else {
      assert out[..b] == out;
    }
  }
}
