/** `convertFiles` (app/utils/convert-files.ts): text-like files become
    PDFs, every other file passes through, and an event announces that at
    least one file was converted. Whether a conversion throws is an input. */
module ConvertFiles {
  import opened Wrappers
  import opened Strings
  import opened TextToPdf

  /** A browser `File`: its name and its MIME type ('' when unknown). */
  datatype File = File(name: string, mime: string)

  const TEXT_EXTENSIONS := ["txt", "py", "md", "csv", "json", "log", "yaml", "yml"]

  /** ASCII letters folded to lower case, as the `i` flag compares them. */
  function FoldAscii(s: string): (r: string)
    ensures |r| == |s|
  {
    if s == [] then [] else [if 'A' <= s[0] <= 'Z' then (s[0] as int + 32) as char else s[0]] + FoldAscii(s[1..])
  }

  /** `/\.(txt|py|md|csv|json|log|yaml|yml)$/i.test(name)`. */
  predicate HasTextExtension(name: string) {
    EndsWithAny(name, TEXT_EXTENSIONS)
  }

  /** `name` ends with '.' and one of `exts`, letter case aside. */
  predicate EndsWithAny(name: string, exts: seq<string>) {
    exts != [] && (EndsWithExt(name, exts[0]) || EndsWithAny(name, exts[1..]))
  }

  predicate EndsWithExt(name: string, e: string) {
    |name| > |e| && FoldAscii(name[|name| - |e| - 1..]) == "." + e
  }

  /** `(f.type && f.type.startsWith('text/')) || extLike.test(f.name)`, with
      `extLike` the default list unless the caller passes its own test. */
  predicate IsText(f: File, textExtensions: Option<string -> bool>) {
    || (f.mime != "" && StartsWith(f.mime, "text/"))
    || (match textExtensions case Some(test) => test(f.name) case None => HasTextExtension(f.name))
  }

  /** The file `textFileToPdfFile` makes of `f`. */
  function AsPdf(f: File): (r: File)
    ensures r.mime == PDF_TYPE && r.name == PdfName(f.name)
  {
    File(PdfName(f.name), PDF_TYPE)
  }

  /** What becomes of one file: its PDF when it is text and converting it
      succeeds (`ok`), the file itself otherwise. */
  function Outcome(f: File, textExtensions: Option<string -> bool>, ok: bool): (r: File)
    ensures r == f || r == AsPdf(f)
    ensures !IsText(f, textExtensions) ==> r == f
  {
    if IsText(f, textExtensions) && ok then AsPdf(f) else f
  }

  /** The files `convertFiles` returns: each file's outcome, in order. */
  function ConvertAll(files: seq<File>, textExtensions: Option<string -> bool>, converts: nat -> bool): (r: seq<File>)
    ensures |r| == |files|
  {
    if files == [] then []
    else
      var n := |files| - 1;
      ConvertAll(files[..n], textExtensions, converts) + [Outcome(files[n], textExtensions, converts(n))]
  }

  /** Whether some text file converts. */
  predicate AnyConverts(files: seq<File>, textExtensions: Option<string -> bool>, converts: nat -> bool) {
    exists k :: 0 <= k < |files| && IsText(files[k], textExtensions) && converts(k)
  }

  /** Each file of the result is the outcome of the file at the same place. */
  lemma {:induction false} ConvertAllPointwise(files: seq<File>, textExtensions: Option<string -> bool>, converts: nat -> bool)
    ensures forall k :: 0 <= k < |files| ==>
              ConvertAll(files, textExtensions, converts)[k] == Outcome(files[k], textExtensions, converts(k))
  {
    if files != [] {
      var n := |files| - 1;
      ConvertAllPointwise(files[..n], textExtensions, converts);
      var r := ConvertAll(files, textExtensions, converts);
      assert forall k :: 0 <= k < n ==> r[k] == ConvertAll(files[..n], textExtensions, converts)[k];
    }
  }

  /** The file list out of `files` and whether the event is dispatched;
      `converts(k)` says whether converting `files[k]` succeeds. */
  method Convert(files: seq<File>, textExtensions: Option<string -> bool>, converts: nat -> bool)
    returns (converted: seq<File>, anyConverted: bool)
    ensures converted == ConvertAll(files, textExtensions, converts)
    ensures anyConverted <==> AnyConverts(files, textExtensions, converts)
  {
    converted := [];
    anyConverted := false;
    var k := 0;
    while k < |files|
      invariant 0 <= k <= |files|
      invariant converted == ConvertAll(files[..k], textExtensions, converts)
      invariant anyConverted <==> AnyConverts(files[..k], textExtensions, converts)
    {
      assert files[..k + 1][..k] == files[..k];
      var f := files[k];
      if !IsText(f, textExtensions) {
        converted := converted + [f];
      } else if converts(k) {
        converted := converted + [AsPdf(f)];
        anyConverted := true;
      } else {
        converted := converted + [f];
      }
      AnyConvertsStep(files, textExtensions, converts, k);
      k := k + 1;
    }
    assert files[..k] == files;
  }

  lemma AnyConvertsStep(files: seq<File>, textExtensions: Option<string -> bool>, converts: nat -> bool, k: nat)
    requires k < |files|
    ensures AnyConverts(files[..k + 1], textExtensions, converts) <==>
              AnyConverts(files[..k], textExtensions, converts) || (IsText(files[k], textExtensions) && converts(k))
  {
    if AnyConverts(files[..k + 1], textExtensions, converts) && !(IsText(files[k], textExtensions) && converts(k)) {
      var m :| 0 <= m < k + 1 && IsText(files[..k + 1][m], textExtensions) && converts(m);
      assert files[..k][m] == files[m];
    }
    if AnyConverts(files[..k], textExtensions, converts) {
      var m :| 0 <= m < k && IsText(files[..k][m], textExtensions) && converts(m);
      assert files[..k + 1][m] == files[m];
    }
    if IsText(files[k], textExtensions) && converts(k) {
      assert files[..k + 1][k] == files[k];
    }
  }

  /** By default, a file whose name ends in '.' and a listed extension,
      written in any mix of upper and lower case, is text. */
  lemma ExtensionAnyCase(base: string, x: string, e: string, mime: string)
    requires e in TEXT_EXTENSIONS && FoldAscii(x) == e
    ensures IsText(File(base + "." + x, mime), None)
  {
    FoldAppend(".", x);
    assert FoldAscii(".") == ".";
    SuffixSlice(base, "." + x);
    assert base + "." + x == base + ("." + x);
    EndsWithAnyMember(base + "." + x, TEXT_EXTENSIONS, e);
  }

  lemma SuffixSlice(base: string, x: string)
    ensures (base + x)[|base + x| - |x|..] == x
  {
    assert (base + x)[|base|..] == x;
  }

  lemma {:induction false} EndsWithAnyMember(name: string, exts: seq<string>, e: string)
    requires e in exts && EndsWithExt(name, e)
    ensures EndsWithAny(name, exts)
  {
    if exts[0] != e {
      EndsWithAnyMember(name, exts[1..], e);
    }
  }


  /** A file announced as `text/...` is text whatever its name. */
  lemma TextMimeIsText(f: File, textExtensions: Option<string -> bool>)
    requires StartsWith(f.mime, "text/")
    ensures IsText(f, textExtensions)
  {
  }



  lemma {:induction false} FoldAppend(a: string, b: string)
    ensures FoldAscii(a + b) == FoldAscii(a) + FoldAscii(b)
  {
    if a != [] {
      assert (a + b)[1..] == a[1..] + b;
      FoldAppend(a[1..], b);
    } else {
      assert a + b == b;
    }
  }
}
