/** Text-to-PDF conversion (app/utils/text2pdf.ts): the text is cut into
    lines, each line is wrapped to the usable width, and the wrapped lines
    are laid out top to bottom, starting a new page whenever the next line
    would cross the bottom margin. The PDF document itself and the wrapping
    (`splitTextToSize`) are outside the model; the wrapping and the page
    height are inputs. */
module TextToPdf {
  import opened Wrappers
  import opened Strings

  const DEFAULT_FONT_SIZE: nat := 10
  const DEFAULT_FONT_NAME := "courier"
  const DEFAULT_PAGE_SIZE := "a4"
  const DEFAULT_MARGIN: int := 40
  const PDF_TYPE := "application/pdf"
  const FALLBACK_NAME := "converted"

  /** `TextToPdfOptions`; an absent field takes its default. */
  datatype Options = Options(fontSize: Option<nat>, fontName: Option<string>, pageSize: Option<string>, margin: Option<int>)

  /** The settings after `??`. */
  datatype Settings = Settings(fontSize: nat, fontName: string, pageSize: string, margin: int)

  function Resolve(opts: Options): (s: Settings)
    ensures opts == Options(None, None, None, None) ==>
              s == Settings(DEFAULT_FONT_SIZE, DEFAULT_FONT_NAME, DEFAULT_PAGE_SIZE, DEFAULT_MARGIN)
    ensures opts.fontSize.Some? ==> s.fontSize == opts.fontSize.value
    ensures opts.margin.Some? ==> s.margin == opts.margin.value
  {
    Settings(opts.fontSize.GetOr(DEFAULT_FONT_SIZE), opts.fontName.GetOr(DEFAULT_FONT_NAME),
             opts.pageSize.GetOr(DEFAULT_PAGE_SIZE), opts.margin.GetOr(DEFAULT_MARGIN))
  }

  /** `Math.ceil(fontSize * 1.25)`. */
  function LineHeight(fontSize: nat): (h: nat)
    ensures 4 * h >= 5 * fontSize && 4 * h < 5 * fontSize + 4
  {
    (5 * fontSize + 3) / 4
  }

  /** A line cut at '\n' loses the '\r' of a "\r\n" separator. */
  function DropCr(s: string): string {
    if s != [] && s[|s| - 1] == '\r' then s[..|s| - 1] else s
  }

  /** `text.split(/\r\n|\n/)`: every '\n' ends a line, together with a '\r'
      right before it; the last line keeps whatever it ends with. */
  function SplitLines(text: string): (lines: seq<string>)
    ensures |lines| == |Split(text, '\n')|
    ensures forall i :: 0 <= i < |lines| ==> '\n' !in lines[i]
  {
    var parts := Split(text, '\n');
    seq(|parts|, i requires 0 <= i < |parts| => if i < |parts| - 1 then DropCr(parts[i]) else parts[i])
  }

  /** Text without '\r' comes back from its lines joined with '\n'. */
  lemma SplitLinesRoundTrip(text: string)
    requires '\r' !in text
    ensures Join(SplitLines(text), "\n") == text
  {
    var parts := Split(text, '\n');
    forall i | 0 <= i < |parts| ensures SplitLines(text)[i] == parts[i] {
      if i < |parts| - 1 && parts[i] != [] {
        SplitPartsAvoid(text, '\n', '\r', i);
      }
    }
    assert SplitLines(text) == parts;
    JoinSplit(text, '\n');
  }

  /** Lines joined with a "\r\n" (where `crlf[i]`) or a "\n" separator after line `i`. */
  function JoinLines(ls: seq<string>, crlf: seq<bool>): string
    requires |ls| >= 1 && |crlf| == |ls| - 1
    decreases |ls|
  {
    if |ls| == 1 then ls[0]
    else ls[0] + (if crlf[0] then "\r\n" else "\n") + JoinLines(ls[1..], crlf[1..])
  }

  /** The pieces between the '\n's of `JoinLines(ls, crlf)`: each line, with the
      '\r' of a "\r\n" separator still at its end. */
  function Terminated(ls: seq<string>, crlf: seq<bool>): (ps: seq<string>)
    requires |ls| >= 1 && |crlf| == |ls| - 1
    ensures |ps| == |ls|
    decreases |ls|
  {
    if |ls| == 1 then ls
    else [if crlf[0] then ls[0] + "\r" else ls[0]] + Terminated(ls[1..], crlf[1..])
  }

  /** Piece `i` is line `i`, followed by '\r' when a "\r\n" comes after it. */
  lemma {:induction false} TerminatedAt(ls: seq<string>, crlf: seq<bool>, i: nat)
    requires |ls| >= 1 && |crlf| == |ls| - 1 && i < |ls|
    ensures Terminated(ls, crlf)[i] == if i < |ls| - 1 && crlf[i] then ls[i] + "\r" else ls[i]
    decreases |ls|
  {
    if i > 0 {
      TerminatedAt(ls[1..], crlf[1..], i - 1);
    }
  }

  /** The first piece of a split is everything before the first separator. */
  lemma SplitFirst(a: string, c: char, rest: string)
    requires c !in a
    ensures Split(a + [c] + rest, c) == [a] + Split(rest, c)
  {
    var text := a + [c] + rest;
    assert text[|a|] == c && text[..|a|] == a && text[|a| + 1..] == rest;
    assert IndexOf(text, c) == |a|;
  }

  /** Cutting lines joined with mixed separators at '\n' leaves each "\r\n"
      line with its '\r'. */
  lemma {:induction false} SplitJoinLines(ls: seq<string>, crlf: seq<bool>)
    requires |ls| >= 1 && |crlf| == |ls| - 1
    requires forall i :: 0 <= i < |ls| ==> '\n' !in ls[i]
    ensures Split(JoinLines(ls, crlf), '\n') == Terminated(ls, crlf)
    decreases |ls|
  {
    if |ls| > 1 {
      var a := if crlf[0] then ls[0] + "\r" else ls[0];
      var rest := JoinLines(ls[1..], crlf[1..]);
      assert JoinLines(ls, crlf) == a + "\n" + rest;
      SplitFirst(a, '\n', rest);
      assert forall i :: 0 <= i < |ls[1..]| ==> ls[1..][i] == ls[i + 1];
      SplitJoinLines(ls[1..], crlf[1..]);
    }
  }

  /** The split inverts joining with any mix of "\r\n" and "\n" separators,
      as long as no line holds a '\n' and no line before a bare "\n" ends in
      '\r' (that '\r' would belong to the separator). */
  lemma SplitLinesJoined(ls: seq<string>, crlf: seq<bool>)
    requires |ls| >= 1 && |crlf| == |ls| - 1
    requires forall i :: 0 <= i < |ls| ==> '\n' !in ls[i]
    requires forall i :: 0 <= i < |ls| - 1 && !crlf[i] ==> ls[i] == [] || ls[i][|ls[i]| - 1] != '\r'
    ensures SplitLines(JoinLines(ls, crlf)) == ls
  {
    SplitJoinLines(ls, crlf);
    var parts := Terminated(ls, crlf);
    forall i | 0 <= i < |ls| ensures SplitLines(JoinLines(ls, crlf))[i] == ls[i] {
      TerminatedAt(ls, crlf, i);
      if i < |ls| - 1 && crlf[i] {
        assert parts[i] == ls[i] + "\r" && parts[i][..|parts[i]| - 1] == ls[i];
      }
    }
  }

  /** Joining every line with "\r\n" is the all-CRLF case of `JoinLines`. */
  lemma {:induction false} JoinAllCrlf(ls: seq<string>)
    requires |ls| >= 1
    ensures JoinLines(ls, seq(|ls| - 1, _ => true)) == Join(ls, "\r\n")
    decreases |ls|
  {
    if |ls| > 1 {
      assert seq(|ls| - 1, _ => true)[1..] == seq(|ls[1..]| - 1, _ => true);
      JoinAllCrlf(ls[1..]);
    }
  }

  /** Windows text: lines free of line-break characters come back from their
      "\r\n"-joined text. */
  lemma SplitLinesCrlf(ls: seq<string>)
    requires |ls| >= 1
    requires forall i :: 0 <= i < |ls| ==> '\n' !in ls[i] && '\r' !in ls[i]
    ensures SplitLines(Join(ls, "\r\n")) == ls
  {
    JoinAllCrlf(ls);
    SplitLinesJoined(ls, seq(|ls| - 1, _ => true));
  }

  /** A character missing from `s` is missing from each piece of its split. */
  lemma {:induction false} SplitPartsAvoid(s: string, c: char, d: char, i: nat)
    requires d !in s && i < |Split(s, c)|
    ensures d !in Split(s, c)[i]
    decreases |s|
  {
    if c in s {
      var k := IndexOf(s, c);
      if i > 0 {
        assert forall x :: x in s[k + 1..] ==> x in s;
        SplitPartsAvoid(s[k + 1..], c, d, i - 1);
      } else {
        assert forall x :: x in s[..k] ==> x in s;
      }
    }
  }

  /** Where one wrapped line is written: its page (0 is the first) and
      its top `y`; the baseline is `top + fontSize`. */
  datatype Placement = Placement(page: nat, text: string, top: int)

  /** The layout so far: what is written, the current page and `y`. */
  datatype Cursor = Cursor(placed: seq<Placement>, page: nat, y: int)

  /** The geometry the loop works with. */
  datatype Frame = Frame(lineHeight: nat, margin: int, pageHeight: real)

  /** `if (y + lineHeight > pageHeight - margin) { addPage(); y = margin }`,
      then the line at `y`, then `y += lineHeight`. */
  function PlaceLine(c: Cursor, w: string, f: Frame): (r: Cursor)
    ensures r.placed == c.placed + [Placement(r.page, w, r.y - f.lineHeight)]
    ensures |r.placed| == |c.placed| + 1
  {
    if (c.y + f.lineHeight) as real > f.pageHeight - f.margin as real
    then Cursor(c.placed + [Placement(c.page + 1, w, f.margin)], c.page + 1, f.margin + f.lineHeight)
    else Cursor(c.placed + [Placement(c.page, w, c.y)], c.page, c.y + f.lineHeight)
  }

  /** The layout of the wrapped lines `ws` from the top of the first page. */
  function PlaceAll(ws: seq<string>, f: Frame): Cursor {
    if ws == [] then Cursor([], 0, f.margin)
    else PlaceLine(PlaceAll(ws[..|ws| - 1], f), ws[|ws| - 1], f)
  }

  /** Line `q` follows line `p`: one line lower on the same page, or at
      the top margin of the next page. */
  predicate Follows(p: Placement, q: Placement, f: Frame) {
    || (q.page == p.page && q.top == p.top + f.lineHeight)
    || (q.page == p.page + 1 && q.top == f.margin)
  }

  /** Line `p` ends above the bottom margin unless it opens its page. */
  predicate Fits(p: Placement, f: Frame) {
    p.top == f.margin || (p.top + f.lineHeight) as real <= f.pageHeight - f.margin as real
  }

  /** A well-formed layout: the cursor sits one line below the last line
      written, on its page; consecutive lines are one line apart on the same
      page or the second opens the next page at the margin; and every line
      fits above the bottom margin unless it is at the top of a page. */
  predicate WellPlaced(c: Cursor, f: Frame) {
    && (c.placed == [] ==> c.page == 0 && c.y == f.margin)
    && (c.placed != [] ==> c.page == c.placed[|c.placed| - 1].page && c.y == c.placed[|c.placed| - 1].top + f.lineHeight)
    && (forall k :: 0 < k < |c.placed| ==> Follows(c.placed[k - 1], c.placed[k], f))
    && (forall k :: 0 <= k < |c.placed| ==> Fits(c.placed[k], f))
  }

  /** The line `PlaceLine` adds follows the last one and fits. */
  lemma PlaceLineNext(c: Cursor, w: string, f: Frame)
    requires WellPlaced(c, f)
    ensures c.placed != [] ==> Follows(c.placed[|c.placed| - 1], PlaceLine(c, w, f).placed[|c.placed|], f)
    ensures Fits(PlaceLine(c, w, f).placed[|c.placed|], f)
  {
  }

  lemma PlaceLineWellPlaced(c: Cursor, w: string, f: Frame)
    requires WellPlaced(c, f)
    ensures WellPlaced(PlaceLine(c, w, f), f)
  {
    var r := PlaceLine(c, w, f);
    var n := |c.placed|;
    PlaceLineNext(c, w, f);
    assert forall k :: 0 <= k < n ==> r.placed[k] == c.placed[k];
  }

  /** The layout of any wrapped lines is well formed. */
  lemma {:induction false} PlaceAllWellPlaced(ws: seq<string>, f: Frame)
    ensures WellPlaced(PlaceAll(ws, f), f)
  {
    if ws != [] {
      PlaceAllWellPlaced(ws[..|ws| - 1], f);
      PlaceLineWellPlaced(PlaceAll(ws[..|ws| - 1], f), ws[|ws| - 1], f);
    }
  }

  /** Every wrapped line is written once, in order. */
  lemma {:induction false} PlaceAllTexts(ws: seq<string>, f: Frame)
    ensures var p := PlaceAll(ws, f).placed;
            |p| == |ws| && forall k :: 0 <= k < |ws| ==> p[k].text == ws[k]
  {
    if ws != [] {
      PlaceAllTexts(ws[..|ws| - 1], f);
    }
  }

  /** The wrapped lines of all the lines, one after the other. */
  function Flatten(wrapped: seq<seq<string>>): seq<string> {
    if wrapped == [] then [] else Flatten(wrapped[..|wrapped| - 1]) + wrapped[|wrapped| - 1]
  }

  /** The layout `textFileToPdfBlob` writes for `text`, given the
      wrapping of one line to the usable width. */
  function Layout(text: string, wrap: string -> seq<string>, opts: Options, pageHeight: real): Cursor {
    var s := Resolve(opts);
    var lines := SplitLines(text);
    PlaceAll(Flatten(seq(|lines|, i requires 0 <= i < |lines| => wrap(lines[i]))),
             Frame(LineHeight(s.fontSize), s.margin, pageHeight))
  }

  /** The document lays out every wrapped piece of every line once, in
      order, with the spacing and paging of `WellPlaced`. */
  lemma LayoutWellFormed(text: string, wrap: string -> seq<string>, opts: Options, pageHeight: real)
    ensures var s := Resolve(opts);
            var lines := SplitLines(text);
            var ws := Flatten(seq(|lines|, i requires 0 <= i < |lines| => wrap(lines[i])));
            var c := Layout(text, wrap, opts, pageHeight);
            && WellPlaced(c, Frame(LineHeight(s.fontSize), s.margin, pageHeight))
            && |c.placed| == |ws| && (forall k :: 0 <= k < |ws| ==> c.placed[k].text == ws[k])
  {
    var s := Resolve(opts);
    var lines := SplitLines(text);
    var ws := Flatten(seq(|lines|, i requires 0 <= i < |lines| => wrap(lines[i])));
    var f := Frame(LineHeight(s.fontSize), s.margin, pageHeight);
    PlaceAllWellPlaced(ws, f);
    PlaceAllTexts(ws, f);
  }

  /** The loops of `textFileToPdfBlob`: the lines written and the number of
      pages of the document. */
  method LayOut(text: string, wrap: string -> seq<string>, opts: Options, pageHeight: real)
    returns (placed: seq<Placement>, pages: nat)
    ensures placed == Layout(text, wrap, opts, pageHeight).placed
    ensures pages == Layout(text, wrap, opts, pageHeight).page + 1
  {
    var s := Resolve(opts);
    var lines := SplitLines(text);
    var lineHeight := LineHeight(s.fontSize);
    var f := Frame(lineHeight, s.margin, pageHeight);
    ghost var all := seq(|lines|, i requires 0 <= i < |lines| => wrap(lines[i]));
    var page := 0;
    var y := s.margin;
    placed := [];
    var i := 0;
    while i < |lines|
      invariant 0 <= i <= |lines|
      invariant PlaceAll(Flatten(all[..i]), f) == Cursor(placed, page, y)
    {
      assert all[..i + 1][..i] == all[..i] && all[i] == wrap(lines[i]);
      placed, page, y := PlaceWrapped(placed, page, y, wrap(lines[i]), f, Flatten(all[..i]));
      i := i + 1;
    }
    assert all[..i] == all;
    pages := page + 1;
  }

  /** The inner loop over the wrapped pieces of one line. */
  method PlaceWrapped(placed0: seq<Placement>, page0: nat, y0: int, wrapped: seq<string>, f: Frame, ghost done: seq<string>)
    returns (placed: seq<Placement>, page: nat, y: int)
    requires PlaceAll(done, f) == Cursor(placed0, page0, y0)
    ensures PlaceAll(done + wrapped, f) == Cursor(placed, page, y)
  {
    placed, page, y := placed0, page0, y0;
    assert done + wrapped[..0] == done;
    var j := 0;
    while j < |wrapped|
      invariant 0 <= j <= |wrapped|
      invariant PlaceAll(done + wrapped[..j], f) == Cursor(placed, page, y)
    {
      assert (done + wrapped[..j + 1])[..|done| + j] == done + wrapped[..j];
      if (y + f.lineHeight) as real > f.pageHeight - f.margin as real {
        page := page + 1;
        y := f.margin;
      }
      placed := placed + [Placement(page, wrapped[j], y)];
      y := y + f.lineHeight;
      j := j + 1;
    }
    assert wrapped[..j] == wrapped;
  }

  /** `name.replace(/\.[^/.]+$/, '')`: a final extension (a '.' followed by
      at least one character, none of them '.' or '/') is removed. */
  function StripExtension(name: string): string {
    var t := TailLength(name);
    if t > 0 && t < |name| && name[|name| - t - 1] == '.' then name[..|name| - t - 1] else name
  }

  /** The length of the longest suffix of `s` holding neither '.' nor '/'. */
  function TailLength(s: string): (t: nat)
    ensures t <= |s|
    ensures forall i :: |s| - t <= i < |s| ==> s[i] != '.' && s[i] != '/'
    ensures t < |s| ==> s[|s| - t - 1] == '.' || s[|s| - t - 1] == '/'
  {
    if s == [] || s[|s| - 1] == '.' || s[|s| - 1] == '/' then 0 else TailLength(s[..|s| - 1]) + 1
  }

  /** The name of the converted file: the original name (or 'converted' when
      it is empty) without its extension, plus '.pdf'. */
  function PdfName(name: string): (r: string)
    ensures |r| >= 4 && r[|r| - 4..] == ".pdf"
  {
    StripExtension(if name == "" then FALLBACK_NAME else name) + ".pdf"
  }

  /** The extension is exactly what is replaced by '.pdf'. */
  lemma PdfNameReplacesExtension(base: string, ext: string)
    requires ext != [] && forall i :: 0 <= i < |ext| ==> ext[i] != '.' && ext[i] != '/'
    ensures PdfName(base + "." + ext) == base + ".pdf"
  {
    var name := base + "." + ext;
    TailLengthOf(base + ".", ext);
    assert name[|name| - |ext| - 1] == '.';
    assert name[..|name| - |ext| - 1] == base;
  }

  /** A name without '.' keeps all of itself. */
  lemma PdfNameNoExtension(name: string)
    requires name != [] && '.' !in name
    ensures PdfName(name) == name + ".pdf"
  {
  }

  /** The empty name gives 'converted.pdf'. */
  lemma PdfNameEmpty()
    ensures PdfName("") == "converted.pdf"
  {
    assert TailLength(FALLBACK_NAME) == |FALLBACK_NAME| by {
      TailLengthOf([], FALLBACK_NAME);
      assert [] + FALLBACK_NAME == FALLBACK_NAME;
    }
  }

  /** A suffix with neither '.' nor '/' after a '.' or '/' (or nothing) is
      the whole tail. */
  lemma {:induction false} TailLengthOf(head: string, tail: string)
    requires head == [] || head[|head| - 1] == '.' || head[|head| - 1] == '/'
    requires forall i :: 0 <= i < |tail| ==> tail[i] != '.' && tail[i] != '/'
    ensures TailLength(head + tail) == |tail|
  {
    if tail != [] {
      var s := head + tail;
      assert s[..|s| - 1] == head + tail[..|tail| - 1];
      TailLengthOf(head, tail[..|tail| - 1]);
    } else {
      assert head + tail == head;
    }
  }
}
