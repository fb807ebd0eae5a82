/** String primitives of the JavaScript runtime that the application relies on:
    `trim`, `toLowerCase`, `startsWith`, `includes`, `split`, the `\s+` pattern,
    `Array.from(new Set(...))` and decimal printing of integers. Strings are
    sequences of Unicode scalar values. */
module Strings {
  import opened Wrappers

  /** JavaScript WhiteSpace and LineTerminator code points: what `trim` removes
      and what the regular-expression class `\s` matches. */
  predicate IsJsSpace(c: char) {
    || c == '\t' || c == '\n' || c == '\U{B}' || c == '\U{C}' || c == '\r' || c == ' '
    || c == '\U{A0}' || c == '\U{1680}' || ('\U{2000}' <= c <= '\U{200A}')
    || c == '\U{2028}' || c == '\U{2029}' || c == '\U{202F}' || c == '\U{205F}'
    || c == '\U{3000}' || c == '\U{FEFF}'
  }

  /** Every character is whitespace (the empty string included). */
  predicate IsBlank(s: string) {
    forall i :: 0 <= i < |s| ==> IsJsSpace(s[i])
  }

  /** `String.prototype.trimStart`. */
  function TrimStart(s: string): (r: string)
    ensures |r| <= |s| && r == s[|s| - |r|..]
    ensures r == [] || !IsJsSpace(r[0])
    ensures IsBlank(s[..|s| - |r|])
    ensures s != [] && IsJsSpace(s[0]) ==> |r| < |s|
  {
    if s != [] && IsJsSpace(s[0]) then TrimStart(s[1..]) else s
  }

  /** `String.prototype.trimEnd`. */
  function TrimEnd(s: string): (r: string)
    ensures |r| <= |s| && r == s[..|r|]
    ensures r == [] || !IsJsSpace(r[|r| - 1])
    ensures IsBlank(s[|r|..])
  {
    if s != [] && IsJsSpace(s[|s| - 1]) then TrimEnd(s[..|s| - 1]) else s
  }

  /** `String.prototype.trim`. */
  function Trim(s: string): string {
    TrimEnd(TrimStart(s))
  }

  /** `s.trim()` is empty exactly when `s` is all whitespace. */
  lemma TrimEmptyIffBlank(s: string)
    ensures Trim(s) == [] <==> IsBlank(s)
  {
    var a := TrimStart(s);
    if Trim(s) == [] {
      assert a == [];
      assert s[..|s| - |a|] == s;
    } else {
      var r := Trim(s);
      assert !IsJsSpace(r[|r| - 1]);
      assert r[|r| - 1] == s[|s| - |a| + |r| - 1];
    }
  }

  /** A string that starts and ends with non-whitespace is unchanged by `trim`. */
  lemma TrimKeeps(s: string)
    requires s != [] && !IsJsSpace(s[0]) && !IsJsSpace(s[|s| - 1])
    ensures Trim(s) == s
  {
  }

  /** After `trim` the result neither starts nor ends with whitespace. */
  lemma TrimIsTrimmed(s: string)
    ensures Trim(s) == [] || (!IsJsSpace(Trim(s)[0]) && !IsJsSpace(Trim(s)[|Trim(s)| - 1]))
  {
    var a := TrimStart(s);
    var r := TrimEnd(a);
    if r != [] {
      assert r[0] == a[0];
    }
  }

  /** `toLowerCase` on one code point. ASCII letters are mapped; so are the two
      non-ASCII code points whose lower case is ASCII (KELVIN SIGN and LATIN
      CAPITAL LETTER I WITH DOT ABOVE). Every other code point is kept. */
  function LowerChar(c: char): string {
    if 'A' <= c <= 'Z' then [(c as int + 32) as char]
    else if c == '\U{212A}' then "k"
    else if c == '\U{130}' then "i\U{307}"
    else [c]
  }

  predicate IsAsciiUpper(c: char) {
    'A' <= c <= 'Z'
  }

  /** `String.prototype.toLowerCase` (see `LowerChar` for the characters covered). */
  function ToLower(s: string): (r: string)
    ensures NoUpper(r)
  {
    if s == [] then [] else LowerChar(s[0]) + ToLower(s[1..])
  }

  lemma {:induction false} ToLowerAppend(a: string, b: string)
    ensures ToLower(a + b) == ToLower(a) + ToLower(b)
  {
    if a == [] {
      assert a + b == b;
    } else {
      assert (a + b)[0] == a[0];
      assert (a + b)[1..] == a[1..] + b;
      ToLowerAppend(a[1..], b);
      calc {
        ToLower(a + b);
        LowerChar(a[0]) + ToLower(a[1..] + b);
        LowerChar(a[0]) + (ToLower(a[1..]) + ToLower(b));
        (LowerChar(a[0]) + ToLower(a[1..])) + ToLower(b);
      }
    }
  }

  /** No ASCII upper-case letter. */
  predicate NoUpper(s: string) {
    forall i :: 0 <= i < |s| ==> !IsAsciiUpper(s[i])
  }

  /** `trim` only removes characters, so it adds no upper-case letter. */
  lemma TrimNoUpper(s: string)
    requires NoUpper(s)
    ensures NoUpper(Trim(s))
  {
    var t := TrimStart(s);
    var k := |s| - |t|;
    forall i | 0 <= i < |t| ensures !IsAsciiUpper(t[i]) {
      assert t[i] == s[k + i];
    }
    var r := TrimEnd(t);
    forall i | 0 <= i < |r| ensures !IsAsciiUpper(r[i]) {
      assert r[i] == t[i];
    }
  }

  /** Lower-casing twice is lower-casing once. */
  lemma {:induction false} ToLowerIdempotent(s: string)
    ensures ToLower(ToLower(s)) == ToLower(s)
  {
    if s != [] {
      ToLowerIdempotent(s[1..]);
      ToLowerAppend(LowerChar(s[0]), ToLower(s[1..]));
      var c := s[0];
      if 'A' <= c <= 'Z' {
        assert ToLower(LowerChar(c)) == LowerChar(c);
      } else if c == '\U{130}' {
        assert ToLower("i\U{307}") == LowerChar('i') + ToLower("\U{307}");
      } else if c != '\U{212A}' {
        assert ToLower([c]) == LowerChar(c) + ToLower([]);
      }
    }
  }

  /** `s.startsWith(p)`. */
  predicate StartsWith(s: string, p: string) {
    |p| <= |s| && s[..|p|] == p
  }

  /** A string whose first character differs from the prefix's does not start with it. */
  lemma FirstCharRulesOutPrefix(s: string, p: string)
    requires s != [] && p != [] && s[0] != p[0]
    ensures !StartsWith(s, p)
  {
    if |p| <= |s| { assert s[..|p|][0] == s[0]; }
  }

  /** Plain ASCII: lower-case letters, digits and the punctuation of host names and slugs. */
  predicate IsPlain(s: string) {
    forall c :: c in s ==> ('a' <= c <= 'z') || ('0' <= c <= '9') || c == '.' || c == '-' || c == '_'
  }

  /** Plainness checked position by position. */
  lemma PlainByIndex(s: string)
    requires forall i :: 0 <= i < |s| ==>
               ('a' <= s[i] <= 'z') || ('0' <= s[i] <= '9') || s[i] == '.' || s[i] == '-' || s[i] == '_'
    ensures IsPlain(s)
  {
    forall c | c in s ensures ('a' <= c <= 'z') || ('0' <= c <= '9') || c == '.' || c == '-' || c == '_' {
      var i :| 0 <= i < |s| && s[i] == c;
    }
  }

  /** `toLowerCase` leaves plain text alone. */
  lemma {:induction false} ToLowerPlain(s: string)
    requires IsPlain(s)
    ensures ToLower(s) == s
  {
    if s != [] {
      var c, t := s[0], s[1..];
      assert c in s;
      assert LowerChar(c) == [c];
      assert IsPlain(t) by {
        forall x | x in t ensures x in s {
          var i :| 0 <= i < |t| && t[i] == x;
          assert s[i + 1] == x;
        }
      }
      ToLowerPlain(t);
      assert s == [c] + t;
    }
  }

  /** Plain text has no whitespace, so `trim` leaves it alone. */
  lemma TrimPlain(s: string)
    requires IsPlain(s)
    ensures Trim(s) == s
  {
    if s != [] {
      assert s[0] in s && s[|s| - 1] in s;
      TrimKeeps(s);
    }
  }

  /** `s.includes(t)`. */
  predicate Contains(s: string, t: string) {
    exists i :: 0 <= i <= |s| && StartsWith(s[i..], t)
  }

  /** `s.indexOf(c)` for a character that occurs in `s`. */
  function IndexOf(s: string, c: char): (k: nat)
    requires c in s
    ensures k < |s| && s[k] == c && c !in s[..k]
  {
    if s[0] == c then 0 else 1 + IndexOf(s[1..], c)
  }

  /** `s.split(c)` for a one-character separator (JavaScript and Python agree). */
  function Split(s: string, c: char): (parts: seq<string>)
    ensures |parts| >= 1
    ensures forall i :: 0 <= i < |parts| ==> c !in parts[i]
    ensures c in s ==> |parts| >= 2
    decreases |s|
  {
    if c !in s then [s]
    else
      var k := IndexOf(s, c);
      [s[..k]] + Split(s[k + 1..], c)
  }

  /** `parts.join(sep)`. */
  function Join(parts: seq<string>, sep: string): string {
    if parts == [] then ""
    else if |parts| == 1 then parts[0]
    else parts[0] + sep + Join(parts[1..], sep)
  }

  /** Splitting and re-joining on the same character gives the string back. */
  lemma {:induction false} JoinSplit(s: string, c: char)
    ensures Join(Split(s, c), [c]) == s
    decreases |s|
  {
    if c in s {
      var k := IndexOf(s, c);
      var rest := s[k + 1..];
      JoinSplit(rest, c);
      assert Split(s, c) == [s[..k]] + Split(rest, c);
      assert s == s[..k] + [c] + rest;
    }
  }

  /** The `replace(/\s+/g, '-')` rewrite: each maximal run of whitespace becomes one '-'. */
  function ReplaceSpaceRuns(s: string): string {
    Collapse(s, false)
  }

  /** `Collapse(s, inRun)`: the rewrite of `s` when the text before it ended inside a
      whitespace run (`inRun`), whose '-' has then already been written. */
  function Collapse(s: string, inRun: bool): (r: string)
    ensures forall i :: 0 <= i < |r| ==> !IsJsSpace(r[i])
    ensures |r| <= |s|
  {
    if s == [] then []
    else if IsJsSpace(s[0]) then (if inRun then "" else "-") + Collapse(s[1..], true)
    else [s[0]] + Collapse(s[1..], false)
  }

  /** Every character the rewrite produces is a '-' or a non-space input character
      satisfying whatever the input's non-space characters satisfy. */
  lemma {:induction false} CollapseChars(s: string, inRun: bool, ok: char -> bool)
    requires forall i :: 0 <= i < |s| ==> IsJsSpace(s[i]) || ok(s[i])
    ensures forall i :: 0 <= i < |Collapse(s, inRun)| ==>
              Collapse(s, inRun)[i] == '-' || ok(Collapse(s, inRun)[i])
  {
    if s != [] {
      assert forall i :: 0 <= i < |s[1..]| ==> s[1..][i] == s[i + 1];
      CollapseChars(s[1..], true, ok);
      CollapseChars(s[1..], false, ok);
    }
  }

  /** No character is whitespace. */
  predicate NoSpace(s: string) {
    forall i :: 0 <= i < |s| ==> !IsJsSpace(s[i])
  }

  /** Words separated by whitespace runs: `ws[0] + gs[0] + ws[1] + ... + ws[n]`. */
  function Interleave(ws: seq<string>, gs: seq<string>): string
    requires |ws| >= 1 && |gs| == |ws| - 1
    decreases |ws|
  {
    if |ws| == 1 then ws[0] else ws[0] + gs[0] + Interleave(ws[1..], gs[1..])
  }

  /** A whitespace run is written as one '-', or as nothing when a run is
      already in progress. */
  lemma {:induction false} CollapseRun(g: string, rest: string, inRun: bool)
    requires g != [] && IsBlank(g)
    ensures Collapse(g + rest, inRun) == (if inRun then "" else "-") + Collapse(rest, true)
    decreases |g|
  {
    assert (g + rest)[1..] == g[1..] + rest;
    if |g| > 1 {
      CollapseRun(g[1..], rest, true);
    } else {
      assert g[1..] + rest == rest;
    }
  }

  /** A non-empty word is copied unchanged and ends any run in progress. */
  lemma {:induction false} CollapseWord(w: string, rest: string, inRun: bool)
    requires w != [] && NoSpace(w)
    ensures Collapse(w + rest, inRun) == w + Collapse(rest, false)
    decreases |w|
  {
    assert (w + rest)[1..] == w[1..] + rest;
    if |w| > 1 {
      CollapseWord(w[1..], rest, false);
    } else {
      assert w[1..] + rest == rest;
    }
  }

  /** Words and the runs between them, then any text: the words joined with
      '-', then the rewrite of that text. */
  lemma {:induction false} CollapseInterleave(ws: seq<string>, gs: seq<string>, post: string, inRun: bool)
    requires |ws| >= 1 && |gs| == |ws| - 1
    requires forall i :: 0 <= i < |ws| ==> ws[i] != [] && NoSpace(ws[i])
    requires forall i :: 0 <= i < |gs| ==> gs[i] != [] && IsBlank(gs[i])
    ensures Collapse(Interleave(ws, gs) + post, inRun) == Join(ws, "-") + Collapse(post, false)
    decreases |ws|
  {
    if |ws| == 1 {
      CollapseWord(ws[0], post, inRun);
    } else {
      var tail := Interleave(ws[1..], gs[1..]) + post;
      assert Interleave(ws, gs) + post == ws[0] + (gs[0] + tail);
      CollapseWord(ws[0], gs[0] + tail, inRun);
      CollapseRun(gs[0], tail, false);
      CollapseInterleave(ws[1..], gs[1..], post, true);
    }
  }

  /** Words separated by runs, then an optional trailing run: the words joined
      with '-', then one '-' for the trailing run. */
  lemma CollapseText(ws: seq<string>, gs: seq<string>, post: string, inRun: bool)
    requires IsBlank(post)
    requires |ws| >= 1 && |gs| == |ws| - 1
    requires forall i :: 0 <= i < |ws| ==> ws[i] != [] && NoSpace(ws[i])
    requires forall i :: 0 <= i < |gs| ==> gs[i] != [] && IsBlank(gs[i])
    ensures Collapse(Interleave(ws, gs) + post, inRun) == Join(ws, "-") + (if post == [] then "" else "-")
  {
    ReplaceBlank(post);
    CollapseInterleave(ws, gs, post, inRun);
  }

  /** The meaning of `replace(/\s+/g, '-')`: for any text made of an optional
      leading run, words separated by runs, and an optional trailing run, each
      run becomes exactly one '-' and the words are kept in order. */
  lemma ReplaceSpaceRunsMeaning(pre: string, ws: seq<string>, gs: seq<string>, post: string)
    requires IsBlank(pre) && IsBlank(post)
    requires |ws| >= 1 && |gs| == |ws| - 1
    requires forall i :: 0 <= i < |ws| ==> ws[i] != [] && NoSpace(ws[i])
    requires forall i :: 0 <= i < |gs| ==> gs[i] != [] && IsBlank(gs[i])
    ensures ReplaceSpaceRuns(pre + (Interleave(ws, gs) + post)) ==
              (if pre == [] then "" else "-") + (Join(ws, "-") + (if post == [] then "" else "-"))
  {
    var mid := Interleave(ws, gs) + post;
    CollapseText(ws, gs, post, pre != []);
    if pre != [] {
      CollapseRun(pre, mid, false);
    } else {
      assert pre + mid == mid;
    }
  }

  /** Text that is all whitespace becomes a single '-' (nothing when empty). */
  lemma ReplaceBlank(g: string)
    requires IsBlank(g)
    ensures ReplaceSpaceRuns(g) == if g == [] then "" else "-"
  {
    if g != [] {
      CollapseRun(g, [], false);
      assert g + [] == g;
    }
  }

  /** One decimal digit. */
  function DigitChar(d: nat): char
    requires d < 10
  {
    "0123456789"[d]
  }

  /** Decimal notation of a natural number (what a template literal prints). */
  function NatToString(n: nat): (r: string)
    ensures |r| >= 1 && forall i :: 0 <= i < |r| ==> '0' <= r[i] <= '9'
  {
    if n < 10 then [DigitChar(n)] else NatToString(n / 10) + [DigitChar(n % 10)]
  }

  /** Decimal notation of an integer, with a leading '-' when negative. */
  function IntToString(n: int): string {
    if n < 0 then "-" + NatToString(-n) else NatToString(n)
  }

  /** `Array.from(new Set(s))`: duplicates removed, first occurrences kept in order. */
  function Dedup<T(==)>(s: seq<T>): (r: seq<T>)
    ensures |r| <= |s|
  {
    if s == [] then []
    else
      var p := Dedup(s[..|s| - 1]);
      if s[|s| - 1] in p then p else p + [s[|s| - 1]]
  }

  /** Deduplication keeps exactly the values of its argument, each once. */
  lemma {:induction false} DedupSpec<T(!new)>(s: seq<T>)
    ensures forall x :: x in Dedup(s) <==> x in s
    ensures forall i, j :: 0 <= i < j < |Dedup(s)| ==> Dedup(s)[i] != Dedup(s)[j]
  {
    if s != [] {
      var init := s[..|s| - 1];
      DedupSpec(init);
      assert s == init + [s[|s| - 1]];
    }
  }

  /** Fewer than two distinct values survive deduplication exactly when all
      elements are equal. */
  lemma DedupBelowTwo<T(!new)>(s: seq<T>)
    ensures |Dedup(s)| < 2 <==> forall i, j :: 0 <= i < |s| && 0 <= j < |s| ==> s[i] == s[j]
  {
    var r := Dedup(s);
    DedupSpec(s);
    if |r| < 2 {
      forall i, j | 0 <= i < |s| && 0 <= j < |s| ensures s[i] == s[j] {
        assert s[i] in r && s[j] in r;
      }
    } else {
      assert r[0] in s && r[1] in s;
      var i :| 0 <= i < |s| && s[i] == r[0];
      var j :| 0 <= j < |s| && s[j] == r[1];
      assert s[i] != s[j];
    }
  }

  /** `Dedup` keeps the order of first occurrences: the first element is always kept. */
  lemma DedupFirst<T(!new)>(s: seq<T>)
    requires s != []
    ensures Dedup(s)[0] == s[0]
  {
    if |s| > 1 {
      DedupFirst(s[..|s| - 1]);
      assert s[..|s| - 1][0] == s[0];
    }
  }

  /** A non-empty run of one value deduplicates to that value alone. */
  lemma DedupConstant<T(!new)>(s: seq<T>, x: T)
    requires s != [] && forall i :: 0 <= i < |s| ==> s[i] == x
    ensures Dedup(s) == [x]
  {
    DedupBelowTwo(s);
    DedupFirst(s);
    DedupSpec(s);
    assert s[0] in Dedup(s);
  }

  /** The position of the first occurrence of `x` in `s`. */
  function FirstIndex<T(==)>(s: seq<T>, x: T): (k: nat)
    requires x in s
    ensures k < |s| && s[k] == x && x !in s[..k]
  {
    if s[0] == x then 0 else 1 + FirstIndex(s[1..], x)
  }

  /** Text after a value's first occurrence does not move it. */
  lemma FirstIndexPrefix<T>(s: seq<T>, t: seq<T>, x: T)
    requires x in s
    ensures x in s + t && FirstIndex(s + t, x) == FirstIndex(s, x)
  {
    var k, k' := FirstIndex(s, x), FirstIndex(s + t, x);
    assert (s + t)[k] == x;
    assert (s + t)[..k] == s[..k];
  }

  /** Every value of `r` occurs in `s`, and their first positions in `s`
      increase along `r`. */
  ghost predicate FirstsIncrease<T>(s: seq<T>, r: seq<T>) {
    && (forall i :: 0 <= i < |r| ==> r[i] in s)
    && forall i, j :: 0 <= i < j < |r| ==> r[i] in s && r[j] in s && FirstIndex(s, r[i]) < FirstIndex(s, r[j])
  }

  /** Appending a value keeps the first positions of the values already there. */
  lemma FirstsIncreaseSnoc<T(!new)>(s: seq<T>, r: seq<T>, x: T)
    requires FirstsIncrease(s, r)
    ensures FirstsIncrease(s + [x], r)
  {
    forall y | y in s ensures FirstIndex(s + [x], y) == FirstIndex(s, y) {
      FirstIndexPrefix(s, [x], y);
    }
  }

  /** A value new to `s` is first found after every value of `s`. */
  lemma FirstsIncreaseNew<T(!new)>(s: seq<T>, r: seq<T>, x: T)
    requires FirstsIncrease(s + [x], r) && x !in s && forall y :: y in r ==> y in s
    ensures FirstsIncrease(s + [x], r + [x])
  {
    var t, r' := s + [x], r + [x];
    assert t[|s|] == x && t[..|s|] == s;
    forall y | y in s ensures FirstIndex(t, y) < |s| {
      FirstIndexPrefix(s, [x], y);
    }
    forall i, j | 0 <= i < j < |r'| ensures r'[i] in t && r'[j] in t && FirstIndex(t, r'[i]) < FirstIndex(t, r'[j]) {
      assert r'[i] == r[i] && r[i] in r;
      if j < |r| {
        assert r'[j] == r[j];
      }
    }
  }

  /** `Dedup` keeps first occurrences in their order of appearance: every
      element of `Dedup(s)` stands for its first occurrence in `s`, and those
      first positions increase along `Dedup(s)`, so `Dedup(s)` is the
      subsequence of first occurrences of `s`. */
  lemma {:induction false} DedupOrder<T(!new)>(s: seq<T>)
    ensures FirstsIncrease(s, Dedup(s))
  {
    if s != [] {
      var init, last := s[..|s| - 1], s[|s| - 1];
      assert s == init + [last];
      DedupOrder(init);
      DedupSpec(init);
      FirstsIncreaseSnoc(init, Dedup(init), last);
      if last !in Dedup(init) {
        FirstsIncreaseNew(init, Dedup(init), last);
      }
    }
  }
}
