/** The file name the image route derives from a prompt
    (`slugifyPrompt` in app/api/gen-image/route.ts). */
module GenImage {
  import opened Strings

  const MAX_SLUG := 120
  const FALLBACK_SLUG := "image"

  /** The characters a slug is made of: `a-z`, `0-9`, '-' and '_'. */
  predicate IsSlugChar(c: char) {
    ('a' <= c <= 'z') || ('0' <= c <= '9') || c == '-' || c == '_'
  }

  predicate IsSlug(s: string) {
    forall i :: 0 <= i < |s| ==> IsSlugChar(s[i])
  }

  /** `replace(/[^a-z0-9\s-_]/g, '')`: in the class, the '-' between `\s`
      and '_' is a literal, so slug characters and whitespace stay. */
  function KeepSlugChars(s: string): (r: string)
    ensures forall i :: 0 <= i < |r| ==> IsSlugChar(r[i]) || IsJsSpace(r[i])
    ensures |r| <= |s|
  {
    if s == [] then []
    else (if IsSlugChar(s[0]) || IsJsSpace(s[0]) then [s[0]] else []) + KeepSlugChars(s[1..])
  }

  /** The prompt before the cut: lower-cased, stripped to slug characters
      and whitespace, trimmed, and each whitespace run made one '-'. */
  function Dashed(p: string): (r: string)
    ensures IsSlug(r)
  {
    var trimmed := Trim(KeepSlugChars(ToLower(p)));
    DashedIsSlug(KeepSlugChars(ToLower(p)));
    ReplaceSpaceRuns(trimmed)
  }

  /** `slugifyPrompt(p)`: the dashed prompt cut to 120 characters, and
      'image' when nothing is left. */
  function Slugify(p: string): (r: string)
    ensures r != [] && |r| <= MAX_SLUG && IsSlug(r)
  {
    var cut := Cut(Dashed(p));
    FallbackIsSlug();
    if cut == [] then FALLBACK_SLUG else cut
  }

  /** `slice(0, 120)`. */
  function Cut(s: string): (r: string)
    requires IsSlug(s)
    ensures |r| <= MAX_SLUG && |r| <= |s| && IsSlug(r) && r == s[..|r|]
    ensures |s| <= MAX_SLUG ==> r == s
    ensures |s| > MAX_SLUG ==> |r| == MAX_SLUG
    ensures r == [] ==> s == []
  {
    if |s| <= MAX_SLUG then s
    else
      var r := s[..MAX_SLUG];
      assert forall i :: 0 <= i < |r| ==> r[i] == s[i];
      r
  }

  lemma FallbackIsSlug()
    ensures IsSlug(FALLBACK_SLUG)
  {
    var f := FALLBACK_SLUG;
    assert |f| == 5 && f[0] == 'i' && f[1] == 'm' && f[2] == 'a' && f[3] == 'g' && f[4] == 'e';
    forall i | 0 <= i < 5 ensures IsSlugChar(f[i]) {
      assert i == 0 || i == 1 || i == 2 || i == 3 || i == 4;
    }
  }

  /** Trimming and rewriting the runs of filtered text leaves slug characters. */
  lemma DashedIsSlug(kept: string)
    requires forall i :: 0 <= i < |kept| ==> IsSlugChar(kept[i]) || IsJsSpace(kept[i])
    ensures IsSlug(ReplaceSpaceRuns(Trim(kept)))
  {
    var trimmed := Trim(kept);
    TrimChars(kept);
    CollapseChars(trimmed, false, IsSlugChar);
  }

  /** `trim` only removes characters from the ends. */
  lemma TrimChars(s: string)
    ensures forall i :: 0 <= i < |Trim(s)| ==> exists j :: 0 <= j < |s| && s[j] == Trim(s)[i]
  {
    var t := TrimStart(s);
    var r := TrimEnd(t);
    assert Trim(s) == r;
    forall i | 0 <= i < |r| ensures exists j :: 0 <= j < |s| && s[j] == r[i] {
      var j := |s| - |t| + i;
      assert r[i] == t[i] == s[j];
    }
  }

  /** Slug characters pass the character filter untouched. */
  lemma {:induction false} KeepSlugCharsOfSlug(s: string)
    requires IsSlug(s)
    ensures KeepSlugChars(s) == s
  {
    if s != [] {
      assert IsSlug(s[1..]) by {
        forall i | 0 <= i < |s[1..]| ensures IsSlugChar(s[1..][i]) { assert s[1..][i] == s[i + 1]; }
      }
      KeepSlugCharsOfSlug(s[1..]);
    }
  }

  /** Text without whitespace has no run to rewrite. */
  lemma {:induction false} CollapseNoSpace(s: string)
    requires IsSlug(s)
    ensures Collapse(s, false) == s
  {
    if s != [] {
      assert IsSlug(s[1..]) by {
        forall i | 0 <= i < |s[1..]| ensures IsSlugChar(s[1..][i]) { assert s[1..][i] == s[i + 1]; }
      }
      CollapseNoSpace(s[1..]);
    }
  }

  /** A non-empty slug of at most 120 characters is its own slug. */
  lemma SlugOfSlug(p: string)
    requires p != [] && |p| <= MAX_SLUG && IsSlug(p)
    ensures Slugify(p) == p
  {
    assert IsPlain(p) by {
      forall c | c in p ensures ('a' <= c <= 'z') || ('0' <= c <= '9') || c == '.' || c == '-' || c == '_' {
        var i :| 0 <= i < |p| && p[i] == c;
      }
    }
    ToLowerPlain(p);
    KeepSlugCharsOfSlug(p);
    TrimPlain(p);
    CollapseNoSpace(p);
  }

  /** Slugifying a slug changes nothing. */
  lemma SlugifyIdempotent(p: string)
    ensures Slugify(Slugify(p)) == Slugify(p)
  {
    SlugOfSlug(Slugify(p));
  }

  /** A prompt with nothing but removed characters and whitespace gets the
      fallback name. */
  lemma BlankPromptFallsBack(p: string)
    requires forall i :: 0 <= i < |p| ==> IsJsSpace(p[i])
    ensures Slugify(p) == FALLBACK_SLUG
  {
    ToLowerSpaces(p);
    KeepSpaces(p);
    TrimEmptyIffBlank(p);
  }

  lemma {:induction false} ToLowerSpaces(p: string)
    requires forall i :: 0 <= i < |p| ==> IsJsSpace(p[i])
    ensures ToLower(p) == p
  {
    if p != [] {
      ToLowerSpaces(p[1..]);
    }
  }

  lemma {:induction false} KeepSpaces(p: string)
    requires forall i :: 0 <= i < |p| ==> IsJsSpace(p[i])
    ensures KeepSlugChars(p) == p
  {
    if p != [] {
      KeepSpaces(p[1..]);
    }
  }

  /** A prompt whose dashed form is longer than 120 characters keeps exactly
      its first 120. */
  lemma LongPromptCut(p: string)
    requires |Dashed(p)| > MAX_SLUG
    ensures Slugify(p) == Dashed(p)[..MAX_SLUG]
  {
  }
}
