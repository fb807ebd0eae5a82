/** Newline-delimited JSON as the chat routes write it and the chat clients
    read it: every event is one serialised object followed by '\n'; a reader
    keeps a buffer, cuts it at each '\n', and keeps the text after the last
    '\n' for the next read. Bytes are modelled as already-decoded strings. */
module Ndjson {
  import opened Strings
  import opened Js

  /** The body of a streamed response as a client reads it: absent, or the
      decoded reads and whether a read eventually failed. */
  datatype StreamBody = NoBody | Reads(chunks: seq<string>, failed: bool)

  /** One framed line: `JSON.stringify(event) + '\n'`. */
  function Frame(payload: string): string {
    payload + "\n"
  }

  /** The frames of several payloads, one after the other. */
  function FrameAll(ps: seq<string>): string {
    if ps == [] then "" else FrameAll(ps[..|ps| - 1]) + Frame(ps[|ps| - 1])
  }

  /** The text of several reads, one after the other. */
  function Concat(chunks: seq<string>): string {
    if chunks == [] then "" else Concat(chunks[..|chunks| - 1]) + chunks[|chunks| - 1]
  }

  /** The complete lines of `s`: every piece that a '\n' ends. */
  function Lines(s: string): (ls: seq<string>)
    ensures forall i :: 0 <= i < |ls| ==> '\n' !in ls[i]
  {
    var parts := Split(s, '\n');
    parts[..|parts| - 1]
  }

  /** What is left of `s` after its last '\n' (all of `s` when it has none). */
  function Rest(s: string): (r: string)
    ensures '\n' !in r
  {
    var parts := Split(s, '\n');
    parts[|parts| - 1]
  }

  /** `s.indexOf(c)` is the first position holding `c`. */
  lemma IndexOfUnique(s: string, c: char, k: nat)
    requires k < |s| && s[k] == c && c !in s[..k]
    ensures IndexOf(s, c) == k
  {
  }

  /** Cutting at the first '\n' takes off one complete line. */
  lemma LinesStep(s: string)
    requires '\n' in s
    ensures var k := IndexOf(s, '\n');
            Lines(s) == [s[..k]] + Lines(s[k + 1..]) && Rest(s) == Rest(s[k + 1..])
  {
    var k := IndexOf(s, '\n');
    var tail := Split(s[k + 1..], '\n');
    var parts := Split(s, '\n');
    assert parts == [s[..k]] + tail;
    assert parts[..|parts| - 1] == [s[..k]] + tail[..|tail| - 1];
    assert parts[|parts| - 1] == tail[|tail| - 1];
  }

  /** A piece without '\n' has no complete line and is left over whole. */
  lemma NoNewline(s: string)
    requires '\n' !in s
    ensures Lines(s) == [] && Rest(s) == s
  {
  }

  /** Reading `t` after `s`: the complete lines of `s`, then those of what was
      left over from `s` followed by `t`. */
  lemma {:induction false} LinesAppend(s: string, t: string)
    ensures Lines(s + t) == Lines(s) + Lines(Rest(s) + t)
    ensures Rest(s + t) == Rest(Rest(s) + t)
    decreases |s|
  {
    if '\n' in s {
      var k := IndexOf(s, '\n');
      var tail := s[k + 1..];
      LinesStep(s);
      CutBeforeAppend(s, t);
      LinesAppend(tail, t);
      assert [s[..k]] + (Lines(tail) + Lines(Rest(tail) + t)) == ([s[..k]] + Lines(tail)) + Lines(Rest(tail) + t);
    } else {
      NoNewline(s);
    }
  }

  /** Text appended after a '\n' does not move it: the first line of `s + t`
      is that of `s`, and the rest is what follows it, then `t`. */
  lemma CutBeforeAppend(s: string, t: string)
    requires '\n' in s
    ensures var k := IndexOf(s, '\n');
            Lines(s + t) == [s[..k]] + Lines(s[k + 1..] + t) && Rest(s + t) == Rest(s[k + 1..] + t)
  {
    var k := IndexOf(s, '\n');
    IndexOfAppend(s, t, '\n');
    assert (s + t)[k + 1..] == s[k + 1..] + t && (s + t)[..k] == s[..k];
    LinesStep(s + t);
  }

  /** The first `c` of `s` is also the first of `s + t`. */
  lemma IndexOfAppend(s: string, t: string, c: char)
    requires c in s
    ensures c in s + t && IndexOf(s + t, c) == IndexOf(s, c)
  {
    var k := IndexOf(s, c);
    assert (s + t)[k] == c && (s + t)[..k] == s[..k];
    IndexOfUnique(s + t, c, k);
  }

  /** Text that no '\n' ends adds no complete line. */
  lemma UnterminatedIgnored(s: string, t: string)
    requires '\n' !in t
    ensures Lines(s + t) == Lines(s)
  {
    LinesAppend(s, t);
    NoNewline(Rest(s) + t);
  }

  /** One frame is one complete line with nothing left over. */
  lemma FrameLines(p: string)
    requires '\n' !in p
    ensures Lines(Frame(p)) == [p] && Rest(Frame(p)) == ""
  {
    assert Frame(p)[|p|] == '\n' && Frame(p)[..|p|] == p;
    IndexOfUnique(Frame(p), '\n', |p|);
    LinesStep(Frame(p));
    assert Frame(p)[|p| + 1..] == "";
    NoNewline("");
  }

  /** Framing one more payload adds it as one more complete line. */
  lemma FrameAllStep(init: seq<string>, last: string)
    requires Lines(FrameAll(init)) == init && Rest(FrameAll(init)) == "" && '\n' !in last
    ensures Lines(FrameAll(init + [last])) == init + [last] && Rest(FrameAll(init + [last])) == ""
  {
    var ps := init + [last];
    assert ps[..|ps| - 1] == init && ps[|ps| - 1] == last;
    var a, f := FrameAll(init), Frame(last);
    assert FrameAll(ps) == a + f;
    LinesAppend(a, f);
    assert Rest(a) + f == f;
    FrameLines(last);
  }

  /** A read appends to the buffer: the lines seen so far are those of the
      earlier reads followed by those of the new buffer. */
  lemma ReadStep(chunks: seq<string>, r: nat)
    requires r < |chunks|
    ensures var before := Concat(chunks[..r]);
            && Lines(Concat(chunks[..r + 1])) == Lines(before) + Lines(Rest(before) + chunks[r])
            && Rest(Concat(chunks[..r + 1])) == Rest(Rest(before) + chunks[r])
  {
    assert chunks[..r + 1][..r] == chunks[..r];
    LinesAppend(Concat(chunks[..r]), chunks[r]);
  }

  /** Cutting the buffer at its first '\n' moves one line to those done. */
  lemma CutStep(text: string, done: seq<string>, buffer: string)
    requires '\n' in buffer
    requires Lines(text) == done + Lines(buffer) && Rest(text) == Rest(buffer)
    ensures var k := IndexOf(buffer, '\n');
            Lines(text) == (done + [buffer[..k]]) + Lines(buffer[k + 1..]) && Rest(text) == Rest(buffer[k + 1..])
  {
    LinesStep(buffer);
  }

  /** A buffer without '\n' holds no further line. */
  lemma CutDone(text: string, done: seq<string>, buffer: string)
    requires '\n' !in buffer
    requires Lines(text) == done + Lines(buffer) && Rest(text) == Rest(buffer)
    ensures Lines(text) == done && Rest(text) == buffer
  {
    NoNewline(buffer);
    assert done + [] == done;
  }

  /** Framing round trip: the complete lines of the framed payloads are the
      payloads, and nothing is left over, when no payload holds a '\n'. */
  lemma {:induction false} FrameAllLines(ps: seq<string>)
    requires forall i :: 0 <= i < |ps| ==> '\n' !in ps[i]
    ensures Lines(FrameAll(ps)) == ps && Rest(FrameAll(ps)) == ""
  {
    if ps == [] {
      NoNewline("");
    } else {
      var init, last := ps[..|ps| - 1], ps[|ps| - 1];
      assert forall i :: 0 <= i < |init| ==> init[i] == ps[i];
      FrameAllLines(init);
      FrameAllStep(init, last);
      assert ps == init + [last];
    }
  }

  /** Serialised values never hold a raw '\n', so their frames come back intact. */
  lemma StringifiedFramesRoundTrip(vs: seq<JsValue>)
    ensures var ps := seq(|vs|, i requires 0 <= i < |vs| => Stringify(vs[i]));
            Lines(FrameAll(ps)) == ps && Rest(FrameAll(ps)) == ""
  {
    var ps := seq(|vs|, i requires 0 <= i < |vs| => Stringify(vs[i]));
    forall i | 0 <= i < |ps| ensures '\n' !in ps[i] {
      StringifyNoNewline(vs[i]);
    }
    FrameAllLines(ps);
  }
}
