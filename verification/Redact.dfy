/** The log redactor: what it keeps of a line with URLs in it, and what it cannot depend on. */
module Redact {

  /** The characters of the Unicode White_Space property. */
  predicate IsSpace(c: char) {
    || '\t' <= c <= '\r' || c == ' ' || c == '\U{85}' || c == '\U{A0}' || c == '\U{1680}'
    || '\U{2000}' <= c <= '\U{200A}' || c == '\U{2028}' || c == '\U{2029}' || c == '\U{202F}'
    || c == '\U{205F}' || c == '\U{3000}'
  }

  /** The same set, by its code points. */
  lemma SpaceCodes(c: char)
    ensures IsSpace(c) <==>
      c as int in {9, 10, 11, 12, 13, 32, 133, 160, 5760, 8192, 8193, 8194, 8195, 8196, 8197, 8198, 8199, 8200, 8201, 8202,
                   8232, 8233, 8239, 8287, 12288}
  {
    var n := c as int;
    assert IsSpace(c) ==> n <= 13 || n == 32 || n == 133 || n == 160 || n == 5760 || 8192 <= n <= 8202
                          || n == 8232 || n == 8233 || n == 8239 || n == 8287 || n == 12288;
  }

  predicate IsDelim(c: char) {
    c == '/' || c == '?' || c == '#'
  }

  const SCHEME := "://"
  const MARK := "/\U{2026}"

  predicate SchemeAt(s: string, i: nat) {
    i + 3 <= |s| && s[i] == ':' && s[i + 1] == '/' && s[i + 2] == '/'
  }

  /** Index of the first scheme separator, or the length. */
  function FindScheme(s: string): (i: nat)
    ensures i <= |s|
    ensures i < |s| ==> SchemeAt(s, i)
  {
    if s == [] then 0 else if SchemeAt(s, 0) then 0 else 1 + FindScheme(s[1..])
  }

  function FindDelim(s: string): (i: nat)
    ensures i <= |s|
    ensures i < |s| ==> IsDelim(s[i])
  {
    if s == [] then 0 else if IsDelim(s[0]) then 0 else 1 + FindDelim(s[1..])
  }

  function FindSpace(s: string): (i: nat)
    ensures i <= |s|
    ensures i < |s| ==> IsSpace(s[i])
  {
    if s == [] then 0 else if IsSpace(s[0]) then 0 else 1 + FindSpace(s[1..])
  }

  /** Where the first URL's host ends: the first delimiter behind its separator. */
  function HostEnd(s: string): (i: nat)
    requires FindScheme(s) < |s|
    ensures FindScheme(s) + 3 <= i <= |s|
    ensures i < |s| ==> IsDelim(s[i])
  {
    FindScheme(s) + 3 + FindDelim(s[FindScheme(s) + 3..])
  }

  /** Where its tail ends: the first white space behind the host. No tail means the end of the line. */
  function TailEnd(s: string): (i: nat)
    requires FindScheme(s) < |s|
    ensures HostEnd(s) <= i <= |s|
    ensures i == HostEnd(s) ==> i == |s|
    ensures i < |s| ==> IsSpace(s[i])
  {
    HostEnd(s) + FindSpace(s[HostEnd(s)..])
  }

  function Redacted(s: string): string {
    if FindScheme(s) == |s| then s
    else s[..HostEnd(s)] + (if TailEnd(s) > HostEnd(s) then MARK else "") + Redacted(s[TailEnd(s)..])
  }

  /** The loop over `out` and `rest`. */
  method RedactLine(line: string) returns (r: string)
    ensures r == Redacted(line)
  {
    if FindScheme(line) == |line| {
      return line;
    }
    var out, rest := "", line;
    while FindScheme(rest) < |rest|
      invariant out + Redacted(rest) == Redacted(line)
      decreases |rest|
    {
      var hostEnd, tailEnd := HostEnd(rest), TailEnd(rest);
      RegroupUrl(out, rest[..hostEnd], if tailEnd > hostEnd then MARK else "", Redacted(rest[tailEnd..]));
      out := out + rest[..hostEnd];
      if tailEnd > hostEnd {
        out := out + MARK;
      } else {
        assert out + "" == out;
      }
      rest := rest[tailEnd..];
    }
    r := out + rest;
  }

  lemma RegroupUrl(a: string, b: string, c: string, d: string)
    ensures a + (b + c + d) == a + b + c + d
  {
  }

  // ---- finding things in a concatenation ------------------------------------------------------

  predicate NoDelim(s: string) {
    forall c :: c in s ==> !IsDelim(c)
  }

  predicate NoSpace(s: string) {
    forall c :: c in s ==> !IsSpace(c)
  }

  /** A URL tail: a run without white space that starts at a delimiter. */
  predicate IsTail(t: string) {
    t != [] && IsDelim(t[0]) && NoSpace(t)
  }

  /** What may follow a run: nothing, or white space. */
  predicate EndsRun(s: string) {
    s == [] || IsSpace(s[0])
  }

  lemma {:induction false} FindDelimConcat(a: string, b: string)
    ensures FindDelim(a + b) == if FindDelim(a) < |a| then FindDelim(a) else |a| + FindDelim(b)
  {
    if a == [] {
      assert a + b == b;
    } else {
      assert (a + b)[1..] == a[1..] + b;
      FindDelimConcat(a[1..], b);
    }
  }

  lemma {:induction false} FindSpaceConcat(a: string, b: string)
    ensures FindSpace(a + b) == if FindSpace(a) < |a| then FindSpace(a) else |a| + FindSpace(b)
  {
    if a == [] {
      assert a + b == b;
    } else {
      assert (a + b)[1..] == a[1..] + b;
      FindSpaceConcat(a[1..], b);
    }
  }

  lemma {:induction false} NoneFound(s: string)
    ensures NoDelim(s) ==> FindDelim(s) == |s|
    ensures NoSpace(s) ==> FindSpace(s) == |s|
  {
    if s == [] {
    } else {
      assert s == [s[0]] + s[1..];
      NoneFound(s[1..]);
    }
  }

  lemma {:induction false} HostHasNoDelim(s: string)
    ensures NoDelim(s[..FindDelim(s)])
  {
    if s == [] {
    } else if !IsDelim(s[0]) {
      HostHasNoDelim(s[1..]);
      assert s[..FindDelim(s)] == [s[0]] + s[1..][..FindDelim(s[1..])];
    }
  }

  /** Before a separator that is first in `p + "://"`, the search in a longer string stops at the same place. */
  lemma {:induction false} FindSchemeConcat(p: string, x: string)
    ensures FindScheme(p + SCHEME + x) == if FindScheme(p) < |p| then FindScheme(p) else |p|
  {
    var s := p + SCHEME + x;
    if p == [] {
      assert SchemeAt(s, 0);
    } else {
      assert s[1..] == p[1..] + SCHEME + x;
      FindSchemeConcat(p[1..], x);
      assert s[0] == p[0];
      assert SchemeAt(s, 0) <==> SchemeAt(p, 0) by {
        if |p| == 1 {
          assert s[1] == ':';
        } else if |p| == 2 {
          assert s[2] == ':';
        } else {
          assert s[1] == p[1] && s[2] == p[2];
        }
      }
    }
  }

  // ---- one URL ------------------------------------------------------------------------------------

  /** A tail that runs over `run` and stops before `post` disappears with it. */
  lemma RunDisappears(line: string, run: string, post: string)
    requires FindScheme(line) < |line| && line[HostEnd(line)..] == run + post
    requires run != [] && NoSpace(run) && EndsRun(post)
    ensures Redacted(line) == line[..HostEnd(line)] + MARK + Redacted(post)
  {
    FindSpaceConcat(run, post);
    NoneFound(run);
    assert line[TailEnd(line)..] == (run + post)[|run|..];
    assert (run + post)[|run|..] == post;
  }

  lemma FirstHostEnd(p: string, host: string, x: string)
    requires FindScheme(p) == |p| && NoDelim(host) && x != [] && IsDelim(x[0])
    ensures FindScheme(p + SCHEME + (host + x)) == |p|
    ensures HostEnd(p + SCHEME + (host + x)) == |p| + 3 + |host|
  {
    FindSchemeConcat(p, host + x);
    assert (p + SCHEME + (host + x))[|p| + 3..] == host + x;
    FindDelimConcat(host, x);
    NoneFound(host);
  }

  /** The first URL of a line keeps scheme and host and loses its tail; the rest is redacted alone. */
  lemma FirstUrl(p: string, host: string, tail: string, post: string)
    requires FindScheme(p) == |p| && (forall c :: c in host ==> c !in "/?#")
    requires tail != [] && tail[0] in "/?#" && NoSpace(tail) && EndsRun(post)
    ensures Redacted(p + "://" + (host + (tail + post))) == p + "://" + host + "/\U{2026}" + Redacted(post)
  {
    var s := p + SCHEME + (host + (tail + post));
    FirstHostEnd(p, host, tail + post);
    var h := HostEnd(s);
    assert s[..h] == p + SCHEME + host;
    assert s[h..] == tail + post;
    RunDisappears(s, tail, post);
  }

  /** A line that starts with white space still does after redaction. */
  lemma RedactedKeepsStart(s: string)
    requires s != [] && IsSpace(s[0])
    ensures Redacted(s) != [] && Redacted(s)[0] == s[0]
  {
  }

  // ---- the three promises -----------------------------------------------------------------------------

  lemma NoSchemeUnchanged(s: string)
    requires forall i :: 0 <= i < |s| ==> !SchemeAt(s, i)
    ensures Redacted(s) == s
  {
  }

  lemma HeadSplits(s: string)
    requires FindScheme(s) < |s|
    ensures var p, host := s[..FindScheme(s)], s[FindScheme(s) + 3..HostEnd(s)];
      s[..HostEnd(s)] == p + SCHEME + host && FindScheme(p) == |p| && NoDelim(host)
  {
    var at := FindScheme(s);
    FirstSeparatorIsFirst(s);
    HostHasNoDelim(s[at + 3..]);
    assert s[at + 3..][..FindDelim(s[at + 3..])] == s[at + 3..HostEnd(s)];
  }

  lemma Regroup(p: string, host: string, t: string, post: string)
    ensures p + SCHEME + host + t + post == p + SCHEME + (host + (t + post))
  {
  }

  /** The mark is itself a tail: what is redacted stays as it is if the rest does. */
  lemma MarkStays(p: string, host: string, done: string)
    requires FindScheme(p) == |p| && NoDelim(host) && EndsRun(done) && Redacted(done) == done
    ensures Redacted(p + SCHEME + host + MARK + done) == p + SCHEME + host + MARK + done
  {
    Regroup(p, host, MARK, done);
    FirstUrl(p, host, MARK, done);
  }

  /** Redacting twice is redacting once. */
  lemma {:induction false} RedactIdempotent(s: string)
    ensures Redacted(Redacted(s)) == Redacted(s)
    decreases |s|
  {
    if FindScheme(s) < |s| {
      var rest := s[TailEnd(s)..];
      if TailEnd(s) > HostEnd(s) {
        RedactIdempotent(rest);
        HeadSplits(s);
        if rest != [] {
          RedactedKeepsStart(rest);
        }
        var p, host := s[..FindScheme(s)], s[FindScheme(s) + 3..HostEnd(s)];
        assert Redacted(s) == p + SCHEME + host + MARK + Redacted(rest);
        MarkStays(p, host, Redacted(rest));
      } else {
        NoTailUnchanged(s);
      }
    }
  }

  lemma NoTailUnchanged(s: string)
    requires FindScheme(s) < |s| && TailEnd(s) == HostEnd(s)
    ensures Redacted(s) == s
  {
    assert s[TailEnd(s)..] == [] && s[..HostEnd(s)] == s;
  }

  lemma {:induction false} FirstSeparatorIsFirst(s: string)
    ensures FindScheme(s[..FindScheme(s)]) == FindScheme(s)
  {
    if s == [] {
    } else if !SchemeAt(s, 0) {
      var n := FindScheme(s);
      FirstSeparatorIsFirst(s[1..]);
      assert s[..n][1..] == s[1..][..n - 1];
    }
  }

  /** Where the first URL's host ends once `://` and more follow `p`: in `p`, or in that separator. */
  function HostEndIn(p: string): (h: nat)
    requires FindScheme(p) < |p|
    ensures h < |p| || h == |p| + 1
    ensures h < |p| ==> IsDelim(p[h])
  {
    var behind := FindScheme(p) + 3;
    var d := FindDelim(p[behind..]);
    if behind + d == |p| then |p| + 1 else behind + d
  }

  /** Does the first URL's tail end inside `p`? */
  predicate EndsInside(p: string)
    requires FindScheme(p) < |p|
  {
    HostEndIn(p) < |p| && FindSpace(p[HostEndIn(p)..]) < |p[HostEndIn(p)..]|
  }

  /** What is left of `p` behind that tail. */
  function RestOf(p: string): (r: string)
    requires FindScheme(p) < |p| && EndsInside(p)
    ensures |r| < |p|
  {
    var tail := p[HostEndIn(p)..];
    assert !IsSpace(tail[0]);
    tail[FindSpace(tail)..]
  }

  lemma HostEndBehind(p: string, x: string)
    requires FindScheme(p) < |p|
    ensures FindScheme(p + SCHEME + x) == FindScheme(p)
    ensures HostEnd(p + SCHEME + x) == HostEndIn(p)
  {
    var line := p + SCHEME + x;
    FindSchemeConcat(p, x);
    var behind := FindScheme(p) + 3;
    assert line[behind..] == p[behind..] + (SCHEME + x);
    FindDelimConcat(p[behind..], SCHEME + x);
    var y := SCHEME + x;
    assert y[0] == ':' && y[1..][0] == '/';
    assert FindDelim(y) == 1;
  }

  lemma Assoc(a: string, b: string, c: string, d: string)
    ensures a + (b + (c + d)) == a + b + c + d
  {
  }

  lemma CutLine(head: string, x: string, h: nat)
    requires h <= |head|
    ensures (head + x)[..h] == head[..h] && (head + x)[h..] == head[h..] + x
  {
  }

  lemma NoSpaceConcat(a: string, b: string)
    requires NoSpace(a) && NoSpace(b)
    ensures NoSpace(a + b)
  {
  }

  lemma SeparatorNoSpace()
    ensures NoSpace(SCHEME) && NoSpace("//")
  {
  }

  lemma CoveringNoSpace(p: string, run: string)
    requires FindScheme(p) < |p| && !EndsInside(p) && run == (p + SCHEME)[HostEndIn(p)..]
    ensures NoSpace(run) && run != []
  {
    var h := HostEndIn(p);
    SeparatorNoSpace();
    if h < |p| {
      var tail := p[h..];
      NoneFoundBack(tail);
      CutLine(p, SCHEME, h);
      NoSpaceConcat(tail, SCHEME);
      assert run == tail + SCHEME;
    } else {
      assert run == "//";
    }
  }

  lemma CoveringUrl(p: string, host: string, t: string, post: string)
    requires FindScheme(p) < |p| && !EndsInside(p)
    requires NoSpace(host) && IsTail(t) && EndsRun(post)
    ensures Redacted(p + SCHEME + (host + (t + post))) == (p + SCHEME)[..HostEndIn(p)] + MARK + Redacted(post)
  {
    var head, h := p + SCHEME, HostEndIn(p);
    HostEndBehind(p, host + (t + post));
    CutLine(head, host + (t + post), h);
    Assoc(head[h..], host, t, post);
    CoveringNoSpace(p, head[h..]);
    RunDisappears(head + (host + (t + post)), head[h..] + host + t, post);
  }

  lemma {:induction false} NoneFoundBack(s: string)
    requires FindSpace(s) == |s|
    ensures NoSpace(s)
  {
    if s == [] {
    } else {
      NoneFoundBack(s[1..]);
      assert s == [s[0]] + s[1..];
    }
  }

  lemma InsideUrl(p: string, x: string)
    requires FindScheme(p) < |p| && EndsInside(p)
    ensures Redacted(p + SCHEME + x) == p[..HostEndIn(p)] + MARK + Redacted(RestOf(p) + SCHEME + x)
  {
    var h, rest := HostEndIn(p), RestOf(p);
    HostEndBehind(p, x);
    var tail := p[h..];
    var run := tail[..FindSpace(tail)];
    FoundFirst(tail);
    assert tail == run + rest;
    CutLine(p, SCHEME + x, h);
    Assoc(p, "", SCHEME, x);
    assert p + "" == p && "" + (SCHEME + x) == SCHEME + x;
    Assoc(run, rest, SCHEME, x);
    assert run + (rest + (SCHEME + x)) == (run + rest) + (SCHEME + x);
    assert rest + (SCHEME + x) == rest + SCHEME + x;
    assert !IsSpace(tail[0]);
    RunDisappears(p + SCHEME + x, run, rest + SCHEME + x);
  }

  lemma {:induction false} FoundFirst(s: string)
    ensures NoSpace(s[..FindSpace(s)])
  {
    if s == [] {
    } else if !IsSpace(s[0]) {
      FoundFirst(s[1..]);
      assert s[..FindSpace(s)] == [s[0]] + s[1..][..FindSpace(s[1..])];
    }
  }

  /**
   The redacted line does not depend on the tail of any URL in it: behind any text, `://` and a
   host, one tail may be replaced by any other.
   */
  lemma {:induction false} TailDoesNotShow(p: string, host: string, t: string, u: string, post: string)
    requires (forall c :: c in host ==> c !in "/?#") && NoSpace(host) && EndsRun(post)
    requires t != [] && t[0] in "/?#" && NoSpace(t) && u != [] && u[0] in "/?#" && NoSpace(u)
    ensures Redacted(p + SCHEME + (host + (t + post))) == Redacted(p + SCHEME + (host + (u + post)))
    decreases |p|
  {
    if FindScheme(p) == |p| {
      FirstUrl(p, host, t, post);
      FirstUrl(p, host, u, post);
    } else if !EndsInside(p) {
      CoveringUrl(p, host, t, post);
      CoveringUrl(p, host, u, post);
    } else {
      InsideUrl(p, host + (t + post));
      InsideUrl(p, host + (u + post));
      TailDoesNotShow(RestOf(p), host, t, u, post);
    }
  }
}
