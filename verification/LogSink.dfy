/**
 The rotating log file. What the operating system decides (does a rename, an open or a write
 succeed) comes in as the `Weather` of each call. A file is its bytes; an absent file has none.
 */
module LogSink {

  newtype byte = x: int | 0 <= x < 256

  const MAX_BYTES := 4 * 1024 * 1024
  const NEWLINE: byte := 10

  /** Outcomes of one call: rename away, open anew, rename back, and how much of the line was written. */
  datatype Weather = Weather(renamed: bool, reopened: bool, restored: bool, wrote: Wrote)

  /** A write succeeds whole, or fails after some bytes reached the file. */
  datatype Wrote = Whole | Part(bytes: nat)

  /**
   `astray` is set while the open handle points at the previous file: the live one was renamed
   away, no new one could be reopened, and the renaming back failed too. Then there is no live file.
   */
  datatype Files = Files(previous: seq<byte>, live: seq<byte>, astray: bool, written: nat) {
    /** The file the handle appends to. */
    function Open(): seq<byte> {
      if astray then previous else live
    }

    /** Everything the two files hold, oldest first. */
    function Kept(): seq<byte> {
      previous + live
    }

    ghost predicate Valid() {
      astray ==> live == []
    }
  }

  function Needed(f: Files, line: seq<byte>): bool {
    f.written + |line| + 1 > MAX_BYTES
  }

  function Rotated(f: Files, w: Weather): Files {
    if f.astray || !w.renamed then f
    else if w.reopened then Files(f.live, [], false, 0)
    else if w.restored then Files([], f.live, false, f.written)
    else Files(f.live, [], true, f.written)
  }

  /** The bytes of `line` and its newline that reach the file. */
  function Landed(line: seq<byte>, w: Weather): seq<byte> {
    var whole := line + [NEWLINE];
    match w.wrote
    case Whole => whole
    case Part(n) => if n < |whole| then whole[..n] else whole
  }

  function Appended(f: Files, bytes: seq<byte>): Files {
    if f.astray then f.(previous := f.previous + bytes) else f.(live := f.live + bytes)
  }

  function AfterLine(f: Files, line: seq<byte>, w: Weather): Files {
    var g := if Needed(f, line) then Rotated(f, w) else f;
    var h := Appended(g, Landed(line, w));
    if w.wrote.Whole? then h.(written := h.written + |line| + 1) else h
  }

  datatype Event = Event(line: seq<byte>, weather: Weather)

  function Run(f: Files, events: seq<Event>): Files {
    if events == [] then f
    else AfterLine(Run(f, events[..|events| - 1]), events[|events| - 1].line, events[|events| - 1].weather)
  }

  /** Everything that reached a file, in order. */
  function AllLanded(events: seq<Event>): seq<byte> {
    if events == [] then []
    else AllLanded(events[..|events| - 1]) + Landed(events[|events| - 1].line, events[|events| - 1].weather)
  }

  // ---- the object ------------------------------------------------------------------------------

  class Sink {
    var files: Files

    /** Open for append: the file keeps its bytes, and its length is the count to go on from. */
    constructor (previous: seq<byte>, live: seq<byte>)
      ensures files == Files(previous, live, false, |live|)
    {
      files := Files(previous, live, false, |live|);
    }

    method Rotate(w: Weather)
      modifies this
      ensures files == Rotated(old(files), w)
    {
      if files.astray || !w.renamed {
        return;
      }
      var aside := files.live;
      if w.reopened {
        files := files.(previous := aside, live := []);
        files := files.(written := 0);
      } else {
        files := files.(previous := aside, live := [], astray := true);
        if w.restored {
          files := files.(previous := [], live := aside, astray := false);
        }
      }
    }

    method WriteLine(line: seq<byte>, w: Weather)
      modifies this
      ensures files == AfterLine(old(files), line, w)
    {
      if files.written + |line| + 1 > MAX_BYTES {
        Rotate(w);
      }
      if files.astray {
        files := files.(previous := files.previous + Landed(line, w));
      } else {
        files := files.(live := files.live + Landed(line, w));
      }
      if w.wrote.Whole? {
        files := files.(written := files.written + |line| + 1);
      }
    }
  }

  // ---- nothing in the middle is lost ---------------------------------------------------------------

  ghost predicate IsSuffix(s: seq<byte>, t: seq<byte>) {
    |s| <= |t| && s == t[|t| - |s|..]
  }

  lemma SuffixAppend(s: seq<byte>, t: seq<byte>, x: seq<byte>)
    requires IsSuffix(s, t)
    ensures IsSuffix(s + x, t + x)
  {
    assert (t + x)[|t| - |s|..] == t[|t| - |s|..] + x;
  }

  lemma SuffixDrop(a: seq<byte>, b: seq<byte>, t: seq<byte>)
    requires IsSuffix(a + b, t)
    ensures IsSuffix(b, t)
  {
    assert b == (a + b)[|a|..];
  }

  lemma KeptAfterWrite(f: Files, line: seq<byte>, w: Weather, all: seq<byte>)
    requires f.Valid() && IsSuffix(f.Kept(), all)
    ensures AfterLine(f, line, w).Valid()
    ensures IsSuffix(AfterLine(f, line, w).Kept(), all + Landed(line, w))
  {
    var g := if Needed(f, line) then Rotated(f, w) else f;
    assert IsSuffix(g.Kept(), all) by {
      SuffixDrop(f.previous, f.live, all);
      assert [] + f.live == f.live && f.live + [] == f.live;
    }
    SuffixAppend(g.Kept(), all, Landed(line, w));
    assert g.live == [] ==> (g.previous + Landed(line, w)) + [] == g.Kept() + Landed(line, w);
    assert g.previous + (g.live + Landed(line, w)) == g.Kept() + Landed(line, w);
  }

  lemma Regroup(a: seq<byte>, b: seq<byte>, c: seq<byte>)
    ensures a + b + c == a + (b + c)
  {
  }

  /**
   Whatever fails, the two files together hold an unbroken end of everything there was and
   everything written since.
   */
  lemma {:induction false} KeepsTheEnd(f: Files, events: seq<Event>)
    requires f.Valid()
    ensures Run(f, events).Valid() && IsSuffix(Run(f, events).Kept(), f.Kept() + AllLanded(events))
  {
    if events == [] {
      assert f.Kept() + [] == f.Kept();
    } else {
      var n := |events| - 1;
      KeepsTheEnd(f, events[..n]);
      var kept, before, last := f.Kept(), AllLanded(events[..n]), Landed(events[n].line, events[n].weather);
      KeptAfterWrite(Run(f, events[..n]), events[n].line, events[n].weather, kept + before);
      Regroup(kept, before, last);
    }
  }

  /** A line that was written whole stands at the end of the open file, closed by a line feed. */
  lemma WholeLineStandsLast(f: Files, line: seq<byte>, w: Weather)
    requires f.Valid() && w.wrote.Whole?
    ensures IsSuffix(line + [10], AfterLine(f, line, w).Open())
  {
    var g := if Needed(f, line) then Rotated(f, w) else f;
    SuffixOfAppend(g.Open(), line + [10]);
    assert AfterLine(f, line, w).Open() == g.Open() + (line + [10]);
  }

  /** Of a line that was written in part, at most that many bytes stand in the file, and they are its first. */
  lemma PartStandsLast(f: Files, line: seq<byte>, w: Weather)
    requires w.wrote.Part? && !Needed(f, line)
    ensures var n := w.wrote.bytes; var k := if n > |line| then |line| + 1 else n;
      AfterLine(f, line, w).Open() == f.Open() + (line + [10])[..k]
  {
    var whole := line + [10];
    assert whole[..|whole|] == whole;
  }

  lemma SuffixOfAppend(a: seq<byte>, b: seq<byte>)
    ensures IsSuffix(b, a + b)
  {
    assert (a + b)[|a|..] == b;
  }

  // ---- the counter --------------------------------------------------------------------------------------

  /** Bytes in the open file that a failed write left uncounted since it was reopened. */
  function Uncounted(f: Files, events: seq<Event>): nat {
    if events == [] then 0
    else
      var n := |events| - 1;
      var before, e := Run(f, events[..n]), events[n];
      (if Needed(before, e.line) && !before.astray && e.weather.renamed && e.weather.reopened then 0 else Uncounted(f, events[..n]))
      + (if e.weather.wrote.Whole? then 0 else |Landed(e.line, e.weather)|)
  }

  /**
   The counter is the open file's length, less what failed writes left behind in it; so it is
   exact precisely when no failed write left anything in the file that is open now.
   */
  lemma {:induction false} CounterIsLength(f: Files, events: seq<Event>)
    requires f.written == |f.Open()|
    ensures Run(f, events).written + Uncounted(f, events) == |Run(f, events).Open()|
  {
    if events == [] {
    } else {
      CounterIsLength(f, events[..|events| - 1]);
    }
  }

  /**
   While the counter is exact and the file within bounds, writing a line that fits keeps the file within
   bounds if and only if no rotation is needed or the one that is needed succeeds.
   */
  lemma BoundKept(f: Files, line: seq<byte>, w: Weather)
    requires f.written == |f.Open()| && |f.Open()| <= MAX_BYTES && |line| + 1 <= MAX_BYTES && w.wrote.Whole?
    ensures |AfterLine(f, line, w).Open()| <= MAX_BYTES <==>
      !Needed(f, line) || (!f.astray && w.renamed && w.reopened)
  {
  }

  ghost predicate Smooth(e: Event) {
    e.weather.renamed && e.weather.reopened && e.weather.wrote.Whole? && |e.line| + 1 <= MAX_BYTES
  }

  ghost predicate Bounded(f: Files) {
    !f.astray && f.written == |f.live| <= 4_194_304
  }

  lemma SmoothStep(f: Files, e: Event)
    requires Bounded(f) && Smooth(e)
    ensures Bounded(AfterLine(f, e.line, e.weather))
  {
    BoundKept(f, e.line, e.weather);
  }

  /** In a history where every rotation and write succeeds, the live file never exceeds the limit. */
  lemma {:induction false} LiveStaysBounded(f: Files, events: seq<Event>)
    requires Bounded(f) && forall i :: 0 <= i < |events| ==> Smooth(events[i])
    ensures Bounded(Run(f, events))
  {
    if events == [] {
    } else {
      var n := |events| - 1;
      LiveStaysBounded(f, events[..n]);
      SmoothStep(Run(f, events[..n]), events[n]);
    }
  }

  // ---- astray -------------------------------------------------------------------------------------------

  /** Call `i` needs a rotation, and that renames, cannot reopen, and cannot rename back. */
  ghost predicate StrandsAt(f: Files, events: seq<Event>, i: nat)
    requires i < |events|
  {
    var e := events[i];
    Needed(Run(f, events[..i]), e.line) && e.weather.renamed && !e.weather.reopened && !e.weather.restored
  }

  lemma StrandsEarlier(f: Files, events: seq<Event>, i: nat)
    requires i < |events| - 1
    ensures StrandsAt(f, events, i) == StrandsAt(f, events[..|events| - 1], i)
  {
    assert events[..|events| - 1][..i] == events[..i];
  }

  /** The handle is on the older file exactly if one of the calls so far was such a double failure. */
  lemma {:induction false} GoesAstrayIff(f: Files, events: seq<Event>)
    requires !f.astray
    ensures Run(f, events).astray <==> exists i: nat :: i < |events| && StrandsAt(f, events, i)
  {
    if events == [] {
    } else {
      var n := |events| - 1;
      var pre := events[..n];
      GoesAstrayIff(f, pre);
      forall i: nat | i < n ensures StrandsAt(f, events, i) == StrandsAt(f, pre, i) {
        StrandsEarlier(f, events, i);
      }
      assert Run(f, events).astray <==> Run(f, pre).astray || StrandsAt(f, events, n);
    }
  }

  /** And it never comes back: there is no live file again, and all that is written goes to the older one. */
  lemma {:induction false} AstrayForGood(f: Files, events: seq<Event>)
    requires f.Valid() && f.astray
    ensures Run(f, events).astray && Run(f, events).live == []
    ensures Run(f, events).previous == f.previous + AllLanded(events)
  {
    if events == [] {
      assert f.previous + [] == f.previous;
    } else {
      var n := |events| - 1;
      AstrayForGood(f, events[..n]);
      var landed := Landed(events[n].line, events[n].weather);
      assert f.previous + AllLanded(events[..n]) + landed == f.previous + (AllLanded(events[..n]) + landed);
    }
  }
}
