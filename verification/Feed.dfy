/** The change feed: one page of a team's log, and what a caller gets to see of it. */
module Feed {
  import opened Wrappers
  import opened Storage

  const DEFAULT_PAGE := 200
  const MAX_PAGE := 1000
  const TWO_TO_63 := 0x8000_0000_0000_0000

  datatype Page = Page(snippets: seq<SnippetRec>, groups: seq<GroupRec>, nextCursor: nat, more: bool)

  /** What decides visibility: the team's restricted groups and the caller's standing. */
  datatype Viewer = Viewer(restricted: set<string>, manager: bool, granted: set<string>) {
    predicate SeesGroup(gid: string) {
      gid !in restricted || manager || gid in granted
    }

    predicate Sees(rec: Record) {
      match rec
      case Snip(s) => s.groupId.None? || SeesGroup(s.groupId.value)
      case Grp(g) => SeesGroup(g.id)
    }

    /** A record as it should go out: the server alone decides the `restricted` flag. */
    function Dress(rec: Record): Record {
      match rec
      case Snip(s) => rec
      case Grp(g) => Grp(g.(restricted := g.id in restricted))
    }
  }

  /** The cursor is unsigned 64-bit on the wire and a signed 64-bit column in the store. */
  function AsI64(since: nat): int {
    if since < TWO_TO_63 then since else since - 2 * TWO_TO_63
  }

  function Clamp(limit: Option<nat>): (n: nat)
    ensures 1 <= n <= MAX_PAGE
  {
    var n := limit.UnwrapOr(DEFAULT_PAGE);
    if n < 1 then 1 else if n > MAX_PAGE then MAX_PAGE else n
  }

  function After(log: seq<Row>, since: int): seq<Row> {
    if log == [] then []
    else After(log[..|log| - 1], since) + (if log[|log| - 1].num > since then [log[|log| - 1]] else [])
  }

  function Snippets(recs: seq<Record>): seq<SnippetRec> {
    if recs == [] then []
    else
      var last := recs[|recs| - 1];
      Snippets(recs[..|recs| - 1]) + (if last.Snip? then [last.s] else [])
  }

  function Groups(recs: seq<Record>): seq<GroupRec> {
    if recs == [] then []
    else
      var last := recs[|recs| - 1];
      Groups(recs[..|recs| - 1]) + (if last.Grp? then [last.g] else [])
  }

  function Records(rows: seq<Row>): (recs: seq<Record>)
    ensures |recs| == |rows|
    ensures forall i :: 0 <= i < |rows| ==> recs[i] == rows[i].rec
  {
    seq(|rows|, i requires 0 <= i < |rows| => rows[i].rec)
  }

  function Cursor(rows: seq<Row>, since: nat): nat {
    if rows == [] then since
    else
      var before := Cursor(rows[..|rows| - 1], since);
      if before < rows[|rows| - 1].num then rows[|rows| - 1].num else before
  }

  function FirstRows(rows: seq<Row>, limit: nat): seq<Row> {
    if |rows| > limit then rows[..limit] else rows
  }

  /** `storage.changes`: one extra row is fetched to learn whether the page was cut. */
  function StoredPage(st: TeamStore, since: nat, limit: nat): (page: Page)
    ensures page.nextCursor >= since
  {
    var rows := After(st.log, AsI64(since));
    var got := FirstRows(rows, limit);
    CursorAtLeast(got, since);
    Page(Snippets(Records(got)), Groups(Records(got)), Cursor(got, since), |rows| > limit)
  }

  lemma {:induction false} CursorAtLeast(rows: seq<Row>, since: nat)
    ensures Cursor(rows, since) >= since
  {
    if rows == [] {
    } else {
      CursorAtLeast(rows[..|rows| - 1], since);
    }
  }

  function VisibleSnippets(v: Viewer, xs: seq<SnippetRec>): seq<SnippetRec> {
    if xs == [] then []
    else VisibleSnippets(v, xs[..|xs| - 1]) + (if v.Sees(Snip(xs[|xs| - 1])) then [xs[|xs| - 1]] else [])
  }

  function VisibleGroups(v: Viewer, xs: seq<GroupRec>): seq<GroupRec> {
    if xs == [] then []
    else
      var last := xs[|xs| - 1];
      VisibleGroups(v, xs[..|xs| - 1])
      + (if v.Sees(Grp(last)) then [last.(restricted := last.id in v.restricted)] else [])
  }

  /** The filter applied while the page is serialised; the cursor is not touched. */
  function Serve(v: Viewer, page: Page): (served: Page)
    ensures served.nextCursor == page.nextCursor && served.more == page.more
  {
    if v.restricted == {} then page
    else page.(snippets := VisibleSnippets(v, page.snippets), groups := VisibleGroups(v, page.groups))
  }

  // ---- the reference: everything the caller may see, in order --------------------------------

  function Shown(v: Viewer, rows: seq<Row>): seq<Record> {
    if rows == [] then []
    else
      var last := rows[|rows| - 1].rec;
      Shown(v, rows[..|rows| - 1]) + (if v.Sees(last) then [v.Dress(last)] else [])
  }

  /** No stored group carries the flag: pushes strip it. */
  ghost predicate Unflagged(log: seq<Row>) {
    forall i :: 0 <= i < |log| && log[i].rec.Grp? ==> !log[i].rec.g.restricted
  }

  lemma {:induction false} ShownConcat(v: Viewer, a: seq<Row>, b: seq<Row>)
    ensures Shown(v, a + b) == Shown(v, a) + Shown(v, b)
  {
    if b == [] {
      assert a + b == a;
    } else {
      assert (a + b)[..|a + b| - 1] == a + b[..|b| - 1];
      ShownConcat(v, a, b[..|b| - 1]);
    }
  }

  lemma {:induction false} PartsConcat(a: seq<Record>, b: seq<Record>)
    ensures Snippets(a + b) == Snippets(a) + Snippets(b)
    ensures Groups(a + b) == Groups(a) + Groups(b)
  {
    if b == [] {
      assert a + b == a;
    } else {
      assert (a + b)[..|a + b| - 1] == a + b[..|b| - 1];
      PartsConcat(a, b[..|b| - 1]);
    }
  }

  lemma ShownSnoc(v: Viewer, rows: seq<Row>, row: Row)
    ensures Shown(v, rows + [row]) == if v.Sees(row.rec) then Shown(v, rows) + [v.Dress(row.rec)] else Shown(v, rows)
  {
    assert (rows + [row])[..|rows|] == rows;
  }

  lemma PartsSnoc(recs: seq<Record>, r: Record)
    ensures Snippets(recs + [r]) == if r.Snip? then Snippets(recs) + [r.s] else Snippets(recs)
    ensures Groups(recs + [r]) == if r.Grp? then Groups(recs) + [r.g] else Groups(recs)
  {
    assert (recs + [r])[..|recs|] == recs;
  }

  lemma VisibleSnippetsSnoc(v: Viewer, xs: seq<SnippetRec>, x: SnippetRec)
    ensures VisibleSnippets(v, xs + [x]) == VisibleSnippets(v, xs) + (if v.Sees(Snip(x)) then [x] else [])
  {
    assert (xs + [x])[..|xs|] == xs;
  }

  lemma VisibleGroupsSnoc(v: Viewer, xs: seq<GroupRec>, x: GroupRec)
    ensures VisibleGroups(v, xs + [x]) ==
      VisibleGroups(v, xs) + (if v.Sees(Grp(x)) then [x.(restricted := x.id in v.restricted)] else [])
  {
    assert (xs + [x])[..|xs|] == xs;
  }

  /** Serving a page is showing its rows. */
  lemma {:induction false} ServeShows(v: Viewer, rows: seq<Row>)
    ensures VisibleSnippets(v, Snippets(Records(rows))) == Snippets(Shown(v, rows))
    ensures VisibleGroups(v, Groups(Records(rows))) == Groups(Shown(v, rows))
  {
    if rows == [] {
    } else {
      var n := |rows| - 1;
      var pre, last := rows[..n], rows[n].rec;
      ServeShows(v, pre);
      assert Records(rows) == Records(pre) + [last];
      assert rows == pre + [rows[n]];
      ShownSnoc(v, pre, rows[n]);
      PartsSnoc(Records(pre), last);
      PartsSnoc(Shown(v, pre), v.Dress(last));
      match last
      case Snip(s) => VisibleSnippetsSnoc(v, Snippets(Records(pre)), s);
      case Grp(g) => VisibleGroupsSnoc(v, Groups(Records(pre)), g);
    }
  }

  /** With nothing restricted the page goes out untouched, which shows everything. */
  lemma {:induction false} UnrestrictedShows(v: Viewer, rows: seq<Row>)
    requires v.restricted == {} && Unflagged(rows)
    ensures Shown(v, rows) == Records(rows)
  {
    if rows == [] {
    } else {
      UnrestrictedShows(v, rows[..|rows| - 1]);
      assert Records(rows) == Records(rows[..|rows| - 1]) + [rows[|rows| - 1].rec];
    }
  }

  lemma ServedRows(v: Viewer, rows: seq<Row>, cursor: nat, more: bool)
    requires v.restricted == {} ==> Unflagged(rows)
    ensures Serve(v, Page(Snippets(Records(rows)), Groups(Records(rows)), cursor, more))
         == Page(Snippets(Shown(v, rows)), Groups(Shown(v, rows)), cursor, more)
  {
    ServeShows(v, rows);
    if v.restricted == {} {
      UnrestrictedShows(v, rows);
    }
  }

  // ---- pages of an ordered log ------------------------------------------------------------------

  lemma {:induction false} AfterMembers(log: seq<Row>, since: int)
    ensures forall i :: 0 <= i < |After(log, since)| ==> After(log, since)[i] in log && After(log, since)[i].num > since
    ensures |After(log, since)| <= |log|
  {
    if log == [] {
    } else {
      AfterMembers(log[..|log| - 1], since);
    }
  }

  lemma AfterSnoc(log: seq<Row>, row: Row, since: int)
    ensures After(log + [row], since) == if row.num > since then After(log, since) + [row] else After(log, since)
  {
    assert (log + [row])[..|log|] == log;
  }

  lemma OrderedSnoc(log: seq<Row>, row: Row, lo: nat, hi: nat)
    requires Ordered(log, lo, hi) && lo < row.num <= hi && forall i :: 0 <= i < |log| ==> log[i].num < row.num
    ensures Ordered(log + [row], lo, hi)
  {
  }

  lemma {:induction false} AfterOrdered(log: seq<Row>, since: int, lo: nat, hi: nat)
    requires Ordered(log, lo, hi)
    ensures Ordered(After(log, since), lo, hi)
  {
    if log == [] {
    } else {
      var n := |log| - 1;
      var kept := After(log[..n], since);
      AfterOrdered(log[..n], since, lo, hi);
      AfterMembers(log[..n], since);
      forall i | 0 <= i < |kept| ensures kept[i].num < log[n].num {
        var j :| 0 <= j < n && log[j] == kept[i];
      }
      OrderedSnoc(kept, log[n], lo, hi);
      assert log == log[..n] + [log[n]];
      AfterSnoc(log[..n], log[n], since);
    }
  }

  lemma {:induction false} AfterAfter(log: seq<Row>, c: int, d: int)
    requires c <= d
    ensures After(log, d) == After(After(log, c), d)
  {
    if log == [] {
    } else {
      var pre, last := log[..|log| - 1], log[|log| - 1];
      assert log == pre + [last];
      AfterAfter(pre, c, d);
      AfterSnoc(pre, last, c);
      AfterSnoc(pre, last, d);
      AfterSnoc(After(pre, c), last, d);
    }
  }

  lemma {:induction false} AfterAll(rows: seq<Row>, since: int)
    requires forall i :: 0 <= i < |rows| ==> rows[i].num > since
    ensures After(rows, since) == rows
  {
    if rows == [] {
    } else {
      AfterAll(rows[..|rows| - 1], since);
      assert rows == rows[..|rows| - 1] + [rows[|rows| - 1]];
    }
  }

  /** The rows after the k-th row of an ordered log are the ones behind it. */
  lemma {:induction false} AfterNth(rows: seq<Row>, k: nat, lo: nat, hi: nat)
    requires k < |rows| && Ordered(rows, lo, hi)
    ensures After(rows, rows[k].num) == rows[k + 1..]
  {
    var n := |rows| - 1;
    if k == n {
      AfterNone(rows, rows[k].num);
    } else {
      AfterNth(rows[..n], k, lo, hi);
      assert rows[..n][k + 1..] + [rows[n]] == rows[k + 1..];
    }
  }

  lemma {:induction false} AfterNone(rows: seq<Row>, since: int)
    requires forall i :: 0 <= i < |rows| ==> rows[i].num <= since
    ensures After(rows, since) == []
  {
    if rows == [] {
    } else {
      AfterNone(rows[..|rows| - 1], since);
    }
  }

  lemma {:induction false} CursorIsLast(rows: seq<Row>, since: nat, lo: nat, hi: nat)
    requires Ordered(rows, lo, hi)
    requires forall i :: 0 <= i < |rows| ==> rows[i].num > since
    ensures Cursor(rows, since) == if rows == [] then since else rows[|rows| - 1].num
  {
    if rows == [] {
    } else {
      CursorIsLast(rows[..|rows| - 1], since, lo, hi);
    }
  }

  /** A store whose counter still fits the signed column. */
  ghost predicate Sound(st: TeamStore) {
    Valid(st) && st.counter < TWO_TO_63 && Unflagged(st.log)
  }

  /** The cursor of a cut page is its last row's number. */
  lemma LastOfPage(log: seq<Row>, since: nat, limit: nat, hi: nat)
    requires Ordered(log, 0, hi) && limit >= 1 && After(log, since) != []
    ensures var rows, got := After(log, since), FirstRows(After(log, since), limit);
      && 1 <= |got| <= |rows| && Cursor(got, since) == rows[|got| - 1].num
      && since < rows[|got| - 1].num <= hi
  {
    AfterMembers(log, since);
    AfterOrdered(log, since, 0, hi);
    var got := FirstRows(After(log, since), limit);
    assert Ordered(got, 0, hi);
    CursorIsLast(got, since, 0, hi);
  }

  /** Cutting a page off an ordered log leaves exactly the rows behind the page's last row. */
  lemma PageSplitsLog(log: seq<Row>, since: nat, limit: nat, hi: nat)
    requires Ordered(log, 0, hi) && limit >= 1
    ensures var rows := After(log, since);
      var got := FirstRows(rows, limit);
      Cursor(got, since) <= (if since <= hi then hi else since)
      && After(log, Cursor(got, since)) == rows[|got|..]
  {
    var rows := After(log, since);
    if rows == [] {
      assert FirstRows(rows, limit) == [] && rows[0..] == [];
    } else {
      var n := |FirstRows(rows, limit)|;
      LastOfPage(log, since, limit, hi);
      AfterOrdered(log, since, 0, hi);
      AfterAfter(log, since, rows[n - 1].num);
      AfterNth(rows, n - 1, 0, hi);
    }
  }

  lemma PageUnflagged(log: seq<Row>, since: int, limit: nat)
    requires Unflagged(log)
    ensures Unflagged(FirstRows(After(log, since), limit))
  {
    var rows := After(log, since);
    var got := FirstRows(rows, limit);
    AfterMembers(log, since);
    forall i | 0 <= i < |got| && got[i].rec.Grp? ensures !got[i].rec.g.restricted {
      assert got[i] == rows[i] && rows[i] in log;
    }
  }

  /** What one page is, in terms of the rows not yet pulled. */
  lemma PageIsPrefix(v: Viewer, st: TeamStore, since: nat, limit: nat)
    requires Sound(st) && since < TWO_TO_63 && limit >= 1
    ensures var rows := After(st.log, since);
      var page := Serve(v, StoredPage(st, since, limit));
      var got := FirstRows(rows, limit);
      && page.snippets == Snippets(Shown(v, got)) && page.groups == Groups(Shown(v, got))
      && page.more == (|rows| > limit)
      && page.nextCursor <= (if since <= st.counter then st.counter else since) < TWO_TO_63
      && After(st.log, page.nextCursor) == rows[|got|..]
  {
    var rows := After(st.log, since);
    var got := FirstRows(rows, limit);
    assert AsI64(since) == since;
    PageSplitsLog(st.log, since, limit, st.counter);
    PageUnflagged(st.log, since, limit);
    ServedRows(v, got, Cursor(got, since), |rows| > limit);
  }

  datatype Pulled = Pulled(snippets: seq<SnippetRec>, groups: seq<GroupRec>, cursor: nat)

  /** Pull pages until one is not cut, as a client does. */
  ghost function Walk(v: Viewer, st: TeamStore, since: nat, limit: nat): Pulled
    requires Sound(st) && since < TWO_TO_63 && limit >= 1
    decreases |After(st.log, since)|
  {
    var page := Serve(v, StoredPage(st, since, limit));
    PageIsPrefix(v, st, since, limit);
    if page.more then
      var rest := Walk(v, st, page.nextCursor, limit);
      Pulled(page.snippets + rest.snippets, page.groups + rest.groups, rest.cursor)
    else Pulled(page.snippets, page.groups, page.nextCursor)
  }

  lemma ShownParts(v: Viewer, got: seq<Row>, rest: seq<Row>)
    ensures Snippets(Shown(v, got + rest)) == Snippets(Shown(v, got)) + Snippets(Shown(v, rest))
    ensures Groups(Shown(v, got + rest)) == Groups(Shown(v, got)) + Groups(Shown(v, rest))
  {
    ShownConcat(v, got, rest);
    PartsConcat(Shown(v, got), Shown(v, rest));
  }

  /**
   Whatever the page size, the walk from a cursor returns exactly what the caller may see of the
   rows behind that cursor: once each, in order, with the server's own `restricted` flag. The
   final cursor is behind everything, so the next pull starts with what is new.
   */
  lemma {:induction false} WalkShowsEverything(v: Viewer, st: TeamStore, since: nat, limit: nat)
    requires Sound(st) && since < TWO_TO_63 && limit >= 1
    ensures Walk(v, st, since, limit).snippets == Snippets(Shown(v, After(st.log, since)))
    ensures Walk(v, st, since, limit).groups == Groups(Shown(v, After(st.log, since)))
    ensures Walk(v, st, since, limit).cursor <= if since <= st.counter then st.counter else since
    ensures After(st.log, Walk(v, st, since, limit).cursor) == []
    decreases |After(st.log, since)|
  {
    var page := Serve(v, StoredPage(st, since, limit));
    var rows := After(st.log, since);
    var got := FirstRows(rows, limit);
    PageIsPrefix(v, st, since, limit);
    if page.more {
      WalkShowsEverything(v, st, page.nextCursor, limit);
      ShownParts(v, got, After(st.log, page.nextCursor));
      assert rows == got + After(st.log, page.nextCursor);
    }
  }

  /** From cursor 0 the walk covers the whole log. */
  lemma FullWalk(v: Viewer, st: TeamStore, limit: nat)
    requires Sound(st) && limit >= 1
    ensures Walk(v, st, 0, limit).snippets == Snippets(Shown(v, st.log))
    ensures Walk(v, st, 0, limit).groups == Groups(Shown(v, st.log))
  {
    WalkShowsEverything(v, st, 0, limit);
    AfterAll(st.log, 0);
  }

  /**
   A cursor from 2^63 on is negative in the store's column: the page starts over with the whole log,
   and its cursor does not move, so a walk from there gets the same page for ever.
   */
  lemma HugeCursorStartsOver(v: Viewer, st: TeamStore, since: nat, limit: nat)
    requires Sound(st) && TWO_TO_63 <= since < 2 * TWO_TO_63 && limit >= 1
    ensures var page := Serve(v, StoredPage(st, since, limit));
      var got := FirstRows(st.log, limit);
      && page.snippets == Snippets(Shown(v, got)) && page.groups == Groups(Shown(v, got))
      && page.more == (|st.log| > limit) && page.nextCursor == since
  {
    AfterAll(st.log, AsI64(since));
    var got := FirstRows(st.log, limit);
    CursorStays(got, since);
    ServedRows(v, got, since, |st.log| > limit);
  }

  lemma {:induction false} CursorStays(rows: seq<Row>, since: nat)
    requires forall i :: 0 <= i < |rows| ==> rows[i].num <= since
    ensures Cursor(rows, since) == since
  {
    if rows == [] {
    } else {
      CursorStays(rows[..|rows| - 1], since);
    }
  }

  lemma {:induction false} PartsCount(recs: seq<Record>)
    ensures |Snippets(recs)| + |Groups(recs)| == |recs|
  {
    if recs == [] {
    } else {
      PartsCount(recs[..|recs| - 1]);
    }
  }

  lemma {:induction false} ShownCount(v: Viewer, rows: seq<Row>)
    ensures |Shown(v, rows)| <= |rows|
  {
    if rows == [] {
    } else {
      ShownCount(v, rows[..|rows| - 1]);
    }
  }

  /** The limit is one for both kinds: a stored page is full with that many records together, and more exist. */
  lemma LimitIsJoint(v: Viewer, st: TeamStore, since: nat, limit: nat)
    requires v.restricted == {} ==> Unflagged(st.log)
    ensures var stored, served := StoredPage(st, since, limit), Serve(v, StoredPage(st, since, limit));
      && |stored.snippets| + |stored.groups| <= limit
      && (stored.more ==> |stored.snippets| + |stored.groups| == limit)
      && |served.snippets| + |served.groups| <= |stored.snippets| + |stored.groups|
  {
    var rows := After(st.log, AsI64(since));
    var got := FirstRows(rows, limit);
    if v.restricted == {} {
      PageUnflagged(st.log, AsI64(since), limit);
    }
    PartsCount(Records(got));
    ServedRows(v, got, Cursor(got, since), |rows| > limit);
    PartsCount(Shown(v, got));
    ShownCount(v, got);
  }

  /** Every group of the walk carries the flag of its membership in the restricted set. */
  lemma {:induction false} FlagIsMembership(v: Viewer, rows: seq<Row>, g: GroupRec)
    requires g in Groups(Shown(v, rows))
    ensures g.restricted <==> g.id in v.restricted
  {
    if rows == [] {
    } else {
      var n := |rows| - 1;
      var last := rows[n].rec;
      var recs := Shown(v, rows[..n]);
      assert rows == rows[..n] + [rows[n]];
      ShownSnoc(v, rows[..n], rows[n]);
      PartsSnoc(recs, v.Dress(last));
      if g in Groups(recs) {
        FlagIsMembership(v, rows[..n], g);
      }
    }
  }

  // ---- hidden records do not show -------------------------------------------------------------

  /** Two logs that differ only in records the viewer may not see. */
  ghost predicate AlikeFor(v: Viewer, a: seq<Row>, b: seq<Row>) {
    && |a| == |b|
    && forall i :: 0 <= i < |a| ==>
         a[i].num == b[i].num && (a[i].rec == b[i].rec || (!v.Sees(a[i].rec) && !v.Sees(b[i].rec)))
  }

  lemma {:induction false} AfterAlike(v: Viewer, a: seq<Row>, b: seq<Row>, since: int)
    requires AlikeFor(v, a, b)
    ensures AlikeFor(v, After(a, since), After(b, since))
  {
    if a == [] {
    } else {
      AfterAlike(v, a[..|a| - 1], b[..|b| - 1], since);
    }
  }

  lemma {:induction false} ShownAlike(v: Viewer, a: seq<Row>, b: seq<Row>)
    requires AlikeFor(v, a, b)
    ensures Shown(v, a) == Shown(v, b)
    ensures forall since: nat :: Cursor(a, since) == Cursor(b, since)
  {
    if a == [] {
    } else {
      ShownAlike(v, a[..|a| - 1], b[..|b| - 1]);
    }
  }

  /** Page by page, a caller cannot tell apart two stores that differ in hidden records only. */
  lemma HiddenRecordsDoNotShow(v: Viewer, a: TeamStore, b: TeamStore, since: nat, limit: nat)
    requires AlikeFor(v, a.log, b.log)
    requires Unflagged(a.log) && Unflagged(b.log)
    ensures Serve(v, StoredPage(a, since, limit)) == Serve(v, StoredPage(b, since, limit))
  {
    var s := AsI64(since);
    AfterAlike(v, a.log, b.log, s);
    var x, y := FirstRows(After(a.log, s), limit), FirstRows(After(b.log, s), limit);
    PageUnflagged(a.log, s, limit);
    PageUnflagged(b.log, s, limit);
    assert AlikeFor(v, x, y);
    ShownAlike(v, x, y);
    ServedRows(v, x, Cursor(x, since), |After(a.log, s)| > limit);
    ServedRows(v, y, Cursor(y, since), |After(b.log, s)| > limit);
  }
}
