/** What a page brings: current records only, and every visible row between the two cursors. */
module Paging {
  import opened Wrappers
  import opened Storage
  import opened Feed
  import opened Acknowledging
  import Pushing

  /** The page as the device works through it: groups first. */
  function Inbox(page: Page): seq<Record> {
    Pushing.Wrapped(page.groups, page.snippets)
  }

  lemma {:induction false} ShownMembers(v: Viewer, rows: seq<Row>, rec: Record)
    ensures rec in Shown(v, rows) <==> exists i :: 0 <= i < |rows| && v.Sees(rows[i].rec) && v.Dress(rows[i].rec) == rec
  {
    if rows == [] {
    } else {
      var n := |rows| - 1;
      ShownMembers(v, rows[..n], rec);
      assert forall i :: 0 <= i < n ==> rows[..n][i] == rows[i];
    }
  }

  lemma {:induction false} PartsMembers(recs: seq<Record>)
    ensures forall s :: s in Snippets(recs) <==> Snip(s) in recs
    ensures forall g :: g in Groups(recs) <==> Grp(g) in recs
  {
    if recs == [] {
    } else {
      PartsMembers(recs[..|recs| - 1]);
      assert recs == recs[..|recs| - 1] + [recs[|recs| - 1]];
    }
  }

  lemma InboxParts(page: Page, rec: Record)
    ensures rec in Inbox(page) <==> (if rec.Snip? then rec.s in page.snippets else rec.g in page.groups)
  {
    var inbox := Inbox(page);
    forall i | 0 <= i < |page.snippets| ensures Snip(page.snippets[i]) in inbox {
      assert inbox[|page.groups| + i] == Snip(page.snippets[i]);
    }
    forall i | 0 <= i < |page.groups| ensures Grp(page.groups[i]) in inbox {
      assert inbox[i] == Grp(page.groups[i]);
    }
  }

  lemma InboxMembers(page: Page, recs: seq<Record>, rec: Record)
    requires page.snippets == Snippets(recs) && page.groups == Groups(recs)
    ensures rec in Inbox(page) <==> rec in recs
  {
    PartsMembers(recs);
    InboxParts(page, rec);
  }

  lemma {:induction false} FindRow(log: seq<Row>, i: nat)
    requires OneRowPerKey(log) && i < |log|
    ensures Find(log, log[i].rec.Key()) == Some(log[i])
  {
    if i == 0 {
    } else {
      FindRow(log[1..], i - 1);
    }
  }

  lemma {:induction false} AfterHas(log: seq<Row>, since: int, row: Row)
    ensures row in After(log, since) <==> row in log && row.num > since
  {
    if log == [] {
    } else {
      AfterHas(log[..|log| - 1], since, row);
      assert log == log[..|log| - 1] + [log[|log| - 1]];
    }
  }

  lemma InboxShows(v: Viewer, st: TeamStore, since: nat, limit: nat, rec: Record)
    requires Sound(st) && since <= st.counter && limit >= 1
    ensures rec in Inbox(Serve(v, StoredPage(st, since, limit))) <==> rec in Shown(v, FirstRows(After(st.log, since), limit))
  {
    PageIsPrefix(v, st, since, limit);
    InboxMembers(Serve(v, StoredPage(st, since, limit)), Shown(v, FirstRows(After(st.log, since), limit)), rec);
  }

  lemma FirstRowsAreFirst(rows: seq<Row>, limit: nat)
    ensures FirstRows(rows, limit) == rows[..|FirstRows(rows, limit)|]
  {
  }

  lemma PageRows(v: Viewer, st: TeamStore, since: nat, limit: nat, row: Row)
    requires Sound(st) && since <= st.counter && limit >= 1
    ensures var got := FirstRows(After(st.log, since), limit);
      && (row in got ==> row in st.log && row.num > since)
      && (row in st.log && since < row.num <= Serve(v, StoredPage(st, since, limit)).nextCursor ==> row in got)
  {
    var rows := After(st.log, since);
    var got := FirstRows(rows, limit);
    PageIsPrefix(v, st, since, limit);
    AfterHas(st.log, since, row);
    AfterHas(st.log, Serve(v, StoredPage(st, since, limit)).nextCursor, row);
    FirstRowsAreFirst(rows, limit);
    SplitMembers(rows, |got|, row);
  }

  lemma SplitMembers(rows: seq<Row>, n: nat, row: Row)
    requires n <= |rows|
    ensures row in rows <==> row in rows[..n] || row in rows[n..]
  {
    assert rows == rows[..n] + rows[n..];
  }

  lemma {:induction false} CursorAbove(rows: seq<Row>, since: nat, row: Row)
    requires row in rows
    ensures row.num <= Cursor(rows, since)
  {
    var n := |rows| - 1;
    if row == rows[n] {
    } else {
      CursorAbove(rows[..n], since, row);
    }
  }

  /** Filtering a page leaves its cursor alone. */
  lemma ServedCursor(v: Viewer, st: TeamStore, since: nat, limit: nat)
    requires since < TWO_TO_63
    ensures Serve(v, StoredPage(st, since, limit)).nextCursor == Cursor(FirstRows(After(st.log, since), limit), since)
  {
    assert AsI64(since) == since;
    assert StoredPage(st, since, limit).nextCursor == Cursor(FirstRows(After(st.log, since), limit), since);
  }

  lemma PageRowsBelowCursor(v: Viewer, st: TeamStore, since: nat, limit: nat, row: Row)
    requires since < TWO_TO_63 && row in FirstRows(After(st.log, since), limit)
    ensures row.num <= Serve(v, StoredPage(st, since, limit)).nextCursor
  {
    ServedCursor(v, st, since, limit);
    CursorAbove(FirstRows(After(st.log, since), limit), since, row);
  }

  /** A record of the page is a visible row the page covers, as it is shown. */
  lemma PageComesFromRow(v: Viewer, st: TeamStore, since: nat, limit: nat, rec: Record) returns (row: Row)
    requires Sound(st) && since <= st.counter && limit >= 1
    requires rec in Inbox(Serve(v, StoredPage(st, since, limit)))
    ensures row in st.log && v.Sees(row.rec) && v.Dress(row.rec) == rec
    ensures since < row.num <= Serve(v, StoredPage(st, since, limit)).nextCursor
  {
    var got := FirstRows(After(st.log, since), limit);
    InboxShows(v, st, since, limit, rec);
    ShownMembers(v, got, rec);
    var i :| 0 <= i < |got| && v.Sees(got[i].rec) && v.Dress(got[i].rec) == rec;
    row := got[i];
    PageRows(v, st, since, limit, row);
    PageRowsBelowCursor(v, st, since, limit, row);
  }

  /** A page holds nothing but current records, each of a visible row between the two cursors. */
  lemma PageIsCurrent(v: Viewer, st: TeamStore, since: nat, limit: nat, rec: Record)
    requires Sound(st) && since <= st.counter && limit >= 1
    requires rec in Inbox(Serve(v, StoredPage(st, since, limit)))
    ensures Current(st, rec, Serve(v, StoredPage(st, since, limit)).nextCursor)
    ensures var row := Find(st.log, rec.Key()).value;
      && since < row.num <= Serve(v, StoredPage(st, since, limit)).nextCursor
      && v.Sees(row.rec) && SameStamp(row.rec, rec)
  {
    var row := PageComesFromRow(v, st, since, limit, rec);
    HeldIsCurrent(st, row, rec, Serve(v, StoredPage(st, since, limit)).nextCursor);
  }

  lemma HeldIsCurrent(st: TeamStore, row: Row, rec: Record, since: nat)
    requires OneRowPerKey(st.log) && row in st.log && rec.Key() == row.rec.Key() && SameStamp(row.rec, rec)
    ensures Find(st.log, rec.Key()) == Some(row) && Current(st, rec, since)
  {
    var j :| 0 <= j < |st.log| && st.log[j] == row;
    FindRow(st.log, j);
    BeatsIrreflexive(rec);
  }

  /** It holds every visible row between the old cursor and the new one. */
  lemma PageIsComplete(v: Viewer, st: TeamStore, since: nat, limit: nat, row: Row)
    requires Sound(st) && since <= st.counter && limit >= 1
    requires row in st.log && v.Sees(row.rec) && since < row.num <= Serve(v, StoredPage(st, since, limit)).nextCursor
    ensures v.Dress(row.rec) in Inbox(Serve(v, StoredPage(st, since, limit)))
  {
    var got := FirstRows(After(st.log, since), limit);
    PageRows(v, st, since, limit, row);
    var i :| 0 <= i < |got| && got[i] == row;
    ShownMembers(v, got, v.Dress(row.rec));
    InboxShows(v, st, since, limit, v.Dress(row.rec));
  }

  /** A page that is not cut leads past every row there was. */
  lemma LastPageReachesEnd(v: Viewer, st: TeamStore, since: nat, limit: nat)
    requires Sound(st) && since <= st.counter && limit >= 1
    requires !Serve(v, StoredPage(st, since, limit)).more
    ensures forall r :: r in st.log ==> r.num <= Serve(v, StoredPage(st, since, limit)).nextCursor
  {
    var next := Serve(v, StoredPage(st, since, limit)).nextCursor;
    PageIsPrefix(v, st, since, limit);
    forall r | r in st.log ensures r.num <= next {
      AfterHas(st.log, next, r);
    }
  }

  lemma PageLeavesLess(v: Viewer, st: TeamStore, since: nat)
    requires Sound(st) && since <= st.counter
    ensures var page := Serve(v, StoredPage(st, since, DEFAULT_PAGE));
      page.more ==> |After(st.log, page.nextCursor)| < |After(st.log, since)|
  {
    PageIsPrefix(v, st, since, DEFAULT_PAGE);
  }
}
