/**
 The capture history: rows in the database, two image files per row, and the caps on both. Rows
 are kept in the order of the `captured_at` index; on which side of its equals a new row lands is an
 input. File and database operations succeed; identifiers are fresh.
 */
module History {
  import opened Wrappers
  import Text

  newtype byte = x: int | 0 <= x < 256

  const TWO_TO_64 := 0x1_0000_0000_0000_0000

  datatype Image = Full(id: string) | Thumb(id: string)

  datatype Row = Row(id: string, capturedAt: string, sizeBytes: int, note: string, bannerEnabled: bool, bannerBaked: bool)

  datatype Patch = Patch(note: Option<string>, bannerEnabled: Option<bool>)

  datatype Store = Store(rows: seq<Row>, files: map<Image, seq<byte>>)

  datatype UpdateError = NotFound | ReadOnly

  // ---- queries -------------------------------------------------------------------------------

  function Ids(rows: seq<Row>): set<string> {
    set r | r in rows :: r.id
  }

  function Get(rows: seq<Row>, id: string): Option<Row> {
    if rows == [] then None else if rows[0].id == id then Some(rows[0]) else Get(rows[1..], id)
  }

  /** Is this the place for `row`, before `next`? Among captures of one instant, `ahead` decides. */
  predicate Precedes(row: Row, next: Row, ahead: bool) {
    Text.Less(row.capturedAt, next.capturedAt) || (ahead && row.capturedAt == next.capturedAt)
  }

  function Inserted(rows: seq<Row>, row: Row, ahead: bool): seq<Row> {
    if rows == [] then [row]
    else if Precedes(row, rows[0], ahead) then [row] + rows
    else [rows[0]] + Inserted(rows[1..], row, ahead)
  }

  function Removed(rows: seq<Row>, id: string): (r: seq<Row>)
    ensures |r| <= |rows|
  {
    if rows == [] then []
    else (if rows[0].id == id then [] else [rows[0]]) + Removed(rows[1..], id)
  }

  function Replaced(rows: seq<Row>, row: Row): (r: seq<Row>)
    ensures |r| == |rows|
  {
    seq(|rows|, i requires 0 <= i < |rows| => if rows[i].id == row.id then row else rows[i])
  }

  function Total(rows: seq<Row>): int {
    if rows == [] then 0 else rows[0].sizeBytes + Total(rows[1..])
  }

  /** The signed total is compared as an unsigned number. */
  function AsU64(n: int): nat {
    n % TWO_TO_64
  }

  predicate Fits(rows: seq<Row>, maxCount: nat, maxBytes: nat) {
    |rows| <= maxCount && AsU64(Total(rows)) <= maxBytes
  }

  /** What is left of `rows`, oldest first, once the caps are enforced. */
  function Retained(rows: seq<Row>, maxCount: nat, maxBytes: nat): seq<Row> {
    if rows == [] || Fits(rows, maxCount, maxBytes) then rows else Retained(rows[1..], maxCount, maxBytes)
  }

  // ---- the store's invariant ----------------------------------------------------------------------

  ghost predicate DistinctIds(rows: seq<Row>) {
    forall i, j :: 0 <= i < j < |rows| ==> rows[i].id != rows[j].id
  }

  ghost predicate OldestFirst(rows: seq<Row>) {
    forall i, j :: 0 <= i < j < |rows| ==> Text.AtMost(rows[i].capturedAt, rows[j].capturedAt)
  }

  /** Both images of the row are on disk, and the row knows their size. */
  predicate HasFiles(r: Row, files: map<Image, seq<byte>>) {
    && Full(r.id) in files && Thumb(r.id) in files
    && r.sizeBytes == |files[Full(r.id)]| + |files[Thumb(r.id)]|
  }

  /** The files on disk are exactly those of the rows. */
  ghost predicate Consistent(s: Store) {
    && DistinctIds(s.rows) && OldestFirst(s.rows)
    && (forall i :: 0 <= i < |s.rows| ==> HasFiles(s.rows[i], s.files))
    && (forall f :: f in s.files ==> HasRow(f.id, s.rows))
  }

  ghost predicate HasRow(id: string, rows: seq<Row>) {
    exists i :: 0 <= i < |rows| && rows[i].id == id
  }

  // ---- the operations, in one line each -------------------------------------------------------------

  function Deleted(s: Store, id: string): Store {
    Store(Removed(s.rows, id), s.files - {Full(id), Thumb(id)})
  }

  /** Oldest first, until both caps are met. */
  function Evicted(s: Store, maxCount: nat, maxBytes: nat): Store
    decreases |s.rows|
  {
    if s.rows == [] || Fits(s.rows, maxCount, maxBytes) then s
    else Evicted(Deleted(s, s.rows[0].id), maxCount, maxBytes)
  }

  function Written(s: Store, row: Row, full: seq<byte>, thumb: seq<byte>, ahead: bool): Store {
    Store(Inserted(s.rows, row, ahead), s.files[Full(row.id) := full][Thumb(row.id) := thumb])
  }

  function NewRow(id: string, capturedAt: string, note: string, banner: bool, full: seq<byte>, thumb: seq<byte>): Row {
    Row(id, capturedAt, |full| + |thumb|, note, banner, false)
  }

  function EditedFiles(files: map<Image, seq<byte>>, id: string, full: Option<seq<byte>>, thumb: Option<seq<byte>>): map<Image, seq<byte>> {
    if full.None? then files
    else
      var one := files[Full(id) := full.value];
      if thumb.Some? then one[Thumb(id) := thumb.value] else one
  }

  function EditedRow(row: Row, patch: Patch, full: Option<seq<byte>>, thumbLen: nat): Row {
    row.(note := patch.note.UnwrapOr(row.note),
         bannerEnabled := patch.bannerEnabled.UnwrapOr(row.bannerEnabled),
         sizeBytes := if full.Some? then |full.value| + thumbLen else row.sizeBytes)
  }

  function SizeOf(files: map<Image, seq<byte>>, f: Image): nat {
    if f in files then |files[f]| else 0
  }

  function Edited(s: Store, id: string, patch: Patch, full: Option<seq<byte>>, thumb: Option<seq<byte>>): Result<Store, UpdateError> {
    match Get(s.rows, id)
    case None => Err(NotFound)
    case Some(row) =>
      if row.bannerBaked then Err(ReadOnly)
      else
        var files := EditedFiles(s.files, id, full, thumb);
        Ok(Store(Replaced(s.rows, EditedRow(row, patch, full, SizeOf(files, Thumb(id)))), files))
  }

  // ---- the object ---------------------------------------------------------------------------------------

  class HistoryStore {
    var rows: seq<Row>
    var files: map<Image, seq<byte>>

    function View(): Store
      reads this
    {
      Store(rows, files)
    }

    constructor ()
      ensures View() == Store([], map[])
    {
      rows, files := [], map[];
    }

    method Delete(id: string)
      modifies this
      ensures View() == Deleted(old(View()), id)
    {
      files := files - {Full(id)};
      files := files - {Thumb(id)};
      assert files == old(files) - {Full(id), Thumb(id)};
      rows := Removed(rows, id);
    }

    method EnforceRetention(maxCount: nat, maxBytes: nat)
      requires Consistent(View())
      modifies this
      ensures Consistent(View()) && View() == Evicted(old(View()), maxCount, maxBytes)
      ensures rows == Retained(old(rows), maxCount, maxBytes)
    {
      var entries := rows;
      var count, total := |entries|, Total(entries);
      var i := 0;
      EvictedRows(View(), maxCount, maxBytes);
      while i < |entries| && !(count <= maxCount && AsU64(total) <= maxBytes)
        invariant i <= |entries| && Consistent(View())
        invariant rows == entries[i..] && count == |rows| && total == Total(rows)
        invariant Evicted(old(View()), maxCount, maxBytes) == Evicted(View(), maxCount, maxBytes)
      {
        assert rows[1..] == entries[i + 1..] && rows[0] == entries[i];
        DeleteKeepsConsistent(View(), entries[i].id);
        RemovedFirst(rows);
        Delete(entries[i].id);
        count := count - 1;
        total := total - entries[i].sizeBytes;
        i := i + 1;
      }
    }

    /** Write both images, insert the row, enforce the caps. */
    method Save(id: string, capturedAt: string, now: string, note: string, banner: bool,
                full: seq<byte>, thumb: seq<byte>, ahead: bool, maxCount: nat, maxBytes: nat) returns (row: Row)
      requires Consistent(View()) && id !in Ids(rows)
      modifies this
      ensures row == NewRow(id, if capturedAt == "" then now else capturedAt, note, banner, full, thumb)
      ensures Consistent(View()) && View() == Evicted(Written(old(View()), row, full, thumb, ahead), maxCount, maxBytes)
      ensures rows == Retained(Inserted(old(rows), row, ahead), maxCount, maxBytes)
    {
      files := files[Full(id) := full];
      files := files[Thumb(id) := thumb];
      row := NewRow(id, if capturedAt == "" then now else capturedAt, note, banner, full, thumb);
      rows := Inserted(rows, row, ahead);
      WriteKeepsConsistent(old(View()), row, full, thumb, ahead);
      EnforceRetention(maxCount, maxBytes);
    }

    method WriteImages(id: string, full: Option<seq<byte>>, thumb: Option<seq<byte>>)
      modifies this`files
      ensures files == EditedFiles(old(files), id, full, thumb)
    {
      if full.Some? {
        files := files[Full(id) := full.value];
        if thumb.Some? {
          files := files[Thumb(id) := thumb.value];
        }
      }
    }

    method Update(id: string, patch: Patch, full: Option<seq<byte>>, thumb: Option<seq<byte>>) returns (r: Result<Row, UpdateError>)
      requires Consistent(View())
      modifies this
      ensures Consistent(View())
      ensures var edited := Edited(old(View()), id, patch, full, thumb);
        if edited.Err? then r == Err(edited.error) && View() == old(View())
        else View() == edited.value && r.Ok? && Get(rows, id) == Some(r.value)
    {
      var found := Get(rows, id);
      if found.None? {
        return Err(NotFound);
      }
      if found.value.bannerBaked {
        return Err(ReadOnly);
      }
      EditKeepsConsistent(View(), id, patch, full, thumb);
      GetFinds(rows, id);
      WriteImages(id, full, thumb);
      var row := EditedRow(found.value, patch, full, SizeOf(files, Thumb(id)));
      GetReplaced(rows, row);
      rows := Replaced(rows, row);
      assert View() == Edited(old(View()), id, patch, full, thumb).value;
      return Ok(row);
    }

    method Clear()
      requires Consistent(View())
      modifies this
      ensures View() == Store([], map[])
    {
      var ids := rows;
      for i := 0 to |ids|
        invariant rows == ids
        invariant forall f :: f in files ==> HasRow(f.id, ids[i..])
      {
        files := files - {Full(ids[i].id)};
        files := files - {Thumb(ids[i].id)};
        forall f | f in files ensures HasRow(f.id, ids[i + 1..]) {
          var j :| 0 <= j < |ids[i..]| && ids[i..][j].id == f.id;
          assert j > 0 by {
            match f
            case Full(id) =>
            case Thumb(id) =>
          }
          assert ids[i + 1..][j - 1] == ids[i..][j];
        }
      }
      rows := [];
      assert files == map[];
    }
  }

  // ---- what the caps keep -----------------------------------------------------------------------------------

  /** The caps keep the longest newest run that meets both: it fits, and no longer one does. */
  lemma {:induction false} RetainedIsLongest(rows: seq<Row>, maxCount: nat, maxBytes: nat)
    returns (k: nat)
    ensures k <= |rows| && Retained(rows, maxCount, maxBytes) == rows[k..]
    ensures Fits(rows[k..], maxCount, maxBytes)
    ensures forall j :: 0 <= j < k ==> !Fits(rows[j..], maxCount, maxBytes)
  {
    if rows == [] || Fits(rows, maxCount, maxBytes) {
      k := 0;
      assert rows[0..] == rows;
    } else {
      var m := RetainedIsLongest(rows[1..], maxCount, maxBytes);
      k := m + 1;
      assert rows[1..][m..] == rows[k..];
      forall j | 0 <= j < k ensures !Fits(rows[j..], maxCount, maxBytes) {
        if j == 0 {
          assert rows[0..] == rows;
        } else {
          assert rows[1..][j - 1..] == rows[j..];
        }
      }
    }
  }

  /** Sizes are never negative, so the unsigned comparison sees the true total. */
  lemma {:induction false} TotalIsTrue(rows: seq<Row>)
    requires forall i :: 0 <= i < |rows| ==> rows[i].sizeBytes >= 0
    ensures Total(rows) >= 0
    ensures Total(rows) < TWO_TO_64 ==> AsU64(Total(rows)) == Total(rows)
  {
    if rows == [] {
    } else {
      TotalIsTrue(rows[1..]);
    }
  }

  /** Fewer rows fit where more did. */
  lemma {:induction false} FewerFit(rows: seq<Row>, k: nat, maxCount: nat, maxBytes: nat)
    requires forall i :: 0 <= i < |rows| ==> rows[i].sizeBytes >= 0
    requires k <= |rows| && Total(rows) < TWO_TO_64 && Fits(rows, maxCount, maxBytes)
    ensures Fits(rows[k..], maxCount, maxBytes)
  {
    if k == 0 {
      assert rows[0..] == rows;
    } else {
      TotalIsTrue(rows);
      TotalIsTrue(rows[1..]);
      FewerFit(rows[1..], k - 1, maxCount, maxBytes);
      assert rows[1..][k - 1..] == rows[k..];
    }
  }

  /**
   A capture stays when the caps are enforced exactly when it and everything newer meet both caps:
   so saving an old or an oversized capture evicts it on the spot.
   */
  lemma StaysIff(rows: seq<Row>, p: nat, maxCount: nat, maxBytes: nat)
    requires DistinctIds(rows) && p < |rows| && Total(rows) < TWO_TO_64
    requires forall i :: 0 <= i < |rows| ==> rows[i].sizeBytes >= 0
    ensures rows[p] in Retained(rows, maxCount, maxBytes) <==> Fits(rows[p..], maxCount, maxBytes)
  {
    var k := RetainedIsLongest(rows, maxCount, maxBytes);
    if k <= p {
      assert rows[k..][p - k] == rows[p];
      SuffixTotal(rows, k);
      FewerFit(rows[k..], p - k, maxCount, maxBytes);
      assert rows[k..][p - k..] == rows[p..];
    } else {
      forall q | 0 <= q < |rows[k..]| ensures rows[k..][q] != rows[p] {
        assert rows[k..][q] == rows[k + q] && rows[p].id != rows[k + q].id;
      }
    }
  }

  lemma {:induction false} SuffixTotal(rows: seq<Row>, k: nat)
    requires k <= |rows| && forall i :: 0 <= i < |rows| ==> rows[i].sizeBytes >= 0
    ensures Total(rows[k..]) <= Total(rows)
  {
    if k == 0 {
      assert rows[0..] == rows;
    } else {
      SuffixTotal(rows[1..], k - 1);
      assert rows[1..][k - 1..] == rows[k..];
    }
  }

  // ---- every operation keeps the store consistent -------------------------------------------------------------

  lemma {:induction false} RemovedMembers(rows: seq<Row>, id: string, r: Row)
    ensures r in Removed(rows, id) <==> r in rows && r.id != id
  {
    if rows == [] {
    } else {
      RemovedMembers(rows[1..], id, r);
      assert r in rows <==> r == rows[0] || r in rows[1..];
    }
  }

  lemma {:induction false} RemovedOrdered(rows: seq<Row>, id: string)
    requires DistinctIds(rows) && OldestFirst(rows)
    ensures DistinctIds(Removed(rows, id)) && OldestFirst(Removed(rows, id))
  {
    if rows == [] {
    } else {
      var rest := Removed(rows[1..], id);
      RemovedOrdered(rows[1..], id);
      if rows[0].id == id {
        assert Removed(rows, id) == rest;
      } else {
        assert Removed(rows, id) == [rows[0]] + rest;
        forall i | 0 <= i < |rest| ensures rest[i].id != rows[0].id && Text.AtMost(rows[0].capturedAt, rest[i].capturedAt) {
          RemovedMembers(rows[1..], id, rest[i]);
          var j :| 0 <= j < |rows| - 1 && rows[1..][j] == rest[i];
          assert rows[j + 1] == rest[i];
        }
      }
    }
  }

  /** Removing the first row of distinct rows removes just that one. */
  lemma RemovedFirst(rows: seq<Row>)
    requires DistinctIds(rows) && rows != []
    ensures Removed(rows, rows[0].id) == rows[1..]
  {
    forall i | 0 <= i < |rows| - 1 ensures rows[1..][i].id != rows[0].id {}
    RemovedAbsent(rows[1..], rows[0].id);
  }

  lemma {:induction false} RemovedAbsent(rows: seq<Row>, id: string)
    requires forall i :: 0 <= i < |rows| ==> rows[i].id != id
    ensures Removed(rows, id) == rows
  {
    if rows == [] {
    } else {
      RemovedAbsent(rows[1..], id);
      assert rows == [rows[0]] + rows[1..];
    }
  }

  lemma DeletedRowHasFiles(s: Store, id: string, row: Row)
    requires Consistent(s) && row in Removed(s.rows, id)
    ensures HasFiles(row, Deleted(s, id).files)
  {
    RemovedMembers(s.rows, id, row);
    var j :| 0 <= j < |s.rows| && s.rows[j] == row;
    assert HasFiles(s.rows[j], s.files);
  }

  lemma DeletedFileHasRow(s: Store, id: string, f: Image)
    requires Consistent(s) && f in Deleted(s, id).files
    ensures HasRow(f.id, Removed(s.rows, id))
  {
    assert f.id != id by {
      match f
      case Full(x) =>
      case Thumb(x) =>
    }
    assert HasRow(f.id, s.rows);
    var j :| 0 <= j < |s.rows| && s.rows[j].id == f.id;
    RemovedMembers(s.rows, id, s.rows[j]);
  }

  lemma DeleteKeepsConsistent(s: Store, id: string)
    requires Consistent(s)
    ensures Consistent(Deleted(s, id))
  {
    RemovedOrdered(s.rows, id);
    var t := Deleted(s, id);
    forall i | 0 <= i < |t.rows| ensures HasFiles(t.rows[i], t.files) {
      DeletedRowHasFiles(s, id, t.rows[i]);
    }
    forall f | f in t.files ensures HasRow(f.id, t.rows) {
      DeletedFileHasRow(s, id, f);
    }
  }

  lemma {:induction false} InsertedMembers(rows: seq<Row>, row: Row, ahead: bool)
    ensures forall r :: r in Inserted(rows, row, ahead) <==> r == row || r in rows
  {
    if rows == [] {
    } else if !Precedes(row, rows[0], ahead) {
      InsertedMembers(rows[1..], row, ahead);
      assert rows == [rows[0]] + rows[1..];
    }
  }

  lemma {:induction false} InsertKeepsDistinct(rows: seq<Row>, row: Row, ahead: bool)
    requires DistinctIds(rows) && row.id !in Ids(rows)
    ensures DistinctIds(Inserted(rows, row, ahead))
  {
    forall i | 0 <= i < |rows| ensures rows[i].id != row.id {
      assert rows[i] in rows;
    }
    if rows == [] {
    } else if !Precedes(row, rows[0], ahead) {
      var rest := Inserted(rows[1..], row, ahead);
      assert forall r :: r in rows[1..] ==> r in rows;
      InsertKeepsDistinct(rows[1..], row, ahead);
      InsertedMembers(rows[1..], row, ahead);
      forall i | 0 <= i < |rest| ensures rest[i].id != rows[0].id {
        assert rest[i] in rest;
        if rest[i] != row {
          var j :| 0 <= j < |rows| - 1 && rows[1..][j] == rest[i];
          assert rows[j + 1] == rest[i];
        }
      }
    }
  }

  lemma {:induction false} InsertKeepsOrder(rows: seq<Row>, row: Row, ahead: bool)
    requires OldestFirst(rows)
    ensures OldestFirst(Inserted(rows, row, ahead))
  {
    if rows == [] {
    } else if Precedes(row, rows[0], ahead) {
      forall i | 0 <= i < |rows| ensures Text.AtMost(row.capturedAt, rows[i].capturedAt) {
        if i > 0 && row.capturedAt != rows[0].capturedAt && rows[i].capturedAt != rows[0].capturedAt {
          Text.LessTransitive(row.capturedAt, rows[0].capturedAt, rows[i].capturedAt);
        }
      }
    } else {
      var rest := Inserted(rows[1..], row, ahead);
      InsertKeepsOrder(rows[1..], row, ahead);
      InsertedMembers(rows[1..], row, ahead);
      Text.LessTotal(row.capturedAt, rows[0].capturedAt);
      forall i | 0 <= i < |rest| ensures Text.AtMost(rows[0].capturedAt, rest[i].capturedAt) {
        assert rest[i] in rest;
        if rest[i] != row {
          var j :| 0 <= j < |rows| - 1 && rows[1..][j] == rest[i];
          assert rows[j + 1] == rest[i];
        }
      }
    }
  }

  lemma WriteKeepsConsistent(s: Store, row: Row, full: seq<byte>, thumb: seq<byte>, ahead: bool)
    requires Consistent(s) && row.id !in Ids(s.rows) && row.sizeBytes == |full| + |thumb|
    ensures Consistent(Written(s, row, full, thumb, ahead))
  {
    var t := Written(s, row, full, thumb, ahead);
    InsertKeepsDistinct(s.rows, row, ahead);
    InsertKeepsOrder(s.rows, row, ahead);
    InsertedMembers(s.rows, row, ahead);
    forall i | 0 <= i < |t.rows| ensures HasFiles(t.rows[i], t.files) {
      assert t.rows[i] in t.rows;
      if t.rows[i] != row {
        var j :| 0 <= j < |s.rows| && s.rows[j] == t.rows[i];
        assert HasFiles(s.rows[j], s.files) && s.rows[j] in s.rows;
      }
    }
    forall f | f in t.files ensures HasRow(f.id, t.rows) {
      if f.id == row.id {
        assert row in t.rows;
      } else {
        var j :| 0 <= j < |s.rows| && s.rows[j].id == f.id;
        assert s.rows[j] in t.rows;
      }
    }
  }

  lemma {:induction false} GetFinds(rows: seq<Row>, id: string)
    ensures Get(rows, id).Some? ==> Get(rows, id).value in rows && Get(rows, id).value.id == id
    ensures Get(rows, id).None? ==> forall r :: r in rows ==> r.id != id
  {
    if rows == [] {
    } else {
      GetFinds(rows[1..], id);
    }
  }

  lemma {:induction false} GetReplaced(rows: seq<Row>, row: Row)
    requires Get(rows, row.id).Some?
    ensures Get(Replaced(rows, row), row.id) == Some(row)
  {
    if rows[0].id != row.id {
      assert Replaced(rows, row)[1..] == Replaced(rows[1..], row);
      GetReplaced(rows[1..], row);
    }
  }

  /** Replacing the row of an id by an edited one leaves ids and capture times, so the order. */
  lemma ReplacedKeepsOrder(rows: seq<Row>, row: Row, was: Row)
    requires DistinctIds(rows) && OldestFirst(rows) && was in rows && was.id == row.id && was.capturedAt == row.capturedAt
    ensures DistinctIds(Replaced(rows, row)) && OldestFirst(Replaced(rows, row))
    ensures forall i :: 0 <= i < |rows| ==> Replaced(rows, row)[i].id == rows[i].id
  {
    var k :| 0 <= k < |rows| && rows[k] == was;
    forall i | 0 <= i < |rows|
      ensures Replaced(rows, row)[i].id == rows[i].id && Replaced(rows, row)[i].capturedAt == rows[i].capturedAt
    {
    }
  }

  /** If only the images of one id change and its row states their size, every row still has its files. */
  lemma ReplacedHasFiles(s: Store, row: Row, files: map<Image, seq<byte>>)
    requires Consistent(s) && HasFiles(row, files) && HasRow(row.id, s.rows)
    requires forall f: Image :: f.id != row.id ==> (f in files <==> f in s.files) && (f in files ==> files[f] == s.files[f])
    requires exists was :: was in s.rows && was.id == row.id && was.capturedAt == row.capturedAt
    ensures Consistent(Store(Replaced(s.rows, row), files))
  {
    var was :| was in s.rows && was.id == row.id && was.capturedAt == row.capturedAt;
    ReplacedKeepsOrder(s.rows, row, was);
    var t := Replaced(s.rows, row);
    forall i | 0 <= i < |t| ensures HasFiles(t[i], files) {
      assert HasFiles(s.rows[i], s.files);
    }
    forall f | f in files ensures HasRow(f.id, t) {
      assert HasRow(f.id, s.rows);
      var j :| 0 <= j < |s.rows| && s.rows[j].id == f.id;
      assert t[j].id == f.id;
    }
  }

  /** An edit keeps the capture time, and restates the size whenever it rewrites a file. */
  lemma EditKeepsConsistent(s: Store, id: string, patch: Patch, full: Option<seq<byte>>, thumb: Option<seq<byte>>)
    requires Consistent(s)
    ensures Edited(s, id, patch, full, thumb).Ok? ==> Consistent(Edited(s, id, patch, full, thumb).value)
  {
    GetFinds(s.rows, id);
    if Get(s.rows, id).Some? {
      var row := Get(s.rows, id).value;
      var j :| 0 <= j < |s.rows| && s.rows[j] == row;
      assert HasFiles(s.rows[j], s.files);
      var files := EditedFiles(s.files, id, full, thumb);
      EditedRowHasFiles(row, s.files, patch, full, thumb);
      ReplacedHasFiles(s, EditedRow(row, patch, full, SizeOf(files, Thumb(id))), files);
    }
  }

  lemma EditedRowHasFiles(row: Row, files: map<Image, seq<byte>>, patch: Patch, full: Option<seq<byte>>, thumb: Option<seq<byte>>)
    requires HasFiles(row, files)
    ensures var after := EditedFiles(files, row.id, full, thumb);
      && HasFiles(EditedRow(row, patch, full, SizeOf(after, Thumb(row.id))), after)
      && forall f: Image :: f.id != row.id ==> (f in after <==> f in files) && (f in after ==> after[f] == files[f])
  {
  }

  // ---- any use of the history -----------------------------------------------------------------------------

  datatype Op =
    | Saving(row: Row, full: seq<byte>, thumb: seq<byte>, ahead: bool, maxCount: nat, maxBytes: nat)
    | Updating(id: string, patch: Patch, newFull: Option<seq<byte>>, newThumb: Option<seq<byte>>)
    | Deleting(id: string)
    | Clearing

  /** A saved row states the size of its images, and its id is new. */
  function Step(s: Store, op: Op): Store {
    match op
    case Saving(row, full, thumb, ahead, maxCount, maxBytes) =>
      if row.id in Ids(s.rows) then s
      else
        Evicted(Written(s, row.(sizeBytes := |full| + |thumb|), full, thumb, ahead), maxCount, maxBytes)
    case Updating(id, patch, full, thumb) =>
      var edited := Edited(s, id, patch, full, thumb);
      if edited.Ok? then edited.value else s
    case Deleting(id) => Deleted(s, id)
    case Clearing => Store([], map[])
  }

  function Run(s: Store, ops: seq<Op>): Store {
    if ops == [] then s else Step(Run(s, ops[..|ops| - 1]), ops[|ops| - 1])
  }

  /** Evicting leaves the retained rows, and rows and files in step. */
  lemma {:induction false} EvictedRows(s: Store, maxCount: nat, maxBytes: nat)
    requires Consistent(s)
    ensures Evicted(s, maxCount, maxBytes).rows == Retained(s.rows, maxCount, maxBytes)
    ensures Consistent(Evicted(s, maxCount, maxBytes))
    decreases |s.rows|
  {
    if s.rows == [] || Fits(s.rows, maxCount, maxBytes) {
    } else {
      DeleteKeepsConsistent(s, s.rows[0].id);
      RemovedFirst(s.rows);
      EvictedRows(Deleted(s, s.rows[0].id), maxCount, maxBytes);
    }
  }

  /** A file that is still there after evicting holds what it held. */
  lemma {:induction false} EvictedFiles(s: Store, maxCount: nat, maxBytes: nat, f: Image)
    requires f in Evicted(s, maxCount, maxBytes).files
    ensures f in s.files && Evicted(s, maxCount, maxBytes).files[f] == s.files[f]
    decreases |s.rows|
  {
    if s.rows == [] || Fits(s.rows, maxCount, maxBytes) {
    } else {
      EvictedFiles(Deleted(s, s.rows[0].id), maxCount, maxBytes, f);
    }
  }

  function Sized(op: Op): Row
    requires op.Saving?
  {
    op.row.(sizeBytes := |op.full| + |op.thumb|)
  }

  lemma SavingSplits(s: Store, op: Op)
    requires Consistent(s) && op.Saving? && op.row.id !in Ids(s.rows)
    ensures var written := Written(s, Sized(op), op.full, op.thumb, op.ahead);
      && Consistent(written) && Consistent(Step(s, op))
      && Step(s, op) == Evicted(written, op.maxCount, op.maxBytes)
      && Step(s, op).rows == Retained(written.rows, op.maxCount, op.maxBytes)
  {
    WriteKeepsConsistent(s, Sized(op), op.full, op.thumb, op.ahead);
    EvictedRows(Written(s, Sized(op), op.full, op.thumb, op.ahead), op.maxCount, op.maxBytes);
  }

  lemma SavingKeepsConsistent(s: Store, op: Op)
    requires Consistent(s) && op.Saving?
    ensures Consistent(Step(s, op))
  {
    if op.row.id !in Ids(s.rows) {
      SavingSplits(s, op);
    }
  }

  lemma StepKeepsConsistent(s: Store, op: Op)
    requires Consistent(s)
    ensures Consistent(Step(s, op))
  {
    match op
    case Saving(_, _, _, _, _, _) => SavingKeepsConsistent(s, op);
    case Updating(id, patch, full, thumb) => EditKeepsConsistent(s, id, patch, full, thumb);
    case Deleting(id) => DeleteKeepsConsistent(s, id);
    case Clearing =>
  }

  /**
   Over every use of the history, the files on disk are exactly those of the rows, and each row states
   the size of its two.
   */
  lemma {:induction false} AlwaysConsistent(s: Store, ops: seq<Op>)
    requires Consistent(s)
    ensures Consistent(Run(s, ops))
  {
    if ops == [] {
    } else {
      AlwaysConsistent(s, ops[..|ops| - 1]);
      StepKeepsConsistent(Run(s, ops[..|ops| - 1]), ops[|ops| - 1]);
    }
  }

  // ---- the caps and the disk ------------------------------------------------------------------------------

  /** Bytes of image data on disk. */
  ghost function DiskUse(files: map<Image, seq<byte>>): nat
    decreases |files|
  {
    if files == map[] then 0
    else
      var f :| f in files;
      |files[f]| + DiskUse(files - {f})
  }

  lemma {:induction false} DiskUseWithout(files: map<Image, seq<byte>>, f: Image)
    requires f in files
    ensures DiskUse(files) == |files[f]| + DiskUse(files - {f})
    decreases |files|
  {
    var g :| g in files && DiskUse(files) == |files[g]| + DiskUse(files - {g});
    if g != f {
      DiskUseWithout(files - {g}, f);
      DiskUseWithout(files - {f}, g);
      assert files - {g} - {f} == files - {f} - {g};
    }
  }

  lemma DiskUseWithoutBoth(files: map<Image, seq<byte>>, id: string)
    requires Full(id) in files && Thumb(id) in files
    ensures DiskUse(files) == |files[Full(id)]| + |files[Thumb(id)]| + DiskUse(files - {Full(id), Thumb(id)})
  {
    DiskUseWithout(files, Full(id));
    DiskUseWithout(files - {Full(id)}, Thumb(id));
    assert files - {Full(id)} - {Thumb(id)} == files - {Full(id), Thumb(id)};
  }

  /** The sizes the rows state add up to the bytes on disk. */
  lemma {:induction false} TotalIsDiskUse(s: Store)
    requires Consistent(s)
    ensures Total(s.rows) == DiskUse(s.files)
    decreases |s.rows|
  {
    if s.rows == [] {
      assert s.files == map[];
    } else {
      var id := s.rows[0].id;
      assert HasFiles(s.rows[0], s.files);
      DeleteKeepsConsistent(s, id);
      RemovedFirst(s.rows);
      TotalIsDiskUse(Deleted(s, id));
      DiskUseWithoutBoth(s.files, id);
    }
  }

  lemma RetainedMeetsCaps(rows: seq<Row>, maxCount: nat, maxBytes: nat)
    requires Total(rows) < TWO_TO_64 && forall i :: 0 <= i < |rows| ==> rows[i].sizeBytes >= 0
    ensures |Retained(rows, maxCount, maxBytes)| <= maxCount && Total(Retained(rows, maxCount, maxBytes)) <= maxBytes
  {
    var k := RetainedIsLongest(rows, maxCount, maxBytes);
    SuffixTotal(rows, k);
    NoNegativeTotal(rows[k..]);
  }

  lemma {:induction false} NoNegativeTotal(rows: seq<Row>)
    requires forall i :: 0 <= i < |rows| ==> rows[i].sizeBytes >= 0
    ensures Total(rows) >= 0
  {
    if rows == [] {
    } else {
      NoNegativeTotal(rows[1..]);
    }
  }

  /** Whatever went before, right after a save both caps hold, for the rows and for the bytes on disk. */
  lemma SavingCapsTheDisk(s: Store, ops: seq<Op>, op: Op)
    requires Consistent(s) && op.Saving?
    requires var now := Run(s, ops); op.row.id !in Ids(now.rows) && DiskUse(now.files) + |op.full| + |op.thumb| < TWO_TO_64
    ensures var after := Run(s, ops + [op]);
      |after.rows| <= op.maxCount && DiskUse(after.files) <= op.maxBytes
  {
    var now := Run(s, ops);
    assert (ops + [op])[..|ops|] == ops;
    AlwaysConsistent(s, ops);
    SavingSplits(now, op);
    var written := Written(now, Sized(op), op.full, op.thumb, op.ahead);
    TotalIsDiskUse(now);
    TotalInserted(now.rows, Sized(op), op.ahead);
    NoNegativeSizes(written);
    RetainedMeetsCaps(written.rows, op.maxCount, op.maxBytes);
    TotalIsDiskUse(Step(now, op));
  }

  lemma {:induction false} TotalInserted(rows: seq<Row>, row: Row, ahead: bool)
    ensures Total(Inserted(rows, row, ahead)) == Total(rows) + row.sizeBytes
  {
    if rows == [] || Precedes(row, rows[0], ahead) {
      assert ([row] + rows)[1..] == rows;
    } else {
      TotalInserted(rows[1..], row, ahead);
      assert Inserted(rows, row, ahead)[1..] == Inserted(rows[1..], row, ahead);
    }
  }

  lemma NoNegativeSizes(s: Store)
    requires Consistent(s)
    ensures forall i :: 0 <= i < |s.rows| ==> s.rows[i].sizeBytes >= 0
  {
    forall i | 0 <= i < |s.rows| ensures s.rows[i].sizeBytes >= 0 {
      assert HasFiles(s.rows[i], s.files);
    }
  }

  // ---- what one operation does to one capture ------------------------------------------------------------

  /** If the last row fits by itself, it is retained. */
  lemma LastIsRetained(rows: seq<Row>, maxCount: nat, maxBytes: nat)
    requires rows != [] && 0 <= rows[|rows| - 1].sizeBytes <= maxBytes < TWO_TO_64 && maxCount >= 1
    ensures var kept := Retained(rows, maxCount, maxBytes); kept != [] && kept[|kept| - 1] == rows[|rows| - 1]
  {
    var k := RetainedIsLongest(rows, maxCount, maxBytes);
    var n := |rows| - 1;
    assert rows[n..] == [rows[n]] && [rows[n]][1..] == [];
    assert Fits(rows[n..], maxCount, maxBytes);
  }

  lemma KeptRowHasFiles(s: Store, i: nat)
    requires Consistent(s) && i < |s.rows|
    ensures Full(s.rows[i].id) in s.files && Thumb(s.rows[i].id) in s.files
  {
    assert HasFiles(s.rows[i], s.files);
  }

  /** Whatever row is left after a save, if it is the saved one, then so are its images. */
  lemma KeptImages(s: Store, op: Op, i: nat)
    requires Consistent(s) && op.Saving? && op.row.id !in Ids(s.rows)
    requires i < |Step(s, op).rows| && Step(s, op).rows[i].id == op.row.id
    ensures var after := Step(s, op).files;
      && Full(op.row.id) in after && after[Full(op.row.id)] == op.full
      && Thumb(op.row.id) in after && after[Thumb(op.row.id)] == op.thumb
  {
    SavingSplits(s, op);
    KeptRowHasFiles(Step(s, op), i);
    var written := Written(s, Sized(op), op.full, op.thumb, op.ahead);
    EvictedFiles(written, op.maxCount, op.maxBytes, Full(op.row.id));
    EvictedFiles(written, op.maxCount, op.maxBytes, Thumb(op.row.id));
  }

  /** A capture no older than all others is the last to go: it is kept if there is room for it alone. */
  lemma NewestIsKept(s: Store, op: Op)
    requires Consistent(s) && op.Saving? && op.row.id !in Ids(s.rows) && !op.ahead
    requires forall r :: r in s.rows ==> Text.AtMost(r.capturedAt, op.row.capturedAt)
    requires |op.full| + |op.thumb| <= op.maxBytes < TWO_TO_64 && op.maxCount >= 1
    ensures var after := Step(s, op);
      && after.rows != [] && after.rows[|after.rows| - 1] == op.row.(sizeBytes := |op.full| + |op.thumb|)
      && Full(op.row.id) in after.files && after.files[Full(op.row.id)] == op.full
      && Thumb(op.row.id) in after.files && after.files[Thumb(op.row.id)] == op.thumb
  {
    NewestComesLast(s.rows, Sized(op));
    SavingSplits(s, op);
    LastIsRetained(s.rows + [Sized(op)], op.maxCount, op.maxBytes);
    var rows := Step(s, op).rows;
    assert rows[|rows| - 1] == Sized(op);
    KeptImages(s, op, |rows| - 1);
  }

  lemma {:induction false} NewestComesLast(rows: seq<Row>, row: Row)
    requires forall r :: r in rows ==> Text.AtMost(r.capturedAt, row.capturedAt)
    ensures Inserted(rows, row, false) == rows + [row]
  {
    if rows == [] {
    } else {
      assert rows[0] in rows;
      if Text.Less(row.capturedAt, rows[0].capturedAt) {
        Text.LessAsymmetric(row.capturedAt, rows[0].capturedAt);
        Text.LessIrreflexive(row.capturedAt);
        assert false;
      }
      NewestComesLast(rows[1..], row);
      assert rows + [row] == [rows[0]] + (rows[1..] + [row]);
    }
  }

  lemma FoundAt(s: Store, i: nat)
    requires Consistent(s) && i < |s.rows|
    ensures Get(s.rows, s.rows[i].id) == Some(s.rows[i])
    ensures forall j :: 0 <= j < |s.rows| && j != i ==> s.rows[j].id != s.rows[i].id
  {
    GetFinds(s.rows, s.rows[i].id);
    var j :| 0 <= j < |s.rows| && s.rows[j] == Get(s.rows, s.rows[i].id).value;
  }

  /** What an edit does to the files: the image is replaced by a new one, the thumbnail only along with it. */
  lemma EditedFilesExact(files: map<Image, seq<byte>>, id: string, full: Option<seq<byte>>, thumb: Option<seq<byte>>)
    requires Full(id) in files && Thumb(id) in files
    ensures var after := EditedFiles(files, id, full, thumb);
      && after.Keys == files.Keys
      && (forall f :: f in files && f.id != id ==> after[f] == files[f])
      && after[Full(id)] == (if full.Some? then full.value else files[Full(id)])
      && after[Thumb(id)] == (if full.Some? && thumb.Some? then thumb.value else files[Thumb(id)])
  {
  }

  /** An edit reaches exactly one capture, and none whose banner is baked in. */
  lemma EditIsExact(s: Store, op: Op, i: nat)
    requires Consistent(s) && op.Updating? && i < |s.rows| && s.rows[i].id == op.id
    ensures var after, row := Step(s, op), s.rows[i];
      if row.bannerBaked then after == s && Edited(s, op.id, op.patch, op.newFull, op.newThumb) == Err(ReadOnly)
      else
        && after.files == EditedFiles(s.files, op.id, op.newFull, op.newThumb)
        && |after.rows| == |s.rows| && (forall j :: 0 <= j < |s.rows| && j != i ==> after.rows[j] == s.rows[j])
        && after.rows[i].(sizeBytes := row.sizeBytes) ==
             row.(note := if op.patch.note.Some? then op.patch.note.value else row.note,
                  bannerEnabled := if op.patch.bannerEnabled.Some? then op.patch.bannerEnabled.value else row.bannerEnabled)
  {
    FoundAt(s, i);
  }

  /** An edit of no capture is refused. */
  lemma UnknownIsNotFound(s: Store, op: Op)
    requires op.Updating? && op.id !in Ids(s.rows)
    ensures Edited(s, op.id, op.patch, op.newFull, op.newThumb) == Err(NotFound) && Step(s, op) == s
  {
    if Get(s.rows, op.id).Some? {
      GetFinds(s.rows, op.id);
    }
  }
}
