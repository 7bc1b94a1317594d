/** A device's copy of one team's records: local edits, last write wins, and what counts as acknowledged. */
module Devices {
  import opened Wrappers
  import opened Storage
  import opened Pushing

  /** `pushed` is the version the server last acknowledged; `cursor` is how far pulls have come. */
  datatype Device = Device(rows: map<Key, Record>, pushed: map<Key, int>, cursor: nat) {
    function Acknowledged(k: Key): int {
      if k in pushed then pushed[k] else 0
    }

    predicate Dirty(k: Key) {
      k in rows && rows[k].Version() > Acknowledged(k)
    }
  }

  // ---- the device's store ------------------------------------------------------------------------

  function Loose(rec: Record, gid: string): Record {
    if rec.Snip? && rec.s.groupId == Some(gid) then Snip(rec.s.(groupId := None)) else rec
  }

  /** A deleted group lets go of its snippets, without a new version of theirs. */
  function LetGo(rows: map<Key, Record>, rec: Record): map<Key, Record> {
    if rec.Grp? && rec.g.deletedAt.Some? then map k | k in rows :: Loose(rows[k], rec.g.id) else rows
  }

  /** Last write wins, and what is applied counts as acknowledged. */
  function Applied(d: Device, rec: Record): Device {
    var k := rec.Key();
    if k in d.rows && !Beats(rec, d.rows[k]) then d
    else Device(LetGo(d.rows, rec)[k := rec], d.pushed[k := rec.Version()], d.cursor)
  }

  /** The server has acknowledged this version. */
  function Marked(d: Device, k: Key, version: int): Device {
    d.(pushed := d.pushed[k := version])
  }

  datatype Sent = Sent(rec: Record, outcome: PushOutcome)

  /** What the answer to one pushed record does on the device. */
  function Received(d: Device, k: Key, sent: Sent): Device {
    match sent.outcome
    case Accepted(_) => Marked(d, k, sent.rec.Version())
    case Superseded(_, server) => Applied(d, FromWire(server))
  }

  function WithVersion(rec: Record, n: int): (r: Record)
    ensures r.Key() == rec.Key() && r.Version() == n && r.UpdatedAt() == rec.UpdatedAt()
  {
    match rec
    case Snip(s) => Snip(s.(version := n))
    case Grp(g) => Grp(g.(version := n))
  }

  /** The user creates, edits or deletes a record: the next version, stamped by the device's clock. */
  function Edited(d: Device, rec: Record): Device {
    var k := rec.Key();
    var next := WithVersion(rec, if k in d.rows then d.rows[k].Version() + 1 else 1);
    d.(rows := LetGo(d.rows, rec)[k := next])
  }

  class SnippetStore {
    var rows: map<Key, Record>
    var pushed: map<Key, int>
    var cursor: nat

    function View(): Device
      reads this
    {
      Device(rows, pushed, cursor)
    }

    constructor ()
      ensures View() == Device(map[], map[], 0)
    {
      rows, pushed, cursor := map[], map[], 0;
    }

    /** The user saves a record, or deletes it by a tombstone. */
    method Edit(rec: Record)
      modifies this
      ensures View() == Edited(old(View()), rec)
    {
      var k := rec.Key();
      var next := WithVersion(rec, if k in rows then rows[k].Version() + 1 else 1);
      if rec.Grp? && rec.g.deletedAt.Some? {
        rows := map key | key in rows :: Loose(rows[key], rec.g.id);
      }
      rows := rows[k := next];
    }

    method ApplyRemote(rec: Record) returns (applied: bool)
      modifies this
      ensures View() == Applied(old(View()), rec)
      ensures applied <==> rec.Key() !in old(rows) || Beats(rec, old(rows)[rec.Key()])
    {
      var k := rec.Key();
      if k in rows && !Beats(rec, rows[k]) {
        return false;
      }
      if rec.Grp? && rec.g.deletedAt.Some? {
        rows := map key | key in rows :: Loose(rows[key], rec.g.id);
      }
      rows := rows[k := rec];
      pushed := pushed[k := rec.Version()];
      return true;
    }

    method MarkPushed(k: Key, version: int)
      modifies this
      ensures View() == Marked(old(View()), k, version)
    {
      pushed := pushed[k := version];
    }

    /** One outcome of a push: acknowledge the version that was sent, or apply the server's copy. */
    method TakeOutcome(k: Key, sent: Sent)
      modifies this
      ensures View() == Received(old(View()), k, sent)
    {
      match sent.outcome {
        case Accepted(_) => MarkPushed(k, sent.rec.Version());
        case Superseded(_, server) => var _ := ApplyRemote(FromWire(server));
      }
    }

    method SetCursor(next: nat)
      modifies this
      ensures View() == old(View()).(cursor := next)
    {
      cursor := next;
    }
  }

  // ---- wire ---------------------------------------------------------------------------------------

  /** Quarantine on arrival: executable parts are stripped; groups come without the server's flag. */
  function FromWire(rec: Record): (r: Record)
    ensures r.Key() == rec.Key() && SameStamp(r, rec)
  {
    match rec
    case Snip(s) =>
      var executable := s.kind == "command" || HasExecVars(s.variables);
      Snip(s.(variables := if executable then None else s.variables, kind := if s.kind == "command" then "text" else s.kind))
    case Grp(g) => Grp(g.(restricted := false))
  }

  predicate Syncable(s: SnippetRec) {
    s.kind != "command" && !HasExecVars(s.variables)
  }

  /** The batch is made of dirty rows of the device, as they are. */
  ghost predicate Dirt(d: Device, b: Batch) {
    && (forall s :: s in b.snippets ==> Syncable(s) && d.Dirty(SnipKey(s.id)) && d.rows[SnipKey(s.id)] == Snip(s))
    && (forall g :: g in b.groups ==> d.Dirty(GrpKey(g.id)) && d.rows[GrpKey(g.id)].Grp? && g == d.rows[GrpKey(g.id)].g.(restricted := false))
  }

  ghost function BatchKeys(b: Batch): set<Key> {
    (set s | s in b.snippets :: SnipKey(s.id)) + (set g | g in b.groups :: GrpKey(g.id))
  }

  // ---- what one step does to one row ---------------------------------------------------------------

  /** Versions only grow past what was acknowledged. */
  ghost predicate Versioned(d: Device) {
    && d.pushed.Keys <= d.rows.Keys
    && forall k :: k in d.rows ==> d.rows[k].Key() == k && d.Acknowledged(k) <= d.rows[k].Version()
  }

  /** The row of `k` is what it was, as far as stamps go. */
  ghost predicate Alike(a: Device, b: Device, k: Key) {
    && (k in a.rows <==> k in b.rows)
    && (k in a.rows ==> SameStamp(a.rows[k], b.rows[k]) && a.rows[k].Key() == b.rows[k].Key())
    && a.Acknowledged(k) == b.Acknowledged(k)
  }

  lemma AppliedRow(d: Device, rec: Record, k: Key)
    requires Versioned(d)
    ensures k != rec.Key() ==> Alike(d, Applied(d, rec), k)
    ensures k == rec.Key() ==> k in Applied(d, rec).rows
    ensures k == rec.Key() && !(k in d.rows && !Beats(rec, d.rows[k])) ==>
      Applied(d, rec).rows[k] == rec && Applied(d, rec).Acknowledged(k) == rec.Version()
  {
  }

  lemma AppliedVersioned(d: Device, rec: Record)
    requires Versioned(d)
    ensures Versioned(Applied(d, rec))
  {
    forall k | k in Applied(d, rec).rows ensures Applied(d, rec).rows[k].Key() == k {
      AppliedRow(d, rec, k);
    }
  }

  lemma EditedRow(d: Device, rec: Record, k: Key)
    requires Versioned(d)
    ensures k != rec.Key() ==> Alike(d, Edited(d, rec), k)
    ensures k == rec.Key() ==>
      && Edited(d, rec).Dirty(k) && Edited(d, rec).rows[k].Key() == k
      && (k in d.rows ==> Edited(d, rec).rows[k].Version() > d.rows[k].Version())
  {
  }

  lemma EditedVersioned(d: Device, rec: Record)
    requires Versioned(d)
    ensures Versioned(Edited(d, rec))
  {
    forall k | k in Edited(d, rec).rows
      ensures Edited(d, rec).rows[k].Key() == k && Edited(d, rec).Acknowledged(k) <= Edited(d, rec).rows[k].Version()
    {
      EditedRow(d, rec, k);
    }
  }

  ghost function Dirties(d: Device): set<Key> {
    set k | k in d.rows && d.Dirty(k)
  }

  lemma AppliedDirties(d: Device, rec: Record)
    requires Versioned(d)
    ensures Dirties(Applied(d, rec)) <= Dirties(d)
  {
    forall k | k in Dirties(Applied(d, rec)) ensures k in Dirties(d) {
      AppliedRow(d, rec, k);
    }
  }

  // ---- what a deleted group lets go of ---------------------------------------------------------------------

  ghost predicate InGroup(rec: Record, gid: string) {
    rec.Snip? && rec.s.groupId == Some(gid)
  }

  /** Is it the deletion of a group, and does the device take it? */
  ghost predicate TakesDeletion(d: Device, rec: Record) {
    rec.Grp? && rec.g.deletedAt != None && (rec.Key() in d.rows ==> Beats(rec, d.rows[rec.Key()]))
  }

  /** What is applied is stored as it is if it is new or newer; of the other rows only the members of a deleted group change. */
  lemma AppliedIsExact(d: Device, rec: Record, k: Key)
    requires Versioned(d)
    ensures var after := Applied(d, rec);
      && after.cursor == d.cursor && after.rows.Keys == d.rows.Keys + {rec.Key()}
      && (k in d.rows && k != rec.Key() ==>
            after.rows[k] ==
              if TakesDeletion(d, rec) && InGroup(d.rows[k], rec.g.id) then Snip(d.rows[k].s.(groupId := None)) else d.rows[k])
      && after.rows[rec.Key()] == (if rec.Key() in d.rows && !Beats(rec, d.rows[rec.Key()]) then d.rows[rec.Key()] else rec)
      && (TakesDeletion(d, rec) && k in after.rows ==> !InGroup(after.rows[k], rec.g.id))
  {
  }

  /** What the user saves gets the next version, or the first; deleting a group lets its snippets go here too. */
  lemma EditedIsExact(d: Device, rec: Record, k: Key)
    requires Versioned(d)
    ensures var after := Edited(d, rec);
      && after.pushed == d.pushed && after.cursor == d.cursor && after.rows.Keys == d.rows.Keys + {rec.Key()}
      && (k in d.rows && k != rec.Key() ==>
            after.rows[k] ==
              if rec.Grp? && rec.g.deletedAt != None && InGroup(d.rows[k], rec.g.id)
              then Snip(d.rows[k].s.(groupId := None)) else d.rows[k])
      && after.rows[rec.Key()] == WithVersion(rec, if rec.Key() in d.rows then d.rows[rec.Key()].Version() + 1 else 1)
  {
  }

  // ---- nothing to be run comes in or goes out -------------------------------------------------------------------

  /** A command, or a snippet with a shell or script variable. */
  ghost predicate Runs(s: SnippetRec) {
    s.kind == "command" || (s.variables.Some? && exists t :: t in s.variables.value.types && (t == "shell" || t == "script"))
  }

  /** What comes off the wire has lost what could be run, and nothing else; what could not is as it was. */
  lemma ArrivalIsDisarmed(s: SnippetRec)
    ensures var r := FromWire(Snip(s));
      && r.Snip? && !Runs(r.s)
      && r.s == s.(variables := if Runs(s) then None else s.variables, kind := if s.kind == "command" then "text" else s.kind)
  {
  }

  /** A group comes without the flag, which is the server's to show. */
  lemma ArrivedGroupIsUnflagged(g: GroupRec)
    ensures FromWire(Grp(g)) == Grp(g.(restricted := false))
  {
  }

  /** What the device pushes is what it has, and none of it can be run. */
  lemma NothingSentRuns(d: Device, b: Batch, s: SnippetRec)
    requires Dirt(d, b) && s in b.snippets
    ensures !Runs(s) && SnipKey(s.id) in d.rows && d.rows[SnipKey(s.id)] == Snip(s)
  {
    assert d.Dirty(SnipKey(s.id));
  }

  ghost predicate Harmless(d: Device) {
    forall k :: k in d.rows && d.rows[k].Snip? ==> !Runs(d.rows[k].s)
  }

  function AppliedAll(d: Device, recs: seq<Record>): Device {
    if recs == [] then d else Applied(AppliedAll(d, recs[..|recs| - 1]), FromWire(recs[|recs| - 1]))
  }

  lemma AppliedIsNoOlder(d: Device, rec: Record)
    requires Versioned(d)
    ensures rec.Key() in Applied(d, rec).rows && !Beats(rec, Applied(d, rec).rows[rec.Key()])
  {
    BeatsIrreflexive(rec);
  }

  lemma NoNewerStays(d: Device, last: Record, rec: Record)
    requires Versioned(d) && rec.Key() in d.rows && !Beats(rec, d.rows[rec.Key()])
    ensures rec.Key() in Applied(d, last).rows && !Beats(rec, Applied(d, last).rows[rec.Key()])
  {
    AppliedRow(d, last, rec.Key());
    if last.Key() == rec.Key() && Beats(last, d.rows[rec.Key()]) && Beats(rec, last) {
      BeatsTransitive(rec, last, d.rows[rec.Key()]);
    }
  }

  /** Once all has been applied, nothing that came is newer than what the device holds. */
  lemma {:induction false} NothingReceivedIsNewer(d: Device, recs: seq<Record>, i: nat)
    requires Versioned(d) && i < |recs|
    ensures recs[i].Key() in AppliedAll(d, recs).rows && !Beats(recs[i], AppliedAll(d, recs).rows[recs[i].Key()])
  {
    var n := |recs| - 1;
    AppliedAllVersioned(d, recs[..n]);
    if i == n {
      AppliedIsNoOlder(AppliedAll(d, recs[..n]), FromWire(recs[n]));
    } else {
      NothingReceivedIsNewer(d, recs[..n], i);
      NoNewerStays(AppliedAll(d, recs[..n]), FromWire(recs[n]), recs[i]);
    }
  }

  lemma {:induction false} AppliedAllVersioned(d: Device, recs: seq<Record>)
    requires Versioned(d)
    ensures Versioned(AppliedAll(d, recs))
  {
    if recs == [] {
    } else {
      AppliedAllVersioned(d, recs[..|recs| - 1]);
      AppliedVersioned(AppliedAll(d, recs[..|recs| - 1]), FromWire(recs[|recs| - 1]));
    }
  }

  /** Whatever a server sends, in whatever order, a device on which nothing can be run stays such a device. */
  lemma {:induction false} NothingForeignRuns(d: Device, recs: seq<Record>)
    requires Harmless(d)
    ensures Harmless(AppliedAll(d, recs))
  {
    if recs == [] {
    } else {
      var n := |recs| - 1;
      NothingForeignRuns(d, recs[..n]);
      if recs[n].Snip? {
        ArrivalIsDisarmed(recs[n].s);
      }
    }
  }
}
