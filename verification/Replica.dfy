/**
 A device and the server, over time: the device pulls page by page, pushes what is dirty and applies
 what comes back, while its user goes on editing, other devices go on pushing, and what the user may
 see changes. Every interleaving of those steps is a list of events here.
 */
module Replica {
  import opened Wrappers
  import opened Roles
  import opened Storage
  import opened Pushing
  import opened Feed
  import opened Devices
  import opened Acknowledging
  import opened Paging
  import Text

  /**
   `inbox` is what is left of the page being applied, which leads to `target`; `flight` holds the
   outcomes not yet looked at, beside the records as they were sent. A cycle may fail at any point,
   with what is left of a page or of an acknowledgement lost.

   `closed` are the restricted groups the user holds no grant to write to. `skipped` and `unseen` are for
   the record only: `skipped` are the rows the page being applied left out
   because the user could not see them, `unseen` those the cursor has passed that way.
   */
  datatype World = World(
    server: TeamStore, viewer: Viewer, device: Device,
    inbox: seq<Record>, target: nat, flight: map<Key, Sent>,
    skipped: set<Row>, unseen: set<Row>, closed: set<string>)

  datatype Event =
    | Others(batch: Batch, sub: string, role: Role)
    | Regrant(viewer: Viewer, closed: set<string>)
    | Edit(rec: Record)
    | Fetch(limit: nat)
    | ApplyNext
    | Finish
    | Send(mine: Batch, me: string, myRole: Role)
    | Receive(key: Key)
    | Fail

  /** The engine does one thing at a time. */
  predicate Idle(w: World) {
    w.inbox == [] && w.target == w.device.cursor && w.flight == map[]
  }

  /** A writer's batch with a record of a closed group in it. */
  predicate Shut(closed: set<string>, role: Role, b: Batch) {
    !role.AtLeast(Manager)
    && ((exists s :: s in b.snippets && s.groupId.Some? && s.groupId.value in closed) || (exists g :: g in b.groups && g.id in closed))
  }

  /** The server looks at a batch as a whole before it looks at its records. */
  predicate Taken(team: string, closed: set<string>, role: Role, b: Batch) {
    ValidBatch(team, b) && !Shut(closed, role, b)
  }

  ghost function Flight(d: Device, b: Batch, ack: Ack): map<Key, Sent> {
    map k | k in BatchKeys(b) && k in d.rows && AckFor(ack, k).Some? :: Sent(d.rows[k], AckFor(ack, k).value)
  }

  /** The rows between two cursors that the user may not see. */
  ghost function Hidden(v: Viewer, st: TeamStore, since: nat, next: nat): set<Row> {
    set row | row in st.log && since < row.num <= next && !v.Sees(row.rec)
  }

  ghost function Step(team: string, w: World, e: Event): World {
    match e
    case Others(b, sub, role) => if ValidBatch(team, b) then w.(server := Merged(w.server, b, sub, role)) else w
    case Regrant(viewer, closed) => w.(viewer := viewer, closed := closed)
    case Edit(rec) => w.(device := Edited(w.device, rec))
    case Fetch(limit) =>
      if !Idle(w) || w.server.counter >= TWO_TO_63 then w
      else
        var page := Serve(w.viewer, StoredPage(w.server, w.device.cursor, Clamp(Some(limit))));
        w.(inbox := Inbox(page), target := page.nextCursor,
           skipped := Hidden(w.viewer, w.server, w.device.cursor, page.nextCursor))
    case ApplyNext =>
      if w.inbox == [] then w else w.(device := Applied(w.device, FromWire(w.inbox[0])), inbox := w.inbox[1..])
    case Finish =>
      if w.inbox == [] then w.(device := w.device.(cursor := w.target), unseen := w.unseen + w.skipped, skipped := {}) else w
    case Send(b, sub, role) =>
      if !Idle(w) || !Dirt(w.device, b) || !Taken(team, w.closed, role, b) then w
      else w.(server := Merged(w.server, b, sub, role), flight := Flight(w.device, b, AckOf(w.server, b, sub, role)))
    case Receive(k) =>
      if k !in w.flight then w else w.(device := Received(w.device, k, w.flight[k]), flight := w.flight - {k})
    case Fail => w.(inbox := [], target := w.device.cursor, flight := map[], skipped := {})
  }

  ghost function Run(team: string, w: World, events: seq<Event>): World {
    if events == [] then w else Step(team, Run(team, w, events[..|events| - 1]), events[|events| - 1])
  }

  /** A device that has just joined, on a server that only ever took what `push` lets through. */
  ghost predicate Start(team: string, w: World) {
    && Idle(w) && w.device == Device(map[], map[], 0) && w.skipped == w.unseen == {}
    && Valid(w.server) && AllVetted(team, w.server)
  }

  // ---- the invariant ------------------------------------------------------------------------------------------

  ghost predicate ServerSound(team: string, w: World) {
    Valid(w.server) && AllVetted(team, w.server) && w.device.cursor <= w.target <= w.server.counter
  }

  /** Nothing clean is newer than the server's row: what was acknowledged is safe. */
  ghost predicate CleanIsSafe(w: World, k: Key) {
    k in w.device.rows && !w.device.Dirty(k) ==> Confirmed(w.server, w.device.rows[k])
  }

  ghost predicate Waiting(w: World, rec: Record) {
    exists i :: 0 <= i < |w.inbox| && w.inbox[i].Key() == rec.Key() && SameStamp(w.inbox[i], rec)
  }

  /** The device has the record, at least as new, or an edit of it still to send. */
  ghost predicate OnDevice(d: Device, k: Key, rec: Record) {
    k in d.rows && (d.Dirty(k) || !Beats(rec, d.rows[k]))
  }

  /**
   A row the cursor has passed is on the device, unless it was hidden when that happened; a row the
   page being applied covers is on the device, or about to be, or was hidden when it was fetched.
   */
  ghost predicate NoneMissed(w: World, k: Key) {
    var row := Find(w.server.log, k);
    row.Some? ==>
      && (row.value.num <= w.device.cursor ==> row.value in w.unseen || OnDevice(w.device, k, row.value.rec))
      && (w.device.cursor < row.value.num <= w.target ==>
            row.value in w.skipped || Waiting(w, row.value.rec) || OnDevice(w.device, k, row.value.rec))
  }

  /** An outcome on its way is still true, and the record it is about has not gone back in version. */
  ghost predicate InFlight(w: World, k: Key) {
    k in w.flight ==>
      var sent := w.flight[k];
      && w.inbox == [] && w.target == w.device.cursor
      && sent.rec.Key() == k && k in w.device.rows
      && sent.rec.Version() <= w.device.rows[k].Version()
      && (sent.rec.Version() == w.device.rows[k].Version() ==> SameStamp(sent.rec, w.device.rows[k]))
      && Told(w.server, sent.rec, sent.outcome, w.target)
  }

  /** A fetched record is current, and its row lies behind the cursor. */
  ghost predicate Fetched(w: World, i: nat) {
    i < |w.inbox| ==> Current(w.server, w.inbox[i], w.target) && Find(w.server.log, w.inbox[i].Key()).value.num > w.device.cursor
  }

  ghost predicate Inv(team: string, w: World) {
    && ServerSound(team, w) && Versioned(w.device)
    && (forall k :: CleanIsSafe(w, k))
    && (forall k :: NoneMissed(w, k))
    && (forall k :: InFlight(w, k))
    && (forall i: nat :: Fetched(w, i))
  }

  // ---- the server moves on ---------------------------------------------------------------------------------------

  lemma ServerMoves(team: string, w: World, b: Batch, sub: string, role: Role)
    requires Inv(team, w) && ValidBatch(team, b)
    ensures Inv(team, w.(server := Merged(w.server, b, sub, role)))
  {
    var after := w.(server := Merged(w.server, b, sub, role));
    PushKeepsValid(w.server, b, sub, role);
    PushKeepsVetted(team, w.server, b, sub, role);
    forall k ensures Moved(w.server, after.server, k) {
      MovedAll(w.server, Arrivals(w.server, b, sub, role), k);
    }
    assert Moved(w.server, after.server, SnipKey(""));
    MovedKeeps(team, w, after);
  }

  lemma MovedKeeps(team: string, w: World, after: World)
    requires Inv(team, w) && after == w.(server := after.server)
    requires ServerSound(team, after)
    requires forall k :: Moved(w.server, after.server, k)
    ensures Inv(team, after)
  {
    forall k ensures CleanIsSafe(after, k) {
      assert CleanIsSafe(w, k) && Moved(w.server, after.server, k);
      if k in w.device.rows && !w.device.Dirty(k) {
        ConfirmedStays(w.server, after.server, w.device.rows[k]);
      }
    }
    forall k ensures NoneMissed(after, k) {
      assert NoneMissed(w, k) && Moved(w.server, after.server, k);
      if Find(after.server.log, k).Some? {
        assert Waiting(w, Find(after.server.log, k).value.rec) ==> Waiting(after, Find(after.server.log, k).value.rec);
      }
    }
    forall k ensures InFlight(after, k) {
      assert InFlight(w, k) && Moved(w.server, after.server, k);
      if k in w.flight {
        ToldStays(w.server, after.server, w.flight[k].rec, w.flight[k].outcome, w.target);
      }
    }
    forall i: nat ensures Fetched(after, i) {
      assert Fetched(w, i);
      if i < |w.inbox| {
        assert Moved(w.server, after.server, w.inbox[i].Key());
        CurrentStays(w.server, after.server, w.inbox[i], w.target);
      }
    }
  }

  // ---- the device moves ---------------------------------------------------------------------------------------------

  /** A key whose row is alike keeps its part of the invariant, as long as what it waits for is kept. */
  lemma AlikeKeeps(w: World, after: World, k: Key)
    requires CleanIsSafe(w, k) && NoneMissed(w, k) && InFlight(w, k) && Alike(w.device, after.device, k)
    requires after.server == w.server && after.target == w.target && after.device.cursor == w.device.cursor
    requires after.skipped == w.skipped && after.unseen == w.unseen
    requires after.inbox == w.inbox || (w.flight == map[] && w.inbox != [] && after.inbox == w.inbox[1..] && w.inbox[0].Key() != k)
    requires k in after.flight ==> k in w.flight && after.flight[k] == w.flight[k]
    ensures CleanIsSafe(after, k) && NoneMissed(after, k) && InFlight(after, k)
  {
    var row := Find(w.server.log, k);
    FindSound(w.server.log, k);
    if row.Some? && Waiting(w, row.value.rec) {
      var i :| 0 <= i < |w.inbox| && w.inbox[i].Key() == row.value.rec.Key() && SameStamp(w.inbox[i], row.value.rec);
      assert after.inbox != w.inbox ==> after.inbox[i - 1] == w.inbox[i];
    }
  }

  lemma EditKeeps(team: string, w: World, rec: Record)
    requires Inv(team, w)
    ensures Inv(team, Step(team, w, Edit(rec)))
  {
    var after := Step(team, w, Edit(rec));
    EditedVersioned(w.device, rec);
    forall k ensures CleanIsSafe(after, k) && NoneMissed(after, k) && InFlight(after, k) {
      EditedRow(w.device, rec, k);
      assert CleanIsSafe(w, k) && NoneMissed(w, k) && InFlight(w, k);
      if k != rec.Key() {
        AlikeKeeps(w, after, k);
      }
    }
    forall i: nat ensures Fetched(after, i) {
      assert Fetched(w, i);
    }
  }

  lemma FinishKeeps(team: string, w: World)
    requires Inv(team, w)
    ensures Inv(team, Step(team, w, Finish))
  {
    var after := Step(team, w, Finish);
    forall k ensures CleanIsSafe(after, k) && NoneMissed(after, k) && InFlight(after, k) {
      assert CleanIsSafe(w, k) && NoneMissed(w, k) && InFlight(w, k);
    }
    forall i: nat ensures Fetched(after, i) {
      assert Fetched(w, i);
    }
  }

  lemma StoreIsSound(team: string, w: World)
    requires ServerSound(team, w) && w.server.counter < TWO_TO_63
    ensures Sound(w.server)
  {
    forall i | 0 <= i < |w.server.log| && w.server.log[i].rec.Grp? ensures !w.server.log[i].rec.g.restricted {
      assert w.server.log[i] in w.server.log;
    }
  }

  lemma FetchKeeps(team: string, w: World, limit: nat)
    requires Inv(team, w)
    ensures Inv(team, Step(team, w, Fetch(limit)))
  {
    var after := Step(team, w, Fetch(limit));
    if Idle(w) && w.server.counter < TWO_TO_63 {
      var n := Clamp(Some(limit));
      StoreIsSound(team, w);
      PageIsPrefix(w.viewer, w.server, w.device.cursor, n);
      forall k ensures CleanIsSafe(after, k) && NoneMissed(after, k) && InFlight(after, k) {
        assert CleanIsSafe(w, k) && NoneMissed(w, k);
        FetchMissesNone(w, n, k);
      }
      forall i: nat ensures Fetched(after, i) {
        if i < |after.inbox| {
          assert after.inbox[i] in after.inbox;
          PageIsCurrent(w.viewer, w.server, w.device.cursor, n, after.inbox[i]);
        }
      }
    }
  }

  lemma FetchMissesNone(w: World, n: nat, k: Key)
    requires Sound(w.server) && w.device.cursor <= w.server.counter && n >= 1 && Idle(w) && NoneMissed(w, k)
    ensures var page := Serve(w.viewer, StoredPage(w.server, w.device.cursor, n));
      NoneMissed(w.(inbox := Inbox(page), target := page.nextCursor,
                    skipped := Hidden(w.viewer, w.server, w.device.cursor, page.nextCursor)), k)
  {
    var page := Serve(w.viewer, StoredPage(w.server, w.device.cursor, n));
    var after := w.(inbox := Inbox(page), target := page.nextCursor,
                    skipped := Hidden(w.viewer, w.server, w.device.cursor, page.nextCursor));
    var found := Find(w.server.log, k);
    FindSound(w.server.log, k);
    if found.Some? && w.viewer.Sees(found.value.rec) && w.device.cursor < found.value.num <= page.nextCursor {
      var rec := found.value.rec;
      PageIsComplete(w.viewer, w.server, w.device.cursor, n, found.value);
      var i :| 0 <= i < |after.inbox| && after.inbox[i] == w.viewer.Dress(rec);
      assert after.inbox[i].Key() == rec.Key() && SameStamp(after.inbox[i], rec);
      assert Waiting(after, rec);
    }
  }

  lemma SameStampNeverBeats(a: Record, b: Record)
    requires SameStamp(a, b)
    ensures !Beats(a, b) && !Beats(b, a)
  {
    Text.LessIrreflexive(a.UpdatedAt());
  }

  /** Applying a current record leaves its key safe, and the pull has missed nothing of it. */
  lemma CurrentApplied(w: World, after: World, rec: Record)
    requires w.device.cursor <= w.target && Current(w.server, rec, w.target) && Versioned(w.device) && CleanIsSafe(w, rec.Key())
    requires after.server == w.server && after.target == w.target && after.device == Applied(w.device, FromWire(rec))
    ensures CleanIsSafe(after, rec.Key()) && NoneMissed(after, rec.Key())
  {
    var k := rec.Key();
    var row := Find(w.server.log, k).value;
    AppliedRow(w.device, FromWire(rec), k);
    if SameStamp(row.rec, rec) {
      SameStampNeverBeats(row.rec, rec);
    }
  }

  lemma PullingIsNotPushing(w: World)
    requires w.inbox != [] && forall k :: InFlight(w, k)
    ensures w.flight == map[]
  {
    forall k ensures k !in w.flight {
      assert InFlight(w, k);
    }
  }

  lemma ApplyKeeps(team: string, w: World)
    requires Inv(team, w) && w.inbox != []
    ensures Inv(team, Step(team, w, ApplyNext))
  {
    var after := Step(team, w, ApplyNext);
    var rec := w.inbox[0];
    AppliedVersioned(w.device, FromWire(rec));
    assert Fetched(w, 0);
    PullingIsNotPushing(w);
    forall k ensures CleanIsSafe(after, k) && NoneMissed(after, k) && InFlight(after, k) {
      assert CleanIsSafe(w, k) && NoneMissed(w, k) && InFlight(w, k);
      if k == rec.Key() {
        CurrentApplied(w, after, rec);
      } else {
        AppliedRow(w.device, FromWire(rec), k);
        AlikeKeeps(w, after, k);
      }
    }
    forall i: nat ensures Fetched(after, i) {
      assert Fetched(w, i + 1);
    }
  }

  lemma AcceptedKeeps(team: string, w: World, k: Key)
    requires Inv(team, w) && k in w.flight && w.flight[k].outcome.Accepted?
    ensures Inv(team, Step(team, w, Receive(k)))
  {
    var after, sent := Step(team, w, Receive(k)), w.flight[k];
    assert InFlight(w, k);
    forall j ensures CleanIsSafe(after, j) && NoneMissed(after, j) && InFlight(after, j) {
      assert CleanIsSafe(w, j) && NoneMissed(w, j) && InFlight(w, j);
      if j != k {
        AlikeKeeps(w, after, j);
      }
    }
    forall i: nat ensures Fetched(after, i) {
      assert Fetched(w, i);
    }
  }

  lemma SupersededKeeps(team: string, w: World, k: Key)
    requires Inv(team, w) && k in w.flight && w.flight[k].outcome.Superseded?
    ensures Inv(team, Step(team, w, Receive(k)))
  {
    var after, copy := Step(team, w, Receive(k)), w.flight[k].outcome.server;
    assert InFlight(w, k);
    AppliedVersioned(w.device, FromWire(copy));
    forall j ensures CleanIsSafe(after, j) && NoneMissed(after, j) && InFlight(after, j) {
      assert CleanIsSafe(w, j) && NoneMissed(w, j) && InFlight(w, j);
      if j == k {
        CurrentApplied(w, after, copy);
      } else {
        AppliedRow(w.device, FromWire(copy), j);
        AlikeKeeps(w, after, j);
      }
    }
    forall i: nat ensures Fetched(after, i) {
      assert Fetched(w, i);
    }
  }

  lemma ToldSince(st: TeamStore, rec: Record, o: PushOutcome, since: nat, earlier: nat)
    requires Told(st, rec, o, since) && earlier <= since
    ensures Told(st, rec, o, earlier)
  {
  }

  lemma FlightIsTrue(w: World, b: Batch, sub: string, role: Role, k: Key)
    requires Dirt(w.device, b)
    requires k in Flight(w.device, b, AckOf(w.server, b, sub, role))
    ensures var sent := Flight(w.device, b, AckOf(w.server, b, sub, role))[k];
      Told(Merged(w.server, b, sub, role), sent.rec, sent.outcome, w.server.counter)
  {
    var ack := AckOf(w.server, b, sub, role);
    var o := AckFor(ack, k).value;
    match k
    case SnipKey(id) =>
      SnippetAckTells(w.server, b, sub, role, o);
      var s :| s in b.snippets && s.id == o.id && Told(Merged(w.server, b, sub, role), Snip(s), o, w.server.counter);
    case GrpKey(id) =>
      GroupAckTells(w.server, b, sub, role, o);
      var g :| g in b.groups && g.id == o.id && Told(Merged(w.server, b, sub, role), Grp(g), o, w.server.counter);
      var held := w.device.rows[k];
      assert held.Grp? && g == held.g.(restricted := false);
      TellsStamp(Merged(w.server, b, sub, role), Grp(g), held, o, w.server.counter);
  }

  lemma SendKeeps(team: string, w: World, b: Batch, sub: string, role: Role)
    requires Inv(team, w)
    ensures Inv(team, Step(team, w, Send(b, sub, role)))
  {
    if Idle(w) && Dirt(w.device, b) && Taken(team, w.closed, role, b) {
      var after := Step(team, w, Send(b, sub, role));
      var moved := w.(server := after.server);
      ServerMoves(team, w, b, sub, role);
      forall k ensures CleanIsSafe(after, k) && NoneMissed(after, k) && InFlight(after, k) {
        assert CleanIsSafe(moved, k) && NoneMissed(moved, k);
        if k in after.flight {
          FlightIsTrue(w, b, sub, role, k);
          ToldSince(after.server, after.flight[k].rec, after.flight[k].outcome, w.server.counter, w.target);
        }
      }
      forall i: nat ensures Fetched(after, i) {
      }
    }
  }

  lemma FailKeeps(team: string, w: World)
    requires Inv(team, w)
    ensures Inv(team, Step(team, w, Fail))
  {
    var after := Step(team, w, Fail);
    forall k ensures CleanIsSafe(after, k) && NoneMissed(after, k) && InFlight(after, k) {
      assert CleanIsSafe(w, k) && NoneMissed(w, k);
    }
    forall i: nat ensures Fetched(after, i) {
    }
  }

  /** What the user may see matters only at the moment a page is fetched. */
  lemma RegrantKeeps(team: string, w: World, viewer: Viewer, closed: set<string>)
    requires Inv(team, w)
    ensures Inv(team, Step(team, w, Regrant(viewer, closed)))
  {
    var after := Step(team, w, Regrant(viewer, closed));
    forall k ensures CleanIsSafe(after, k) && NoneMissed(after, k) && InFlight(after, k) {
      assert CleanIsSafe(w, k) && NoneMissed(w, k) && InFlight(w, k);
    }
    forall i: nat ensures Fetched(after, i) {
      assert Fetched(w, i);
    }
  }

  lemma StepKeeps(team: string, w: World, e: Event)
    requires Inv(team, w)
    ensures Inv(team, Step(team, w, e))
  {
    match e
    case Others(b, sub, role) =>
      if ValidBatch(team, b) {
        ServerMoves(team, w, b, sub, role);
      }
    case Regrant(viewer, closed) => RegrantKeeps(team, w, viewer, closed);
    case Edit(rec) => EditKeeps(team, w, rec);
    case Fetch(limit) => FetchKeeps(team, w, limit);
    case ApplyNext =>
      if w.inbox != [] {
        ApplyKeeps(team, w);
      }
    case Finish => FinishKeeps(team, w);
    case Send(b, sub, role) => SendKeeps(team, w, b, sub, role);
    case Receive(k) =>
      if k in w.flight {
        if w.flight[k].outcome.Accepted? {
          AcceptedKeeps(team, w, k);
        } else {
          SupersededKeeps(team, w, k);
        }
      }
    case Fail => FailKeeps(team, w);
  }

  lemma StartHolds(team: string, w: World)
    requires Start(team, w)
    ensures Inv(team, w)
  {
    forall k ensures NoneMissed(w, k) {
      FindSound(w.server.log, k);
      if Find(w.server.log, k).Some? {
        assert Find(w.server.log, k).value.num > 0;
      }
    }
  }

  lemma {:induction false} RunKeeps(team: string, w: World, events: seq<Event>)
    requires Inv(team, w)
    ensures Inv(team, Run(team, w, events))
  {
    if events == [] {
    } else {
      RunKeeps(team, w, events[..|events| - 1]);
      StepKeeps(team, Run(team, w, events[..|events| - 1]), events[|events| - 1]);
    }
  }

  lemma Reachable(team: string, w: World, events: seq<Event>)
    requires Start(team, w)
    ensures Inv(team, Run(team, w, events))
  {
    StartHolds(team, w);
    RunKeeps(team, w, events);
  }

  // ---- the promises ------------------------------------------------------------------------------------------------------

  /**
   In every run: a record the device calls clean is on the server, unless something at least as new
   took its place there. What a device has been told is saved is never lost.
   */
  lemma AcknowledgedIsNeverLost(team: string, w: World, events: seq<Event>, k: Key)
    requires Start(team, w)
    requires var d := Run(team, w, events).device; k in d.rows && !d.Dirty(k)
    ensures var t := Run(team, w, events);
      Get(t.server, k).Some? && (SameStamp(Get(t.server, k).value, t.device.rows[k]) || Beats(Get(t.server, k).value, t.device.rows[k]))
  {
    Reachable(team, w, events);
    var t := Run(team, w, events);
    assert CleanIsSafe(t, k);
    BeatsTotal(Get(t.server, k).value, t.device.rows[k]);
  }

  /**
   In every run, however pages, other devices' pushes, local edits and changes of what the user may
   see interleave: between pulls, a row behind the cursor is on the device, and unless an edit of it is
   still to send, with exactly the server's stamp. The exception is a row that was hidden from the
   user when the cursor passed it and has not been rewritten since: a rewritten one is another row.
   */
  lemma PullsMissNothing(team: string, w: World, events: seq<Event>, k: Key)
    requires Start(team, w)
    requires var t := Run(team, w, events);
      Idle(t) && Find(t.server.log, k).Some? && Find(t.server.log, k).value.num <= t.device.cursor
      && Find(t.server.log, k).value !in t.unseen
    ensures var t := Run(team, w, events);
      k in t.device.rows && (t.device.Dirty(k) || SameStamp(t.device.rows[k], Find(t.server.log, k).value.rec))
  {
    Reachable(team, w, events);
    var t := Run(team, w, events);
    assert CleanIsSafe(t, k) && NoneMissed(t, k);
    BeatsTotal(t.device.rows[k], Find(t.server.log, k).value.rec);
  }

  /** At some fetch of the run the row was in the log and the user could not see it. */
  ghost predicate HiddenAtAFetch(team: string, w: World, events: seq<Event>, row: Row) {
    exists i :: 0 <= i < |events| && FetchHides(Run(team, w, events[..i]), events[i], row)
  }

  ghost predicate FetchHides(w: World, e: Event, row: Row) {
    && e.Fetch? && Idle(w) && w.server.counter < TWO_TO_63
    && row in w.server.log && !w.viewer.Sees(row.rec)
    && w.device.cursor < row.num <= Serve(w.viewer, StoredPage(w.server, w.device.cursor, Clamp(Some(e.limit)))).nextCursor
  }

  lemma StepHides(team: string, w: World, e: Event, row: Row)
    requires row !in w.unseen + w.skipped && row in Step(team, w, e).unseen + Step(team, w, e).skipped
    ensures FetchHides(w, e, row)
  {
    match e
    case Fetch(limit) =>
      if Idle(w) && w.server.counter < TWO_TO_63 {
        FetchStep(team, w, limit, Serve(w.viewer, StoredPage(w.server, w.device.cursor, Clamp(Some(limit)))));
      }
    case _ =>
  }

  lemma PrefixOfPrefix(events: seq<Event>, i: nat)
    requires i < |events| - 1
    ensures events[..|events| - 1][..i] == events[..i] && events[..|events| - 1][i] == events[i]
  {
  }

  lemma HiddenEarlier(team: string, w: World, events: seq<Event>, row: Row)
    requires events != [] && HiddenAtAFetch(team, w, events[..|events| - 1], row)
    ensures HiddenAtAFetch(team, w, events, row)
  {
    var pre := events[..|events| - 1];
    var i :| 0 <= i < |pre| && FetchHides(Run(team, w, pre[..i]), pre[i], row);
    PrefixOfPrefix(events, i);
  }

  /** And those exceptions are what the record says: each row in it was hidden at a fetch that went past it. */
  lemma {:induction false} UnseenWasHidden(team: string, w: World, events: seq<Event>, row: Row)
    requires w.skipped == w.unseen == {}
    requires row in Run(team, w, events).unseen + Run(team, w, events).skipped
    ensures HiddenAtAFetch(team, w, events, row)
  {
    if events == [] {
    } else {
      var n := |events| - 1;
      var t := Run(team, w, events[..n]);
      if row in t.unseen + t.skipped {
        UnseenWasHidden(team, w, events[..n], row);
        HiddenEarlier(team, w, events, row);
      } else {
        StepHides(team, t, events[n], row);
        assert FetchHides(Run(team, w, events[..n]), events[n], row);
      }
    }
  }

  /** So a row the user could see at every fetch that went past it is on the device between pulls. */
  lemma VisibleIsPulled(team: string, w: World, events: seq<Event>, k: Key)
    requires Start(team, w)
    requires var t := Run(team, w, events);
      Idle(t) && Find(t.server.log, k).Some? && Find(t.server.log, k).value.num <= t.device.cursor
      && !HiddenAtAFetch(team, w, events, Find(t.server.log, k).value)
    ensures var t := Run(team, w, events);
      k in t.device.rows && (t.device.Dirty(k) || SameStamp(t.device.rows[k], Find(t.server.log, k).value.rec))
  {
    var row := Find(Run(team, w, events).server.log, k).value;
    if row in Run(team, w, events).unseen {
      UnseenWasHidden(team, w, events, row);
    }
    PullsMissNothing(team, w, events, k);
  }

  /** Synced up: nothing to send, nothing to fetch, nothing half done. */
  ghost predicate UpToDate(w: World) {
    && Idle(w) && (forall r :: r in w.server.log ==> r.num <= w.device.cursor)
    && forall k :: k in w.device.rows ==> !w.device.Dirty(k)
  }

  /**
   Two devices that are up to date with the same server agree on every record that neither user was
   kept from seeing when the cursor passed its present row.
   */
  lemma DevicesConverge(team: string, w: World, events: seq<Event>, v: World, others: seq<Event>, k: Key)
    requires Start(team, w) && Start(team, v)
    requires var s, t := Run(team, w, events), Run(team, v, others);
      UpToDate(s) && UpToDate(t) && s.server == t.server && Find(s.server.log, k).Some?
      && Find(s.server.log, k).value !in s.unseen + t.unseen
    ensures var s, t := Run(team, w, events), Run(team, v, others);
      k in s.device.rows && k in t.device.rows && SameStamp(s.device.rows[k], t.device.rows[k])
  {
    Reachable(team, w, events);
    FindSound(Run(team, w, events).server.log, k);
    PullsMissNothing(team, w, events, k);
    PullsMissNothing(team, v, others, k);
  }

  // ---- single steps -------------------------------------------------------------------------------------------------------

  lemma FetchStep(team: string, w: World, limit: nat, page: Page)
    requires Idle(w) && w.server.counter < TWO_TO_63
    requires page == Serve(w.viewer, StoredPage(w.server, w.device.cursor, Clamp(Some(limit))))
    ensures Step(team, w, Fetch(limit)) ==
      w.(inbox := Inbox(page), target := page.nextCursor, skipped := Hidden(w.viewer, w.server, w.device.cursor, page.nextCursor))
  {
  }

  lemma SendStep(team: string, w: World, b: Batch, me: string, role: Role)
    requires Idle(w) && Dirt(w.device, b) && Taken(team, w.closed, role, b)
    ensures Step(team, w, Send(b, me, role)) ==
      w.(server := Merged(w.server, b, me, role), flight := Flight(w.device, b, AckOf(w.server, b, me, role)))
  {
  }

  lemma ApplyStep(team: string, w: World)
    requires w.inbox != []
    ensures Step(team, w, ApplyNext) == w.(device := Applied(w.device, FromWire(w.inbox[0])), inbox := w.inbox[1..])
  {
  }

  lemma FinishStep(team: string, w: World)
    requires w.inbox == []
    ensures Step(team, w, Finish) ==
      w.(device := w.device.(cursor := w.target), unseen := w.unseen + w.skipped, skipped := {})
  {
  }

  lemma ReceiveStep(team: string, w: World, k: Key)
    requires k in w.flight
    ensures Step(team, w, Receive(k)) == w.(device := Received(w.device, k, w.flight[k]), flight := w.flight - {k})
  {
  }

  // ---- runs put together ---------------------------------------------------------------------------------------------------

  lemma RunSnoc(team: string, w: World, events: seq<Event>, e: Event)
    ensures Run(team, w, events + [e]) == Step(team, Run(team, w, events), e)
  {
    assert (events + [e])[..|events|] == events;
  }

  lemma RunOne(team: string, w: World, e: Event)
    ensures Run(team, w, [e]) == Step(team, w, e)
  {
    assert [e][..0] == [];
  }

  lemma {:induction false} RunConcat(team: string, w: World, a: seq<Event>, b: seq<Event>)
    ensures Run(team, w, a + b) == Run(team, Run(team, w, a), b)
  {
    if b == [] {
      assert a + b == a;
    } else {
      assert a + b == a + b[..|b| - 1] + [b[|b| - 1]];
      RunSnoc(team, w, a + b[..|b| - 1], b[|b| - 1]);
      RunConcat(team, w, a, b[..|b| - 1]);
    }
  }
}
